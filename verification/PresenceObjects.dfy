/** The presence store and the presence use cases as objects, for calls that do not overlap. */
module PresenceObjects {
  import opened Presence

  type UserId = nat

  /** One Redis hash per user; a hash without fields does not exist. */
  class RedisPresenceStore {
    var hashes: map<UserId, set<ConnId>>

    constructor ()
      ensures hashes == map[]
    {
      hashes := map[];
    }

    function HashOf(u: UserId): set<ConnId>
      reads this
    {
      if u in hashes then hashes[u] else {}
    }

    method HSet(u: UserId, conn: ConnId)
      modifies this
      ensures HashOf(u) == old(HashOf(u)) + {conn}
      ensures forall v | v != u :: HashOf(v) == old(HashOf(v))
    {
      hashes := hashes[u := HashOf(u) + {conn}];
    }

    method HDel(u: UserId, conn: ConnId) returns (removed: nat)
      modifies this
      ensures HashOf(u) == old(HashOf(u)) - {conn}
      ensures removed == if conn in old(HashOf(u)) then 1 else 0
      ensures forall v | v != u :: HashOf(v) == old(HashOf(v))
    {
      removed := if conn in HashOf(u) then 1 else 0;
      var left := HashOf(u) - {conn};
      hashes := if left == {} then hashes - {u} else hashes[u := left];
    }

    method HLen(u: UserId) returns (n: nat)
      ensures n == |HashOf(u)|
    {
      n := |HashOf(u)|;
    }

    method MarkOffline(u: UserId, conn: ConnId) returns (was: bool)
      modifies this
      ensures HashOf(u) == old(HashOf(u)) - {conn}
      ensures was <==> conn in old(HashOf(u))
      ensures forall v | v != u :: HashOf(v) == old(HashOf(v))
    {
      var removed := HDel(u, conn);
      was := removed > 0;
    }

    method IsOnline(u: UserId) returns (online: bool)
      ensures online <==> HashOf(u) != {}
    {
      var n := HLen(u);
      online := n > 0;
    }

    /** The users with a connection among those asked for, in the order asked, repetitions kept. */
    function WhoIsOnline(us: seq<UserId>): seq<UserId>
      reads this
    {
      if us == [] then []
      else if HashOf(us[0]) != {} then [us[0]] + WhoIsOnline(us[1..])
      else WhoIsOnline(us[1..])
    }

    lemma {:induction false} WhoIsOnlineMembers(us: seq<UserId>, u: UserId)
      ensures u in WhoIsOnline(us) <==> u in us && HashOf(u) != {}
    {
      if us != [] {
        WhoIsOnlineMembers(us[1..], u);
        assert us == [us[0]] + us[1..];
      }
    }

    method ListOnline(us: seq<UserId>) returns (online: seq<UserId>)
      ensures online == WhoIsOnline(us)
    {
      online := [];
      var i := 0;
      while i < |us|
        invariant 0 <= i <= |us|
        invariant online + WhoIsOnline(us[i..]) == WhoIsOnline(us)
      {
        assert us[i..][1..] == us[i + 1..];
        var n := HLen(us[i]);
        if n > 0 { online := online + [us[i]]; }
        i := i + 1;
      }
    }
  }

  /** The notices among a call's log entries, without the hash writes. */
  function Notices(u: UserId, log: seq<Note>): seq<(UserId, Note)> {
    if log == [] then []
    else (if log[0] == Touched then [] else [(u, log[0])]) + Notices(u, log[1..])
  }

  /** What listeners hear of one uninterrupted call. */
  lemma HeardOfCall(u: UserId, hash: set<ConnId>, c: Call)
    ensures Notices(u, Alone(hash, c).1)
            == if c.Online? then [(u, SaidOnline)] else if c.Offline? && hash == {c.conn} then [(u, SaidOffline)] else []
  {
    assert [Touched, SaidOnline][1..] == [SaidOnline];
    assert Notices(u, [SaidOnline]) == [(u, SaidOnline)] + Notices(u, [SaidOnline][1..]);
    assert Notices(u, [SaidOffline]) == [(u, SaidOffline)] + Notices(u, [SaidOffline][1..]);
    assert c.Offline? && c.conn in hash && hash - {c.conn} == {} ==> hash == {c.conn};
  }

  class PresenceUseCases {
    const store: RedisPresenceStore
    var published: seq<(UserId, Note)>

    constructor (store: RedisPresenceStore)
      ensures this.store == store && published == []
    {
      this.store, published := store, [];
    }

    method MarkUserOnline(u: UserId, conn: ConnId)
      modifies this, store
      ensures store.HashOf(u) == Alone(old(store.HashOf(u)), Online(conn)).0
      ensures forall v | v != u :: store.HashOf(v) == old(store.HashOf(v))
      ensures published == old(published) + Notices(u, Alone(old(store.HashOf(u)), Online(conn)).1)
    {
      store.HSet(u, conn);
      published := published + [(u, SaidOnline)];
      assert [Touched, SaidOnline][1..] == [SaidOnline];
      assert Notices(u, [SaidOnline]) == [(u, SaidOnline)] + Notices(u, [SaidOnline][1..]);
    }

    method Beat(u: UserId, conn: ConnId)
      modifies store
      ensures store.HashOf(u) == Alone(old(store.HashOf(u)), Heartbeat(conn)).0
      ensures forall v | v != u :: store.HashOf(v) == old(store.HashOf(v))
      ensures Notices(u, Alone(old(store.HashOf(u)), Heartbeat(conn)).1) == []
    {
      store.HSet(u, conn);
    }

    method MarkUserOffline(u: UserId, conn: ConnId)
      modifies this, store
      ensures store.HashOf(u) == Alone(old(store.HashOf(u)), Offline(conn)).0
      ensures forall v | v != u :: store.HashOf(v) == old(store.HashOf(v))
      ensures published == old(published) + Notices(u, Alone(old(store.HashOf(u)), Offline(conn)).1)
    {
      assert Notices(u, [SaidOffline]) == [(u, SaidOffline)] + Notices(u, [SaidOffline][1..]);
      var removed := store.MarkOffline(u, conn);
      if !removed {
        assert old(store.HashOf(u)) - {conn} == old(store.HashOf(u));
        return;
      }
      var stillOnline := store.IsOnline(u);
      if !stillOnline { published := published + [(u, SaidOffline)]; }
    }
  }
}
