/** What the reference counts guarantee, with and without well-behaved unsubscribes. */
module FanOutProofs {
  import opened FanOut

  // ---------- Invariants of one instance ----------

  /** `localSubs` and the connections' own room sets are two views of one relation. */
  ghost predicate Mirror<C>(rooms: map<C, set<RoomId>>, subs: map<RoomId, set<C>>) {
    && (forall r | r in subs :: subs[r] != {})
    && (forall r, c | r in subs && c in subs[r] :: c in rooms && r in rooms[c])
    && (forall c, r | c in rooms && r in rooms[c] :: r in subs && c in subs[r])
  }

  ghost predicate BusOk<C>(s: Instance<C>, r: RoomId)
    requires r in s.busSubs
  {
    && r in s.localSubs
    && 1 <= s.busSubs[r].refCount <= |s.localSubs[r]|
    && s.busSubs[r].handler.room == r
    && RoomChannel(r) in s.handlers && s.handlers[RoomChannel(r)] == {s.busSubs[r].handler}
  }

  /**
   Holds whatever is unsubscribed: one handler per counted room, counts no larger than the local
   subscribers, no bus subscription without a local subscriber, Redis listening exactly where handlers are.
   */
  ghost predicate Loose<C>(s: Instance<C>) {
    && Mirror(s.rooms, s.localSubs)
    && (forall r | r in s.busSubs :: BusOk(s, r))
    && (forall ch | ch in s.handlers :: ch.room in s.busSubs)
    && s.redis == s.handlers.Keys
  }

  ghost predicate Counted<C>(s: Instance<C>, r: RoomId) {
    r in s.localSubs ==> r in s.busSubs && s.busSubs[r].refCount == |s.localSubs[r]|
  }

  /** Holds as well when unsubscribes name joined rooms: the count is the number of local subscribers. */
  ghost predicate Exact<C>(s: Instance<C>) {
    Loose(s) && forall r | r in s.localSubs :: Counted(s, r)
  }

  // ---------- Single registry steps ----------

  lemma AddOne<C>(a: set<C>, c: C)
    ensures |a + {c}| == if c in a then |a| else |a| + 1
  {
    if c in a { assert a + {c} == a; }
  }

  lemma MirrorAdd<C>(rooms: map<C, set<RoomId>>, subs: map<RoomId, set<C>>, c: C, r: RoomId)
    requires Mirror(rooms, subs) && c in rooms
    ensures Mirror(rooms[c := rooms[c] + {r}], subs[r := (if r in subs then subs[r] else {}) + {c}])
  {
  }

  lemma MirrorDrop<C>(rooms: map<C, set<RoomId>>, subs: map<RoomId, set<C>>, c: C, r: RoomId)
    requires Mirror(rooms, subs)
    ensures var left := (if r in subs then subs[r] else {}) - {c};
            Mirror(if c in rooms then rooms[c := rooms[c] - {r}] else rooms, if left == {} then subs - {r} else subs[r := left])
  {
  }

  lemma SubscribeKeepsBus<C>(s: Instance<C>, c: C, r: RoomId, q: RoomId)
    requires c !in Subs(s, r)
    requires q in s.busSubs ==> BusOk(s, q)
    requires r !in s.busSubs ==> RoomChannel(r) !in s.handlers
    requires q in SubscribeRoom(s, c, r).busSubs
    ensures BusOk(SubscribeRoom(s, c, r), q)
  {
    AddOne(Subs(s, r), c);
  }

  lemma SubscribeKeepsHandlers<C>(s: Instance<C>, c: C, r: RoomId)
    requires s.redis == s.handlers.Keys && forall ch | ch in s.handlers :: ch.room in s.busSubs
    ensures var s' := SubscribeRoom(s, c, r);
            s'.redis == s'.handlers.Keys && forall ch | ch in s'.handlers :: ch.room in s'.busSubs
  {
  }

  lemma SubscribeKeepsLoose<C>(s: Instance<C>, c: C, r: RoomId)
    requires Loose(s) && c in s.rooms && c !in Subs(s, r)
    ensures Loose(SubscribeRoom(s, c, r))
  {
    var s' := SubscribeRoom(s, c, r);
    MirrorAdd(s.rooms, s.localSubs, c, r);
    SubscribeKeepsHandlers(s, c, r);
    assert RoomChannel(r).room == r;
    forall q | q in s'.busSubs ensures BusOk(s', q) {
      assert q in s.busSubs ==> BusOk(s, q);
      SubscribeKeepsBus(s, c, r, q);
    }
  }

  lemma SubscribeCounts<C>(s: Instance<C>, c: C, r: RoomId)
    requires c !in Subs(s, r) && Counted(s, r)
    requires r in s.busSubs ==> r in s.localSubs
    ensures Counted(SubscribeRoom(s, c, r), r)
  {
    AddOne(Subs(s, r), c);
  }

  lemma SubscribeKeepsCounts<C>(s: Instance<C>, c: C, r: RoomId, q: RoomId)
    requires Exact(s) && c !in Subs(s, r)
    ensures Counted(SubscribeRoom(s, c, r), q)
  {
    assert Counted(s, q) && (q in s.busSubs ==> BusOk(s, q));
    if q == r { SubscribeCounts(s, c, r); }
  }

  lemma SubscribeKeeps<C>(s: Instance<C>, c: C, r: RoomId)
    requires Loose(s) && c in s.rooms && r !in s.rooms[c]
    ensures Loose(SubscribeRoom(s, c, r))
    ensures Exact(s) ==> Exact(SubscribeRoom(s, c, r))
  {
    SubscribeKeepsLoose(s, c, r);
    if Exact(s) {
      forall q ensures Counted(SubscribeRoom(s, c, r), q) { SubscribeKeepsCounts(s, c, r, q); }
    }
  }

  lemma UnsubscribeKeepsBus<C>(s: Instance<C>, c: C, r: RoomId, q: RoomId)
    requires Loose(s)
    requires q in UnsubscribeRoom(s, c, r).busSubs
    ensures BusOk(UnsubscribeRoom(s, c, r), q)
  {
  }

  lemma UnsubscribeKeepsHandlers<C>(s: Instance<C>, c: C, r: RoomId)
    requires Loose(s)
    ensures var s' := UnsubscribeRoom(s, c, r);
            s'.redis == s'.handlers.Keys && forall ch | ch in s'.handlers :: ch.room in s'.busSubs
  {
  }

  lemma UnsubscribeKeeps<C>(s: Instance<C>, c: C, r: RoomId)
    requires Loose(s)
    ensures Loose(UnsubscribeRoom(s, c, r))
  {
    var s' := UnsubscribeRoom(s, c, r);
    MirrorDrop(s.rooms, s.localSubs, c, r);
    UnsubscribeKeepsHandlers(s, c, r);
    forall q | q in s'.busSubs ensures BusOk(s', q) { UnsubscribeKeepsBus(s, c, r, q); }
  }

  lemma UnsubscribeCountsHere<C>(s: Instance<C>, c: C, r: RoomId)
    requires Loose(s) && Counted(s, r)
    ensures Counted(UnsubscribeRoom(s, c, r), r) <==> (r in RoomsOf(s, c) || r !in s.localSubs)
  {
  }

  /** The one registry call that can break the count: unsubscribing a stranger from a room others are in. */
  lemma UnsubscribeKeepsCountIff<C>(s: Instance<C>, c: C, r: RoomId)
    requires Exact(s)
    ensures Exact(UnsubscribeRoom(s, c, r)) <==> (r in RoomsOf(s, c) || r !in s.localSubs)
  {
    var s' := UnsubscribeRoom(s, c, r);
    UnsubscribeKeeps(s, c, r);
    UnsubscribeCountsHere(s, c, r);
    forall q | q != r ensures Counted(s', q) { assert Counted(s, q); }
  }

  // ---------- Whole operations ----------

  /** An invariant step over one instance that opens and closes no connection. */
  ghost predicate Kept<C>(s: Instance<C>, s': Instance<C>) {
    Loose(s') && (Exact(s) ==> Exact(s')) && s'.rooms.Keys == s.rooms.Keys
  }

  lemma GuardedSubscribeKeeps<C>(s: Instance<C>, c: C, r: RoomId, memberOf: set<RoomId>)
    requires Loose(s) && c in s.rooms
    ensures Kept(s, JoinUnlessJoined(s, c, r, memberOf))
  {
    if r in memberOf && r !in RoomsOf(s, c) { SubscribeKeeps(s, c, r); }
  }

  lemma {:induction false} ChatSubscribeKeeps<C>(s: Instance<C>, c: C, rs: seq<RoomId>, memberOf: set<RoomId>)
    requires Loose(s) && c in s.rooms
    ensures Kept(s, ChatSubscribe(s, c, rs, memberOf))
    decreases |rs|
  {
    if rs != [] {
      GuardedSubscribeKeeps(s, c, rs[0], memberOf);
      ChatSubscribeKeeps(JoinUnlessJoined(s, c, rs[0], memberOf), c, rs[1..], memberOf);
    }
  }

  lemma {:induction false} UnsubscribeAllKeeps<C>(s: Instance<C>, c: C, rs: seq<RoomId>)
    requires Loose(s)
    ensures Loose(UnsubscribeAll(s, c, rs))
    decreases |rs|
  {
    if rs != [] {
      UnsubscribeKeeps(s, c, rs[0]);
      UnsubscribeAllKeeps(UnsubscribeRoom(s, c, rs[0]), c, rs[1..]);
    }
  }

  lemma UnsubscribeLeaves<C>(s: Instance<C>, c: C, r: RoomId)
    ensures UnsubscribeRoom(s, c, r).rooms.Keys == s.rooms.Keys
    ensures RoomsOf(UnsubscribeRoom(s, c, r), c) == RoomsOf(s, c) - {r}
  {
  }

  lemma {:induction false} UnsubscribeAllLeaves<C>(s: Instance<C>, c: C, rs: seq<RoomId>)
    ensures UnsubscribeAll(s, c, rs).rooms.Keys == s.rooms.Keys
    ensures RoomsOf(UnsubscribeAll(s, c, rs), c) == RoomsOf(s, c) - set r | r in rs
    decreases |rs|
  {
    if rs != [] {
      UnsubscribeLeaves(s, c, rs[0]);
      UnsubscribeAllLeaves(UnsubscribeRoom(s, c, rs[0]), c, rs[1..]);
    }
  }

  lemma {:induction false} UnsubscribeAllKeepsCount<C>(s: Instance<C>, c: C, rs: seq<RoomId>)
    requires Exact(s)
    requires forall k | 0 <= k < |rs| :: rs[k] in RoomsOf(s, c) && rs[k] !in rs[..k]
    ensures Exact(UnsubscribeAll(s, c, rs))
    decreases |rs|
  {
    if rs != [] {
      var s1 := UnsubscribeRoom(s, c, rs[0]);
      assert rs[0] in RoomsOf(s, c);
      UnsubscribeKeepsCountIff(s, c, rs[0]);
      forall k | 0 <= k < |rs[1..]| ensures rs[1..][k] in RoomsOf(s1, c) && rs[1..][k] !in rs[1..][..k] {
        assert rs[1..][k] == rs[k + 1] && rs[0] in rs[..k + 1];
      }
      UnsubscribeAllKeepsCount(s1, c, rs[1..]);
    }
  }

  /** Forgetting a connection that has left every room changes nothing else. */
  lemma ForgetKeeps<C>(s: Instance<C>, c: C)
    requires Loose(s) && RoomsOf(s, c) == {}
    ensures Loose(s.(rooms := s.rooms - {c}))
    ensures Exact(s) ==> Exact(s.(rooms := s.rooms - {c}))
  {
  }

  lemma OpenKeeps<C>(s: Instance<C>, c: C)
    requires Loose(s) && c !in s.rooms
    ensures Loose(Register(s, c))
    ensures Exact(s) ==> Exact(Register(s, c))
  {
  }

  lemma CloseKeeps<C>(s: Instance<C>, c: C, order: seq<RoomId>)
    requires Loose(s) && c in s.rooms && Enumerates(order, s.rooms[c])
    ensures Loose(Unregister(s, c, order))
    ensures Exact(s) ==> Exact(Unregister(s, c, order))
  {
    UnsubscribeAllKeeps(s, c, order);
    UnsubscribeAllLeaves(s, c, order);
    if Exact(s) {
      UnsubscribeAllKeepsCount(s, c, order);
    }
    ForgetKeeps(UnsubscribeAll(s, c, order), c);
  }

  lemma ApplyKeeps<C>(s: Instance<C>, op: Op<C>)
    requires Loose(s) && Possible([s], 0, op)
    ensures Loose(Apply(s, op))
    ensures Exact(s) && NamesJoined(s, op) ==> Exact(Apply(s, op))
    ensures Apply(s, op).rooms.Keys == match op
                                      case Open(c) => s.rooms.Keys + {c}
                                      case Close(c, _) => s.rooms.Keys - {c}
                                      case _ => s.rooms.Keys
  {
    assert [s][0] == s;
    match op
    case Open(c) => OpenKeeps(s, c);
    case Subscribe(c, rs, members) => ChatSubscribeKeeps(s, c, rs, members);
    case Unsubscribe(c, rs) =>
      UnsubscribeAllKeeps(s, c, rs);
      UnsubscribeAllLeaves(s, c, rs);
      if Exact(s) && NamesJoined(s, op) { UnsubscribeAllKeepsCount(s, c, rs); }
    case Close(c, order) =>
      UnsubscribeAllLeaves(s, c, order);
      CloseKeeps(s, c, order);
  }

  // ---------- All instances ----------

  /** Every instance is sound, and a connection is open on at most one of them. */
  ghost predicate Sound<C>(w: seq<Instance<C>>, strict: bool) {
    && (forall i | 0 <= i < |w| :: Loose(w[i]) && (strict ==> Exact(w[i])))
    && (forall i, j | 0 <= i < j < |w| :: w[i].rooms.Keys !! w[j].rooms.Keys)
  }

  lemma NextKeepsSound<C>(w: seq<Instance<C>>, i: nat, op: Op<C>, strict: bool)
    requires Sound(w, strict) && Possible(w, i, op) && (strict ==> NamesJoined(w[i], op))
    ensures Sound(Next(w, (i, op)), strict)
  {
    ApplyKeeps(w[i], op);
  }

  lemma {:induction false} RunKeepsSound<C>(w: seq<Instance<C>>, ops: seq<(nat, Op<C>)>, strict: bool)
    requires Sound(w, strict) && ValidRun(w, ops, strict)
    ensures Sound(Run(w, ops), strict)
    decreases |ops|
  {
    if ops != [] {
      NextKeepsSound(w, ops[0].0, ops[0].1, strict);
      RunKeepsSound(Next(w, ops[0]), ops[1..], strict);
    }
  }

  // ---------- Delivery ----------

  /** One instance sends an event to a connection once if it has joined and the room is counted, and otherwise never. */
  lemma SendsOf<C>(s: Instance<C>, r: RoomId, c: C)
    requires Loose(s)
    ensures Sends(s, RoomChannel(r), c) == if r in RoomsOf(s, c) && r in s.busSubs then 1 else 0
  {
    var ch := RoomChannel(r);
    if ch in s.handlers {
      var h := s.busSubs[r].handler;
      var hit := set x | x in s.handlers[ch] && c in Subs(s, x.room);
      assert hit == if c in Subs(s, r) then {h} else {};
    }
  }

  lemma {:induction false} SendsAcross<C>(w: seq<Instance<C>>, r: RoomId, c: C, strict: bool)
    requires Sound(w, strict)
    ensures TotalSends(w, RoomChannel(r), c) <= if Joined(w, c, r) then 1 else 0
    ensures strict ==> TotalSends(w, RoomChannel(r), c) == if Joined(w, c, r) then 1 else 0
    decreases |w|
  {
    if w != [] {
      var rest := w[1..];
      assert forall i | 0 <= i < |rest| :: rest[i] == w[i + 1];
      SendsOf(w[0], r, c);
      SendsAcross(rest, r, c, strict);
      if r in RoomsOf(w[0], c) {
        assert forall i | 0 <= i < |rest| :: r !in RoomsOf(rest[i], c);
      } else if Joined(rest, c, r) {
        var i :| 0 <= i < |rest| && r in RoomsOf(rest[i], c);
        assert r in RoomsOf(w[i + 1], c);
      }
    }
  }

  /**
   For any number of instances and any run whose unsubscribes name joined rooms, an event on a
   room's channel reaches each connection in the room exactly once, and no other connection.
   */
  lemma ExactlyOnce<C>(n: nat, ops: seq<(nat, Op<C>)>, r: RoomId, c: C)
    requires ValidRun(Start<C>(n), ops, true)
    ensures var w := Run(Start<C>(n), ops);
            TotalSends(w, RoomChannel(r), c) == if Joined(w, c, r) then 1 else 0
  {
    RunKeepsSound(Start<C>(n), ops, true);
    SendsAcross(Run(Start<C>(n), ops), r, c, true);
  }

  /** With arbitrary unsubscribes, never twice, and never to a connection outside the room. */
  lemma AtMostOnce<C>(n: nat, ops: seq<(nat, Op<C>)>, r: RoomId, c: C)
    requires ValidRun(Start<C>(n), ops, false)
    ensures var w := Run(Start<C>(n), ops);
            && Sound(w, false)
            && TotalSends(w, RoomChannel(r), c) <= if Joined(w, c, r) then 1 else 0
  {
    RunKeepsSound(Start<C>(n), ops, false);
    SendsAcross(Run(Start<C>(n), ops), r, c, false);
  }

  lemma FourOps<C>(w: seq<Instance<C>>, a: (nat, Op<C>), b: (nat, Op<C>), d: (nat, Op<C>), e: (nat, Op<C>))
    requires Possible(w, a.0, a.1)
    requires Possible(Next(w, a), b.0, b.1)
    requires Possible(Next(Next(w, a), b), d.0, d.1)
    requires Possible(Next(Next(Next(w, a), b), d), e.0, e.1)
    ensures Run(w, [a, b, d, e]) == Next(Next(Next(Next(w, a), b), d), e)
    ensures ValidRun(w, [a, b, d, e], false)
  {
    var w1, w2, w3 := Next(w, a), Next(Next(w, a), b), Next(Next(Next(w, a), b), d);
    assert Run(w2, [d, e]) == Run(w3, [e]) && ValidRun(w2, [d, e], false);
    assert Run(w1, [b, d, e]) == Run(w2, [d, e]) && ValidRun(w1, [b, d, e], false);
  }

  /** One stray unsubscribe is enough to silence a connection that never left the room. */
  lemma StrayUnsubscribeSilences()
    ensures var ops := [(0, Open(7)), (0, Open(8)), (0, Subscribe(7, [1], {1})), (0, Unsubscribe(8, [1]))];
            var w := Run(Start<nat>(1), ops);
            ValidRun(Start<nat>(1), ops, false) && Joined(w, 7, 1) && TotalSends(w, RoomChannel(1), 7) == 0
  {
    var a, b, d, e := (0, Open(7)), (0, Open(8)), (0, Subscribe(7, [1], {1})), (0, Unsubscribe(8, [1]));
    var w0 := Start<nat>(1);
    var w1 := Next(w0, a);
    var w2 := Next(w1, b);
    var w3 := Next(w2, d);
    var w4 := Next(w3, e);
    assert w3[0] == SubscribeRoom(w2[0], 7, 1);
    assert 1 in RoomsOf(w4[0], 7);
    FourOps(w0, a, b, d, e);
  }
}
