/**
 Creation of direct rooms is described twice: by single SQL statements over string keys in
 `DirectRooms`, where calls interleave, and as one step over unordered pairs in `RoomRoles`, where it
 meets the calls that change membership. The two agree on every call that is not interrupted.
 */
module DirectRoomAgreement {
  import opened Wrappers
  import D = DirectRooms
  import R = RoomRoles
  import DirectRoomObjects

  /** Users are numbers on one side and id strings without ":" on the other. */
  ghost predicate Naming(name: R.UserId -> D.UserId) {
    && (forall a: R.UserId :: D.Plain(name(a)))
    && (forall a: R.UserId, b: R.UserId :: name(a) == name(b) ==> a == b)
  }

  ghost function Lookup(s: D.State, key: string): Option<D.RoomId> {
    if key in s.byKey then Some(s.byKey[key]) else None
  }

  ghost predicate SamePairs(s: D.State, t: R.State, name: R.UserId -> D.UserId) {
    forall a: R.UserId, b: R.UserId :: Lookup(s, D.DmKey(name(a), name(b))) == R.DmOf(t, {a, b})
  }

  lemma KeyIsPair(name: R.UserId -> D.UserId, a: R.UserId, b: R.UserId, c: R.UserId, d: R.UserId)
    requires Naming(name)
    ensures D.DmKey(name(a), name(b)) == D.DmKey(name(c), name(d)) <==> {a, b} == {c, d}
  {
    D.KeyIdentifiesPair(name(a), name(b), name(c), name(d));
    if {a, b} == {c, d} { assert a in {c, d} && b in {c, d} && c in {a, b} && d in {a, b}; }
  }

  lemma PairAfterCreation(t: R.State, id: R.RoomId, room: R.Room, pair: set<R.UserId>)
    requires R.Inv(t) && id !in t.issued && room.kind.Dm? && R.DmOf(t, room.kind.pair).None?
    ensures R.DmOf(R.State(t.rooms[id := room], t.issued + {id}), pair) == if pair == room.kind.pair then Some(id) else R.DmOf(t, pair)
  {
    var t' := R.State(t.rooms[id := room], t.issued + {id});
    assert id !in t.rooms;
    assert t'.rooms[id].kind == R.Dm(room.kind.pair);
    if pair != room.kind.pair && R.DmOf(t, pair).Some? {
      assert t'.rooms[R.DmOf(t, pair).value].kind == R.Dm(pair);
    }
  }

  /** Same room found, same refusal, and the same new room with the same two members. */
  lemma CreationAgrees(s: D.State, t: R.State, name: R.UserId -> D.UserId,
                       r: R.UserId, u: R.UserId, known: bool, id: R.RoomId)
    requires Naming(name) && SamePairs(s, t, name)
    requires R.Inv(t) && id !in t.issued && id !in s.members
    ensures var (s', end) := DirectRoomObjects.Alone(s, name(r), name(u), id, known);
            var (t', o) := R.Step(t, R.CreateDm(r, u, known, id));
            && SamePairs(s', t', name)
            && (end == D.NoSuchUser <==> o == R.NotFound)
            && (o.Found? ==> end == D.Returned(o.room) && s' == s && t' == t)
            && (o.Ok? ==> end == D.Returned(id) && s'.members[id] == {name(r), name(u)} && t'.rooms[id].members.Keys == {r, u})
  {
    var (s', end) := DirectRoomObjects.Alone(s, name(r), name(u), id, known);
    var (t', o) := R.Step(t, R.CreateDm(r, u, known, id));
    assert Lookup(s, D.DmKey(name(r), name(u))) == R.DmOf(t, {r, u});
    if o.Ok? {
      forall a: R.UserId, b: R.UserId ensures Lookup(s', D.DmKey(name(a), name(b))) == R.DmOf(t', {a, b}) {
        KeyIsPair(name, a, b, r, u);
        PairAfterCreation(t, id, t'.rooms[id], {a, b});
        assert Lookup(s, D.DmKey(name(a), name(b))) == R.DmOf(t, {a, b});
      }
    }
  }
}
