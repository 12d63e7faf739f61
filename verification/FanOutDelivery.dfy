/** Which unsubscribes keep delivery exactly-once from then on, and which can silence somebody. */
module FanOutDelivery {
  import opened FanOut
  import opened FanOutProofs

  /** Every event reaches each connection in its room once, and no other connection. */
  ghost predicate Delivers<C(!new)>(w: seq<Instance<C>>) {
    forall r: RoomId, c: C :: TotalSends(w, RoomChannel(r), c) == if Joined(w, c, r) then 1 else 0
  }

  /** And it stays so, whatever well-behaved calls follow. */
  ghost predicate KeepsDelivering<C(!new)>(w: seq<Instance<C>>) {
    forall ops | ValidRun(w, ops, true) :: Delivers(Run(w, ops))
  }

  lemma ExactKeepsDelivering<C(!new)>(w: seq<Instance<C>>)
    requires Sound(w, true)
    ensures KeepsDelivering(w)
  {
    forall ops | ValidRun(w, ops, true) ensures Delivers(Run(w, ops)) {
      RunKeepsSound(w, ops, true);
      forall r: RoomId, c: C ensures TotalSends(Run(w, ops), RoomChannel(r), c) == if Joined(Run(w, ops), c, r) then 1 else 0 {
        SendsAcross(Run(w, ops), r, c, true);
      }
    }
  }

  lemma NotDeliveringBefore<C(!new)>(w: seq<Instance<C>>, op: (nat, Op<C>))
    requires Possible(w, op.0, op.1) && NamesJoined(w[op.0], op.1)
    requires !KeepsDelivering(Next(w, op))
    ensures !KeepsDelivering(w)
  {
    var ops :| ValidRun(Next(w, op), ops, true) && !Delivers(Run(Next(w, op), ops));
    var all := [op] + ops;
    assert all[0] == op && all[1..] == ops;
    assert ValidRun(w, all, true) && Run(w, all) == Run(Next(w, op), ops);
  }

  /** A connection gets nothing if no instance has both it in the room and a bus subscription for the room. */
  lemma {:induction false} NobodySends<C>(w: seq<Instance<C>>, r: RoomId, c: C)
    requires forall i | 0 <= i < |w| :: Loose(w[i])
    requires forall i | 0 <= i < |w| :: r !in RoomsOf(w[i], c) || r !in w[i].busSubs
    ensures TotalSends(w, RoomChannel(r), c) == 0
    decreases |w|
  {
    if w != [] {
      assert forall i | 0 <= i < |w[1..]| :: w[1..][i] == w[i + 1];
      SendsOf(w[0], r, c);
      NobodySends(w[1..], r, c);
    }
  }

  lemma LostSubscription<C(!new)>(w: seq<Instance<C>>, i: nat, r: RoomId, d: C)
    requires Sound(w, false) && i < |w|
    requires d in Subs(w[i], r) && r !in w[i].busSubs
    ensures Joined(w, d, r) && TotalSends(w, RoomChannel(r), d) == 0
  {
    assert r in RoomsOf(w[i], d);
    forall j | 0 <= j < |w| && j != i ensures r !in RoomsOf(w[j], d) {
      assert if i < j then w[i].rooms.Keys !! w[j].rooms.Keys else w[j].rooms.Keys !! w[i].rooms.Keys;
    }
    NobodySends(w, r, d);
  }

  /** One member leaving takes one from the count and one from the subscribers, so a gap between them stays. */
  lemma LeavingKeepsGap<C>(s: Instance<C>, r: RoomId, d: C)
    requires Loose(s) && r in s.localSubs && !Counted(s, r) && r in s.busSubs && d in s.localSubs[r]
    ensures var s' := UnsubscribeRoom(s, d, r);
            r in s'.localSubs && !Counted(s', r)
            && (r in s'.busSubs ==> s'.busSubs[r].refCount < s.busSubs[r].refCount)
  {
    assert BusOk(s, r);
    assert |s.localSubs[r] - {d}| == |s.localSubs[r]| - 1;
    assert s.localSubs[r] - {d} != {};
  }

  function CountOf<C>(s: Instance<C>, r: RoomId): int {
    if r in s.busSubs then s.busSubs[r].refCount else 0
  }

  /** Once a count is short, members leaving the room one by one silence the last of them. */
  lemma {:induction false} ShortCountSilences<C(!new)>(w: seq<Instance<C>>, i: nat, r: RoomId)
    requires Sound(w, false) && i < |w| && r in w[i].localSubs && !Counted(w[i], r)
    ensures !KeepsDelivering(w)
    decreases CountOf(w[i], r)
  {
    var s := w[i];
    assert s.localSubs[r] != {};
    var d :| d in s.localSubs[r];
    if r !in s.busSubs {
      LostSubscription(w, i, r, d);
      assert Run(w, []) == w && ValidRun(w, [], true) && !Delivers(w);
    } else {
      var op := Unsubscribe(d, [r]);
      assert d in s.rooms && r in RoomsOf(s, d);
      assert Possible(w, i, op) && NamesJoined(s, op);
      assert BusOk(s, r);
      OneRoom(s, d, r);
      LeavingKeepsGap(s, r, d);
      NextKeepsSound(w, i, op, false);
      ShortCountSilences(Next(w, (i, op)), i, r);
      NotDeliveringBefore(w, (i, op));
    }
  }

  lemma OneRoom<C>(s: Instance<C>, c: C, r: RoomId)
    ensures Apply(s, Unsubscribe(c, [r])) == UnsubscribeRoom(s, c, r)
  {
    assert UnsubscribeAll(s, c, [r]) == UnsubscribeAll(UnsubscribeRoom(s, c, r), c, [r][1..]);
  }

  lemma StrayLeavesGap<C>(s: Instance<C>, c: C, r: RoomId)
    requires Exact(s) && r !in RoomsOf(s, c) && r in s.localSubs
    ensures r in UnsubscribeRoom(s, c, r).localSubs && !Counted(UnsubscribeRoom(s, c, r), r)
  {
    assert Counted(s, r) && BusOk(s, r);
    assert s.localSubs[r] - {c} == s.localSubs[r];
  }

  // ---------- Lists of rooms ----------

  /** The room at position `k` is one the connection is in, named for the first time, or one nobody else is in. */
  ghost predicate Harmless<C>(s: Instance<C>, c: C, rs: seq<RoomId>, k: nat)
    requires k < |rs|
  {
    (rs[k] in RoomsOf(s, c) && rs[k] !in rs[..k]) || Subs(s, rs[k]) <= {c}
  }

  ghost predicate AllHarmless<C>(s: Instance<C>, c: C, rs: seq<RoomId>) {
    forall k | 0 <= k < |rs| :: Harmless(s, c, rs, k)
  }

  lemma SubsAfter<C>(s: Instance<C>, c: C, r: RoomId, q: RoomId)
    ensures Subs(UnsubscribeRoom(s, c, r), q) == if q == r then Subs(s, q) - {c} else Subs(s, q)
  {
  }

  /** Once the first room is dealt with, its repetitions are harmless exactly if nobody else is in it. */
  lemma HarmlessAfter<C>(s: Instance<C>, c: C, rs: seq<RoomId>, k: nat)
    requires k + 1 < |rs|
    ensures Harmless(UnsubscribeRoom(s, c, rs[0]), c, rs[1..], k) <==> Harmless(s, c, rs, k + 1)
  {
    var q := rs[k + 1];
    assert rs[..k + 1] == [rs[0]] + rs[1..][..k];
    SubsAfter(s, c, rs[0], q);
    UnsubscribeLeaves(s, c, rs[0]);
    if q != rs[0] {
      assert q in RoomsOf(UnsubscribeRoom(s, c, rs[0]), c) <==> q in RoomsOf(s, c);
    }
  }

  lemma AllHarmlessSplits<C>(s: Instance<C>, c: C, rs: seq<RoomId>)
    requires rs != []
    ensures AllHarmless(s, c, rs) <==> Harmless(s, c, rs, 0) && AllHarmless(UnsubscribeRoom(s, c, rs[0]), c, rs[1..])
  {
    var rest := rs[1..];
    forall k | 0 <= k < |rest| ensures Harmless(UnsubscribeRoom(s, c, rs[0]), c, rest, k) <==> Harmless(s, c, rs, k + 1) {
      HarmlessAfter(s, c, rs, k);
    }
    if AllHarmless(UnsubscribeRoom(s, c, rs[0]), c, rest) && Harmless(s, c, rs, 0) {
      forall k | 0 <= k < |rs| ensures Harmless(s, c, rs, k) {
        if k > 0 { assert Harmless(UnsubscribeRoom(s, c, rs[0]), c, rest, k - 1); }
      }
    }
  }

  lemma FirstHarmlessIff<C>(s: Instance<C>, c: C, rs: seq<RoomId>)
    requires Exact(s) && rs != []
    ensures Harmless(s, c, rs, 0) <==> Exact(UnsubscribeRoom(s, c, rs[0]))
  {
    var r := rs[0];
    UnsubscribeKeepsCountIff(s, c, r);
    assert r in RoomsOf(s, c) <==> c in Subs(s, r);
    assert r in s.localSubs ==> s.localSubs[r] != {};
  }

  /** A gap opened by an outsider is not closed by the outsider's further unsubscribes. */
  lemma {:induction false} GapSurvives<C>(s: Instance<C>, c: C, r: RoomId, rs: seq<RoomId>)
    requires Loose(s) && r in s.localSubs && !Counted(s, r) && c !in s.localSubs[r]
    ensures r in UnsubscribeAll(s, c, rs).localSubs && !Counted(UnsubscribeAll(s, c, rs), r)
    decreases |rs|
  {
    if rs != [] {
      UnsubscribeKeeps(s, c, rs[0]);
      GapAfterOne(s, c, r, rs[0]);
      GapSurvives(UnsubscribeRoom(s, c, rs[0]), c, r, rs[1..]);
    }
  }

  lemma GapAfterOne<C>(s: Instance<C>, c: C, r: RoomId, q: RoomId)
    requires Loose(s) && r in s.localSubs && !Counted(s, r) && c !in s.localSubs[r]
    ensures var s' := UnsubscribeRoom(s, c, q); r in s'.localSubs && !Counted(s', r) && c !in s'.localSubs[r]
  {
    if q == r {
      assert s.localSubs[r] - {c} == s.localSubs[r];
      if r in s.busSubs { assert BusOk(s, r); }
    } else {
      var s' := UnsubscribeRoom(s, c, q);
      assert r in s'.localSubs && s'.localSubs[r] == s.localSubs[r];
      assert r in s'.busSubs <==> r in s.busSubs;
    }
  }

  lemma {:induction false} UnsubscribeAllKeepsCountIff<C>(s: Instance<C>, c: C, rs: seq<RoomId>)
    requires Exact(s)
    ensures Exact(UnsubscribeAll(s, c, rs)) <==> AllHarmless(s, c, rs)
    decreases |rs|
  {
    if rs != [] {
      var s1 := UnsubscribeRoom(s, c, rs[0]);
      AllHarmlessSplits(s, c, rs);
      FirstHarmlessIff(s, c, rs);
      if Exact(s1) {
        UnsubscribeAllKeepsCountIff(s1, c, rs[1..]);
      } else {
        UnsubscribeKeepsCountIff(s, c, rs[0]);
        UnsubscribeKeeps(s, c, rs[0]);
        StrayLeavesGap(s, c, rs[0]);
        SubsAfter(s, c, rs[0], rs[0]);
        GapSurvives(s1, c, rs[0], rs[1..]);
      }
    }
  }

  /** Where counts are exact, an unsubscribe keeps delivery exactly-once from then on if and only if every room it names is harmless. */
  lemma UnsubscribeKeepsDeliveringIff<C(!new)>(w: seq<Instance<C>>, i: nat, c: C, rs: seq<RoomId>)
    requires Sound(w, true) && i < |w| && c in w[i].rooms
    ensures KeepsDelivering(Next(w, (i, Unsubscribe(c, rs)))) <==> AllHarmless(w[i], c, rs)
  {
    var op := Unsubscribe(c, rs);
    var w' := Next(w, (i, op));
    UnsubscribeAllKeepsCountIff(w[i], c, rs);
    NextKeepsSound(w, i, op, false);
    if AllHarmless(w[i], c, rs) {
      assert Sound(w', true);
      ExactKeepsDelivering(w');
    } else {
      var r :| r in w'[i].localSubs && !Counted(w'[i], r);
      ShortCountSilences(w', i, r);
    }
  }

  /**
   After any run whose unsubscribes name joined rooms, one more unsubscribe leaves delivery
   exactly-once under every well-behaved continuation if and only if each room it lists is one the
   connection is in, listed for the first time, or one nobody else on its instance is in. The handler
   checks neither membership nor repetition.
   */
  lemma DeliveryAfterUnsubscribeIff<C(!new)>(n: nat, ops: seq<(nat, Op<C>)>, i: nat, c: C, rs: seq<RoomId>)
    requires ValidRun(Start<C>(n), ops, true)
    requires i < |Run(Start<C>(n), ops)| && c in Run(Start<C>(n), ops)[i].rooms
    ensures var w := Run(Start<C>(n), ops);
            KeepsDelivering(Next(w, (i, Unsubscribe(c, rs)))) <==> AllHarmless(w[i], c, rs)
  {
    RunKeepsSound(Start<C>(n), ops, true);
    UnsubscribeKeepsDeliveringIff(Run(Start<C>(n), ops), i, c, rs);
  }

  // ---------- Who is in which room ----------

  lemma {:induction false} ChatSubscribeJoins<C>(s: Instance<C>, c: C, rs: seq<RoomId>, memberOf: set<RoomId>, d: C)
    ensures RoomsOf(ChatSubscribe(s, c, rs, memberOf), d)
            == RoomsOf(s, d) + if d == c then (set r | r in rs && r in memberOf) else {}
    decreases |rs|
  {
    if rs != [] {
      ChatSubscribeJoins(JoinUnlessJoined(s, c, rs[0], memberOf), c, rs[1..], memberOf, d);
      assert rs == [rs[0]] + rs[1..];
    }
  }

  lemma {:induction false} UnsubscribeAllSparesOthers<C>(s: Instance<C>, c: C, rs: seq<RoomId>, d: C)
    requires d != c
    ensures RoomsOf(UnsubscribeAll(s, c, rs), d) == RoomsOf(s, d)
    decreases |rs|
  {
    if rs != [] { UnsubscribeAllSparesOthers(UnsubscribeRoom(s, c, rs[0]), c, rs[1..], d); }
  }

  /** The rooms a connection is in, going by what it asked for: those it asked to join as a member, less those it asked to leave. */
  ghost function Asked<C>(rooms: set<RoomId>, op: Op<C>, d: C): set<RoomId> {
    match op
    case Open(c) => if c == d then {} else rooms
    case Subscribe(c, rs, memberOf) => if c == d then rooms + (set r | r in rs && r in memberOf) else rooms
    case Unsubscribe(c, rs) => if c == d then rooms - (set r | r in rs) else rooms
    case Close(c, _) => if c == d then {} else rooms
  }

  /** Each call puts its connection into exactly the rooms it asked for and may be in, and moves nobody else. */
  lemma ApplyMoves<C>(s: Instance<C>, op: Op<C>, d: C)
    ensures RoomsOf(Apply(s, op), d) == Asked(RoomsOf(s, d), op, d)
  {
    match op
    case Open(_) =>
    case Subscribe(c, rs, memberOf) => ChatSubscribeJoins(s, c, rs, memberOf, d);
    case Unsubscribe(c, rs) =>
      UnsubscribeAllLeaves(s, c, rs);
      if d != c { UnsubscribeAllSparesOthers(s, c, rs, d); }
    case Close(c, order) =>
      if d != c { UnsubscribeAllSparesOthers(s, c, order, d); }
  }

  ghost function AskedOver<C>(rooms: set<RoomId>, ops: seq<(nat, Op<C>)>, i: nat, d: C): set<RoomId>
    decreases |ops|
  {
    if ops == [] then rooms else AskedOver(if ops[0].0 == i then Asked(rooms, ops[0].1, d) else rooms, ops[1..], i, d)
  }

  /** Over every run a connection is in exactly the rooms its own calls add up to. */
  lemma {:induction false} RunMoves<C>(w: seq<Instance<C>>, ops: seq<(nat, Op<C>)>, i: nat, d: C)
    requires i < |w|
    ensures |Run(w, ops)| == |w| && RoomsOf(Run(w, ops)[i], d) == AskedOver(RoomsOf(w[i], d), ops, i, d)
    decreases |ops|
  {
    if ops != [] {
      if ops[0].0 == i { ApplyMoves(w[i], ops[0].1, d); }
      RunMoves(Next(w, ops[0]), ops[1..], i, d);
    }
  }
}
