/** Direct-room creation as an object, for calls that do not overlap. */
module DirectRoomObjects {
  import opened Wrappers
  import opened DirectRooms

  /** The effect of one call nobody interrupts: the new rooms and members, and the room returned. */
  function Alone(s: State, requester: UserId, target: UserId, roomId: RoomId, targetExists: bool): (State, Pc) {
    var key := DmKey(requester, target);
    if !targetExists then (s, NoSuchUser)
    else if key in s.byKey then (s, Returned(s.byKey[key]))
    else (s.(byKey := s.byKey[key := roomId], members := s.members[roomId := MembersOf(s, roomId) + {requester, target}]), Returned(roomId))
  }

  /** Four steps take a call from its beginning to its end, if nobody else moves. */
  lemma FourSteps(s: State, p: Proc, targetExists: bool)
    requires p.pc == AtCheckUser && p.key == DmKey(p.requester, p.target)
    ensures var i := |s.procs|;
            var s0 := s.(procs := s.procs + [p]);
            var (t, end) := Alone(s, p.requester, p.target, p.roomId, targetExists);
            StepProc(StepProc(StepProc(StepProc(s0, i, targetExists), i, targetExists), i, targetExists), i, targetExists)
            == t.(procs := s.procs + [p.(pc := end)])
  {
  }

  /** Running alone is one of the interleavings of the statements. */
  lemma AloneIsARun(s: State, requester: UserId, target: UserId, roomId: RoomId, targetExists: bool)
    ensures var a := Advance(|s.procs|, targetExists);
            var (t, end) := Alone(s, requester, target, roomId, targetExists);
            Run(s, [Begin(requester, target, roomId), a, a, a, a])
            == t.(procs := s.procs + [Proc(requester, target, DmKey(requester, target), roomId, end)])
  {
    var a := Advance(|s.procs|, targetExists);
    var p := Proc(requester, target, DmKey(requester, target), roomId, AtCheckUser);
    FourSteps(s, p, targetExists);
    RunFive(s, Begin(requester, target, roomId), a);
  }

  lemma RunFive(s: State, b: Action, a: Action)
    ensures Run(s, [b, a, a, a, a]) == Step(Step(Step(Step(Step(s, b), a), a), a), a)
  {
    var s0 := Step(s, b);
    assert Run(Step(s0, a), [a, a, a]) == Run(Step(Step(s0, a), a), [a, a]);
    assert Run(Step(Step(Step(s0, a), a), a), [a]) == Run(Step(Step(Step(Step(s0, a), a), a), a), [a][1..]);
  }

  /** The statements `PgRoomRepository` runs for direct rooms, and `CreateDirectRoom` on top of them. */
  class DirectRoomStore {
    var byKey: map<string, RoomId>
    var members: map<RoomId, set<UserId>>

    constructor ()
      ensures Snapshot() == Idle
    {
      byKey, members := map[], map[];
    }

    function Snapshot(): State
      reads this
    {
      State(byKey, members, [])
    }

    method FindDmBetween(a: UserId, b: UserId) returns (r: Option<RoomId>)
      ensures r == if DmKey(a, b) in byKey then Some(byKey[DmKey(a, b)]) else None
    {
      var dmKey := DmKey(a, b);
      r := if dmKey in byKey then Some(byKey[dmKey]) else None;
    }

    method CreateDm(roomId: RoomId, dmKey: string, a: UserId, b: UserId) returns (r: RoomId)
      modifies this
      ensures dmKey in old(byKey) ==> r == old(byKey)[dmKey] && byKey == old(byKey) && members == old(members)
      ensures dmKey !in old(byKey) ==> r == roomId && byKey == old(byKey)[dmKey := roomId]
      ensures dmKey !in old(byKey) ==> members == old(members)[roomId := old(MembersOf(Snapshot(), roomId)) + {a, b}]
    {
      if dmKey in byKey { return byKey[dmKey]; }
      byKey := byKey[dmKey := roomId];
      var present := if roomId in members then members[roomId] else {};
      members := members[roomId := present + {a} + {b}];
      assert present + {a} + {b} == present + {a, b};
      r := roomId;
    }

    method CreateDirectRoom(requester: UserId, target: UserId, roomId: RoomId, targetExists: bool) returns (end: Pc)
      modifies this
      ensures (Snapshot(), end) == Alone(old(Snapshot()), requester, target, roomId, targetExists)
    {
      if !targetExists { return NoSuchUser; }
      var existing := FindDmBetween(requester, target);
      if existing.Some? { return Returned(existing.value); }
      var dmKey := DmKey(requester, target);
      var created := CreateDm(roomId, dmKey, requester, target);
      end := Returned(created);
    }
  }
}
