/** The room repository and the room use cases as objects. */
module RoomObjects {
  import opened Wrappers
  import opened Roles
  import opened RoomRoles

  class Rooms {
    var rooms: map<RoomId, Room>
    ghost var issued: set<RoomId>

    constructor ()
      ensures Snapshot() == Start
    {
      rooms, issued := map[], {};
    }

    ghost function Snapshot(): State
      reads this
    {
      State(rooms, issued)
    }

    method GetMember(roomId: RoomId, u: UserId) returns (r: Option<Role>)
      ensures r == if roomId in rooms then RoleIn(rooms[roomId], u) else None
    {
      r := if roomId in rooms && u in rooms[roomId].members then Some(rooms[roomId].members[u]) else None;
    }

    method InsertMember(roomId: RoomId, u: UserId, role: Role)
      requires roomId in rooms && u !in rooms[roomId].members
      modifies this`rooms
      ensures Snapshot() == SetMembers(old(Snapshot()), roomId, old(rooms)[roomId].members[u := role])
    {
      rooms := rooms[roomId := rooms[roomId].(members := rooms[roomId].members[u := role])];
    }

    method DeleteMember(roomId: RoomId, u: UserId)
      requires roomId in rooms
      modifies this`rooms
      ensures Snapshot() == SetMembers(old(Snapshot()), roomId, old(rooms)[roomId].members - {u})
    {
      rooms := rooms[roomId := rooms[roomId].(members := rooms[roomId].members - {u})];
    }

    method CreateGroup(requester: UserId, memberIds: seq<UserId>, users: set<UserId>, id: RoomId) returns (o: Outcome)
      requires id !in rooms
      modifies this
      ensures (Snapshot(), o) == Step(old(Snapshot()), RoomRoles.CreateGroup(requester, memberIds, users, id))
    {
      var others := Others(memberIds, requester);
      var known := AllExist(others, users);
      FoundersAre(requester, memberIds, others);
      if !known { return NotFound; }
      rooms := rooms[id := Room(Group, requester, map[requester := Owner])];
      issued := issued + {id};
      InsertMembers(id, others);
      assert rooms == old(rooms)[id := Room(Group, requester, Founders(requester, memberIds))];
      o := Ok;
    }

    static lemma FoundersAre(requester: UserId, memberIds: seq<UserId>, others: seq<UserId>)
      requires forall u :: u in others <==> u in memberIds && u != requester
      ensures map[requester := Owner] + PlainMembers(others) == Founders(requester, memberIds)
      ensures requester !in others
    {
    }

    /** The loop that looks every other founder up before anything is written. */
    method AllExist(others: seq<UserId>, users: set<UserId>) returns (ok: bool)
      ensures ok <==> forall u | u in others :: u in users
    {
      var i := 0;
      while i < |others|
        invariant 0 <= i <= |others|
        invariant forall k | 0 <= k < i :: others[k] in users
      {
        if others[i] !in users { return false; }
        i := i + 1;
      }
      ok := true;
    }

    /** The loop that inserts the other founders one by one. */
    method InsertMembers(id: RoomId, others: seq<UserId>)
      requires id in rooms
      requires forall u | u in others :: u !in rooms[id].members
      requires forall i, j | 0 <= i < j < |others| :: others[i] != others[j]
      modifies this`rooms
      ensures Snapshot() == SetMembers(old(Snapshot()), id, old(rooms)[id].members + PlainMembers(others))
    {
      var before := rooms[id].members;
      var i := 0;
      assert before + PlainMembers(others[..0]) == before;
      while i < |others|
        invariant 0 <= i <= |others|
        invariant id in rooms && rooms[id].members == before + PlainMembers(others[..i])
        invariant Snapshot() == SetMembers(old(Snapshot()), id, rooms[id].members)
      {
        NextMember(before, others, i);
        InsertMember(id, others[i], Member);
        i := i + 1;
      }
      assert others[..i] == others;
    }

    static lemma NextMember(before: map<UserId, Role>, others: seq<UserId>, i: nat)
      requires i < |others| && (forall u | u in others :: u !in before)
      requires forall a, b | 0 <= a < b < |others| :: others[a] != others[b]
      ensures others[i] !in before + PlainMembers(others[..i])
      ensures before + PlainMembers(others[..i + 1]) == (before + PlainMembers(others[..i]))[others[i] := Member]
    {
    }

    /** The people named, without the requester, each once. */
    method Others(memberIds: seq<UserId>, requester: UserId) returns (others: seq<UserId>)
      ensures forall u :: u in others <==> u in memberIds && u != requester
      ensures forall i, j | 0 <= i < j < |others| :: others[i] != others[j]
    {
      others := [];
      var i := 0;
      while i < |memberIds|
        invariant 0 <= i <= |memberIds|
        invariant forall u :: u in others <==> u in memberIds[..i] && u != requester
        invariant forall a, b | 0 <= a < b < |others| :: others[a] != others[b]
      {
        assert memberIds[..i + 1] == memberIds[..i] + [memberIds[i]];
        if memberIds[i] !in others && memberIds[i] != requester { others := others + [memberIds[i]]; }
        i := i + 1;
      }
      assert memberIds[..i] == memberIds;
    }

    /** Finding the pair's room by its key, or creating it with both members. */
    method CreateDm(requester: UserId, target: UserId, targetExists: bool, id: RoomId) returns (o: Outcome)
      requires Inv(Snapshot()) && id !in issued
      modifies this
      ensures (Snapshot(), o) == Step(old(Snapshot()), RoomRoles.CreateDm(requester, target, targetExists, id))
    {
      if !targetExists { return NotFound; }
      var pair := {requester, target};
      var existing := set r | r in rooms && rooms[r].kind == Dm(pair);
      if existing != {} {
        var r :| r in existing;
        return Found(r);
      }
      assert forall r | r in rooms && rooms[r].kind == Dm(pair) :: r in existing;
      rooms := rooms[id := Room(Dm(pair), requester, map[requester := Member, target := Member])];
      issued := issued + {id};
      o := Ok;
    }

    method AddMember(requester: UserId, roomId: RoomId, user: UserId, role: Role, userExists: bool) returns (o: Outcome)
      modifies this`rooms
      ensures (Snapshot(), o) == Step(old(Snapshot()), RoomRoles.AddMember(requester, roomId, user, role, userExists))
    {
      if roomId !in rooms { return NotFound; }
      var asker := GetMember(roomId, requester);
      if asker.None? || asker.value == Member { return Forbidden; }
      if !userExists { return NotFound; }
      var existing := GetMember(roomId, user);
      if existing.Some? { return Conflict; }
      InsertMember(roomId, user, role);
      o := Ok;
    }

    method RemoveMember(requester: UserId, roomId: RoomId, target: UserId) returns (o: Outcome)
      modifies this`rooms
      ensures (Snapshot(), o) == Step(old(Snapshot()), RoomRoles.RemoveMember(requester, roomId, target))
    {
      if roomId !in rooms { return NotFound; }
      var victim := GetMember(roomId, target);
      if victim.None? { return NotFound; }
      if requester == target {
        DeleteMember(roomId, target);
        return Ok;
      }
      var asker := GetMember(roomId, requester);
      if asker.None? { return Forbidden; }
      if asker.value == Member { return Forbidden; }
      if victim.value == Owner { return Forbidden; }
      if asker.value == Admin && victim.value == Admin { return Forbidden; }
      DeleteMember(roomId, target);
      o := Ok;
    }

    method DeleteRoom(requester: UserId, roomId: RoomId) returns (o: Outcome)
      modifies this`rooms
      ensures (Snapshot(), o) == Step(old(Snapshot()), RoomRoles.DeleteRoom(requester, roomId))
    {
      if roomId !in rooms { return NotFound; }
      var asker := GetMember(roomId, requester);
      if asker.None? { return Forbidden; }
      if rooms[roomId].kind.Group? {
        if asker.value != Owner { return Forbidden; }
      }
      rooms := rooms - {roomId};
      o := Ok;
    }
  }
}
