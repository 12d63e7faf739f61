/** Who may do what in a room: the calls that create rooms, change membership, and delete rooms. */
module RoomRoles {
  import opened Wrappers
  import opened Roles

  type UserId = nat
  type RoomId = nat

  datatype Kind = Dm(pair: set<UserId>) | Group

  /** A row of the rooms table with its member rows; deleting the room deletes them. */
  datatype Room = Room(kind: Kind, createdBy: UserId, members: map<UserId, Role>)

  /** `issued` holds every room id the generator has handed out. */
  datatype State = State(rooms: map<RoomId, Room>, issued: set<RoomId>)

  const Start := State(map[], {})

  datatype Op =
    | CreateGroup(requester: UserId, memberIds: seq<UserId>, users: set<UserId>, id: RoomId)
    | CreateDm(requester: UserId, target: UserId, targetExists: bool, id: RoomId)
    | AddMember(requester: UserId, roomId: RoomId, user: UserId, role: Role, userExists: bool)
    | RemoveMember(requester: UserId, roomId: RoomId, target: UserId)
    | DeleteRoom(requester: UserId, roomId: RoomId)

  datatype Outcome = Ok | Found(room: RoomId) | NotFound | Forbidden | Conflict

  function RoleIn(r: Room, u: UserId): Option<Role> {
    if u in r.members then Some(r.members[u]) else None
  }

  // ---------- `RoomAuthorizer` ----------

  predicate IsMember(r: Room, u: UserId) {
    u in r.members
  }

  predicate IsAdmin(r: Room, u: UserId) {
    u in r.members && r.members[u] != Member
  }

  predicate IsOwner(r: Room, u: UserId) {
    u in r.members && r.members[u] == Owner
  }

  // ---------- The calls ----------

  function PlainMembers(us: seq<UserId>): map<UserId, Role> {
    map u | u in us :: Member
  }

  /** The requester owns the group; everyone else named, once each, is a plain member. */
  function Founders(requester: UserId, memberIds: seq<UserId>): map<UserId, Role> {
    PlainMembers(memberIds)[requester := Owner]
  }

  /** Everyone named, other than the requester, is a user. */
  predicate AllKnown(memberIds: seq<UserId>, requester: UserId, users: set<UserId>) {
    forall u | u in memberIds :: u == requester || u in users
  }

  function CreateGroupStep(s: State, op: Op): (State, Outcome)
    requires op.CreateGroup?
  {
    if !AllKnown(op.memberIds, op.requester, op.users) then (s, NotFound)
    else (State(s.rooms[op.id := Room(Group, op.requester, Founders(op.requester, op.memberIds))], s.issued + {op.id}), Ok)
  }

  ghost function DmOf(s: State, pair: set<UserId>): (r: Option<RoomId>)
    ensures r.Some? ==> r.value in s.rooms && s.rooms[r.value].kind == Dm(pair)
    ensures r.None? ==> forall id | id in s.rooms :: s.rooms[id].kind != Dm(pair)
  {
    if id :| id in s.rooms && s.rooms[id].kind == Dm(pair) then Some(id) else None
  }

  ghost function CreateDmStep(s: State, op: Op): (State, Outcome)
    requires op.CreateDm?
  {
    var pair := {op.requester, op.target};
    if !op.targetExists then (s, NotFound)
    else
      match DmOf(s, pair)
      case Some(id) => (s, Found(id))
      case None =>
        (State(s.rooms[op.id := Room(Dm(pair), op.requester, map[op.requester := Member, op.target := Member])],
               s.issued + {op.id}), Ok)
  }

  function SetMembers(s: State, id: RoomId, members: map<UserId, Role>): State
    requires id in s.rooms
  {
    s.(rooms := s.rooms[id := s.rooms[id].(members := members)])
  }

  function AddMemberStep(s: State, op: Op): (State, Outcome)
    requires op.AddMember?
  {
    if op.roomId !in s.rooms then (s, NotFound)
    else
      var r := s.rooms[op.roomId];
      if !IsAdmin(r, op.requester) then (s, Forbidden)
      else if !op.userExists then (s, NotFound)
      else if IsMember(r, op.user) then (s, Conflict)
      else (SetMembers(s, op.roomId, r.members[op.user := op.role]), Ok)
  }

  function RemoveMemberStep(s: State, op: Op): (State, Outcome)
    requires op.RemoveMember?
  {
    if op.roomId !in s.rooms || !IsMember(s.rooms[op.roomId], op.target) then (s, NotFound)
    else
      var r := s.rooms[op.roomId];
      var without := SetMembers(s, op.roomId, r.members - {op.target});
      if op.requester == op.target then (without, Ok)
      else if !IsAdmin(r, op.requester) then (s, Forbidden)
      else if IsOwner(r, op.target) then (s, Forbidden)
      else if r.members[op.requester] == Admin && r.members[op.target] == Admin then (s, Forbidden)
      else (without, Ok)
  }

  function DeleteRoomStep(s: State, op: Op): (State, Outcome)
    requires op.DeleteRoom?
  {
    if op.roomId !in s.rooms then (s, NotFound)
    else
      var r := s.rooms[op.roomId];
      if (if r.kind.Group? then IsOwner(r, op.requester) else IsMember(r, op.requester))
      then (s.(rooms := s.rooms - {op.roomId}), Ok) else (s, Forbidden)
  }

  ghost function Step(s: State, op: Op): (State, Outcome) {
    match op
    case CreateGroup(_, _, _, _) => CreateGroupStep(s, op)
    case CreateDm(_, _, _, _) => CreateDmStep(s, op)
    case AddMember(_, _, _, _, _) => AddMemberStep(s, op)
    case RemoveMember(_, _, _) => RemoveMemberStep(s, op)
    case DeleteRoom(_, _) => DeleteRoomStep(s, op)
  }

  // ---------- Runs ----------

  /** Room ids are generated afresh, and the request schema lets nobody be added as owner. */
  ghost predicate Allowed(s: State, op: Op) {
    match op
    case CreateGroup(_, _, _, id) => id !in s.issued
    case CreateDm(_, _, _, id) => id !in s.issued
    case AddMember(_, _, _, role, _) => role != Owner
    case _ => true
  }

  ghost predicate ValidRun(s: State, ops: seq<Op>)
    decreases |ops|
  {
    ops == [] || (Allowed(s, ops[0]) && ValidRun(Step(s, ops[0]).0, ops[1..]))
  }

  ghost function Run(s: State, ops: seq<Op>): State
    decreases |ops|
  {
    if ops == [] then s else Run(Step(s, ops[0]).0, ops[1..])
  }

  // ---------- What every run keeps ----------

  ghost predicate RoomOk(r: Room) {
    match r.kind
    case Group => forall u | u in r.members && r.members[u] == Owner :: u == r.createdBy
    case Dm(pair) => forall u | u in r.members :: u in pair && r.members[u] == Member
  }

  ghost predicate Inv(s: State) {
    && s.rooms.Keys <= s.issued
    && (forall id | id in s.rooms :: RoomOk(s.rooms[id]))
    && (forall a, b | a in s.rooms && b in s.rooms && s.rooms[a].kind.Dm? && s.rooms[a].kind == s.rooms[b].kind :: a == b)
  }

  lemma StepKeepsInv(s: State, op: Op)
    requires Inv(s) && Allowed(s, op)
    ensures Inv(Step(s, op).0)
  {
  }

  lemma {:induction false} RunKeepsInv(s: State, ops: seq<Op>)
    requires Inv(s) && ValidRun(s, ops)
    ensures Inv(Run(s, ops))
    decreases |ops|
  {
    if ops != [] {
      StepKeepsInv(s, ops[0]);
      RunKeepsInv(Step(s, ops[0]).0, ops[1..]);
    }
  }

  /** In every reachable state a group has at most one owner, and only its creator can be it. */
  lemma OnlyCreatorOwns(ops: seq<Op>, id: RoomId, u: UserId, v: UserId)
    requires ValidRun(Start, ops)
    requires id in Run(Start, ops).rooms && Run(Start, ops).rooms[id].kind.Group?
    requires IsOwner(Run(Start, ops).rooms[id], u) && IsOwner(Run(Start, ops).rooms[id], v)
    ensures u == v == Run(Start, ops).rooms[id].createdBy
  {
    RunKeepsInv(Start, ops);
  }

  /** In every reachable state a direct room holds only its pair, as plain members, and the pair has no other. */
  lemma DirectRoomsStayInPair(ops: seq<Op>, id: RoomId, u: UserId, other: RoomId)
    requires ValidRun(Start, ops)
    requires id in Run(Start, ops).rooms && Run(Start, ops).rooms[id].kind.Dm?
    ensures IsMember(Run(Start, ops).rooms[id], u) ==>
              u in Run(Start, ops).rooms[id].kind.pair && RoleIn(Run(Start, ops).rooms[id], u) == Some(Member)
    ensures other in Run(Start, ops).rooms && Run(Start, ops).rooms[other].kind == Run(Start, ops).rooms[id].kind ==> other == id
  {
    RunKeepsInv(Start, ops);
  }

  // ---------- Who can remove whom ----------

  function Rank(r: Role): nat {
    match r case Owner => 2 case Admin => 1 case Member => 0
  }

  predicate Outranks(r: Room, a: UserId, b: UserId) {
    a in r.members && b in r.members && Rank(r.members[a]) > Rank(r.members[b])
  }

  /** The refusals of a removal amount to one rule: leave by yourself, or be removed by someone of higher rank. */
  lemma RemovalFollowsRank(s: State, op: Op)
    requires op.RemoveMember?
    ensures Step(s, op).1 == Ok <==>
              && op.roomId in s.rooms && IsMember(s.rooms[op.roomId], op.target)
              && (op.requester == op.target || Outranks(s.rooms[op.roomId], op.requester, op.target))
  {
  }

  /** While a room exists its members keep their roles, and no call but such a removal takes one away. */
  lemma MembershipAfterStep(s: State, op: Op, id: RoomId, u: UserId)
    requires Inv(s) && Allowed(s, op) && id in s.rooms && IsMember(s.rooms[id], u) && id in Step(s, op).0.rooms
    ensures var r, r' := s.rooms[id], Step(s, op).0.rooms[id];
            && (IsMember(r', u) ==> RoleIn(r', u) == RoleIn(r, u))
            && (!IsMember(r', u) <==> op.RemoveMember? && op.roomId == id && op.target == u
                                      && (op.requester == u || Outranks(r, op.requester, u)))
  {
  }

  // ---------- What can never come back ----------

  ghost predicate Ownerless(r: Room) {
    forall u | u in r.members :: r.members[u] != Owner
  }

  /** One call on a room: its kind and creator are fixed, an ownerless group keeps no owner and is not deleted. */
  lemma RoomAfterStep(s: State, op: Op, id: RoomId)
    requires Inv(s) && Allowed(s, op) && id in s.rooms
    ensures var s' := Step(s, op).0;
            && (id in s'.rooms ==> s'.rooms[id].kind == s.rooms[id].kind && s'.rooms[id].createdBy == s.rooms[id].createdBy)
            && (s.rooms[id].kind.Group? && Ownerless(s.rooms[id]) ==> id in s'.rooms && Ownerless(s'.rooms[id]))
            && (s.rooms[id].kind.Dm? && id in s'.rooms ==> s'.rooms[id].members.Keys <= s.rooms[id].members.Keys)
            && (s.rooms[id].members == map[] ==> id in s'.rooms && s'.rooms[id].members == map[])
  {
  }

  /** A group that has lost its owner never has one again and can never be deleted. */
  lemma {:induction false} OwnerlessForever(s: State, ops: seq<Op>, id: RoomId)
    requires Inv(s) && ValidRun(s, ops)
    requires id in s.rooms && s.rooms[id].kind.Group? && Ownerless(s.rooms[id])
    ensures id in Run(s, ops).rooms && Ownerless(Run(s, ops).rooms[id])
    decreases |ops|
  {
    if ops != [] {
      StepKeepsInv(s, ops[0]);
      RoomAfterStep(s, ops[0], id);
      OwnerlessForever(Step(s, ops[0]).0, ops[1..], id);
    }
  }

  ghost predicate Deletes(s: State, ops: seq<Op>, id: RoomId) {
    ValidRun(s, ops) && id !in Run(s, ops).rooms
  }

  ghost predicate CanBeDeleted(s: State, id: RoomId) {
    exists ops :: Deletes(s, ops, id)
  }

  /** From a state where it exists, a group can still be deleted if and only if it has an owner. */
  lemma DeletableIffOwned(s: State, id: RoomId)
    requires Inv(s) && id in s.rooms && s.rooms[id].kind.Group?
    ensures CanBeDeleted(s, id) <==> !Ownerless(s.rooms[id])
  {
    if !Ownerless(s.rooms[id]) {
      var u :| u in s.rooms[id].members && s.rooms[id].members[u] == Owner;
      var ops := [DeleteRoom(u, id)];
      assert Run(s, ops) == Run(Step(s, ops[0]).0, ops[1..]) == Step(s, ops[0]).0;
      assert Deletes(s, ops, id);
    } else if CanBeDeleted(s, id) {
      var ops :| Deletes(s, ops, id);
      OwnerlessForever(s, ops, id);
    }
  }

  /** One call takes the owner of a group away exactly when it is the creator leaving. */
  lemma OwnerLostIff(s: State, op: Op, id: RoomId)
    requires Inv(s) && Allowed(s, op) && id in s.rooms && s.rooms[id].kind.Group? && id in Step(s, op).0.rooms
    ensures var creator := s.rooms[id].createdBy;
            Ownerless(Step(s, op).0.rooms[id]) <==> Ownerless(s.rooms[id]) || op == RemoveMember(creator, id, creator)
  {
    assert RoomOk(s.rooms[id]);
    if !Ownerless(s.rooms[id]) {
      var u :| u in s.rooms[id].members && s.rooms[id].members[u] == Owner;
      MembershipAfterStep(s, op, id, u);
    }
    RoomAfterStep(s, op, id);
  }

  /** Over a run a group that still exists has become ownerless if and only if its creator asked to leave it. */
  lemma {:induction false} OwnerlessIffCreatorLeft(s: State, ops: seq<Op>, id: RoomId)
    requires Inv(s) && ValidRun(s, ops) && id in s.rooms && s.rooms[id].kind.Group? && id in Run(s, ops).rooms
    ensures var creator := s.rooms[id].createdBy;
            Ownerless(Run(s, ops).rooms[id]) <==> Ownerless(s.rooms[id]) || RemoveMember(creator, id, creator) in ops
    decreases |ops|
  {
    if ops != [] {
      var s' := Step(s, ops[0]).0;
      StepKeepsInv(s, ops[0]);
      if id !in s'.rooms {
        DeletedForever(s', ops[1..], id);
        assert false;
      }
      RoomAfterStep(s, ops[0], id);
      OwnerLostIff(s, ops[0], id);
      OwnerlessIffCreatorLeft(s', ops[1..], id);
      assert ops == [ops[0]] + ops[1..];
    }
  }

  /** A room everyone has left stays empty and stays in the table. */
  lemma {:induction false} EmptyForever(s: State, ops: seq<Op>, id: RoomId)
    requires Inv(s) && ValidRun(s, ops) && id in s.rooms && s.rooms[id].members == map[]
    ensures id in Run(s, ops).rooms && Run(s, ops).rooms[id].members == map[]
    decreases |ops|
  {
    if ops != [] {
      StepKeepsInv(s, ops[0]);
      RoomAfterStep(s, ops[0], id);
      EmptyForever(Step(s, ops[0]).0, ops[1..], id);
    }
  }

  /** Issued ids of rooms that are gone never name a room again. */
  lemma {:induction false} DeletedForever(s: State, ops: seq<Op>, id: RoomId)
    requires Inv(s) && ValidRun(s, ops) && id in s.issued && id !in s.rooms
    ensures id !in Run(s, ops).rooms
    decreases |ops|
  {
    if ops != [] {
      StepKeepsInv(s, ops[0]);
      DeletedForever(Step(s, ops[0]).0, ops[1..], id);
    }
  }

  /** Whoever leaves a direct room cannot get back into it: its membership only shrinks while it exists. */
  lemma {:induction false} DirectRoomOnlyShrinks(s: State, ops: seq<Op>, id: RoomId)
    requires Inv(s) && ValidRun(s, ops) && id in s.rooms && s.rooms[id].kind.Dm?
    ensures id in Run(s, ops).rooms ==> Run(s, ops).rooms[id].members.Keys <= s.rooms[id].members.Keys
    decreases |ops|
  {
    if ops != [] {
      var s' := Step(s, ops[0]).0;
      StepKeepsInv(s, ops[0]);
      RoomAfterStep(s, ops[0], id);
      if id in s'.rooms {
        DirectRoomOnlyShrinks(s', ops[1..], id);
      } else {
        DeletedForever(s', ops[1..], id);
      }
    }
  }
}
