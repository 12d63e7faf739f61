/** Who may make, join and delete rooms, and that nothing else happens to them. */
module RoomLaws {
  import opened Wrappers
  import opened Roles
  import opened RoomRoles

  // ---------- Deleting ----------

  /** A room disappears in a call exactly when its owner, or for a direct room a member, deletes it. */
  lemma DeletedIff(s: State, op: Op, id: RoomId)
    requires id in s.rooms && Allowed(s, op)
    ensures id !in Step(s, op).0.rooms <==>
              && op.DeleteRoom? && op.roomId == id
              && op.requester in s.rooms[id].members
              && (s.rooms[id].kind.Group? ==> s.rooms[id].members[op.requester] == Owner)
  {
  }

  /** And the caller is told so. */
  lemma DeleteAnswers(s: State, op: Op)
    requires op.DeleteRoom?
    ensures var o := Step(s, op).1;
            && (o == NotFound <==> op.roomId !in s.rooms)
            && (o == Ok <==> op.roomId in s.rooms && op.roomId !in Step(s, op).0.rooms)
            && (o == Ok || o == NotFound || o == Forbidden)
  {
  }

  /** In `ops` the creator asks for the group's deletion before ever asking to leave it. */
  predicate AsksFirst(ops: seq<Op>, creator: UserId, id: RoomId) {
    && ops != []
    && (ops[0] == DeleteRoom(creator, id) || (ops[0] != RemoveMember(creator, id, creator) && AsksFirst(ops[1..], creator, id)))
  }

  /** Over a run, an owned group disappears if and only if its creator asks so before ever leaving it. */
  lemma {:induction false} GroupGoneIff(s: State, ops: seq<Op>, id: RoomId)
    requires Inv(s) && ValidRun(s, ops) && id in s.rooms && s.rooms[id].kind.Group? && !Ownerless(s.rooms[id])
    ensures id !in Run(s, ops).rooms <==> AsksFirst(ops, s.rooms[id].createdBy, id)
    decreases |ops|
  {
    if ops != [] {
      var s', creator := Step(s, ops[0]).0, s.rooms[id].createdBy;
      assert RoomOk(s.rooms[id]);
      DeletedIff(s, ops[0], id);
      StepKeepsInv(s, ops[0]);
      if id !in s'.rooms {
        DeletedForever(s', ops[1..], id);
      } else {
        RoomAfterStep(s, ops[0], id);
        OwnerLostIff(s, ops[0], id);
        if Ownerless(s'.rooms[id]) {
          OwnerlessForever(s', ops[1..], id);
        } else {
          GroupGoneIff(s', ops[1..], id);
        }
      }
    }
  }

  // ---------- Joining ----------

  /** Someone is let in exactly by an admin or the owner, as an existing user, with the role asked for. */
  lemma AddAnswers(s: State, op: Op)
    requires op.AddMember?
    ensures var o := Step(s, op).1;
            && (o == Ok <==>
                  && op.roomId in s.rooms && op.requester in s.rooms[op.roomId].members
                  && Rank(s.rooms[op.roomId].members[op.requester]) >= 1
                  && op.userExists && op.user !in s.rooms[op.roomId].members)
            && (o == Conflict ==> op.roomId in s.rooms && op.user in s.rooms[op.roomId].members)
            && (o != Ok ==> Step(s, op).0 == s)
  {
  }

  /** Membership of a room that stays is gained by such an addition and by nothing else. */
  lemma JoinedIff(s: State, op: Op, id: RoomId, u: UserId)
    requires Inv(s) && Allowed(s, op) && id in s.rooms && id in Step(s, op).0.rooms && u !in s.rooms[id].members
    ensures u in Step(s, op).0.rooms[id].members <==> op.AddMember? && op.roomId == id && op.user == u && Step(s, op).1 == Ok
    ensures u in Step(s, op).0.rooms[id].members ==> Step(s, op).0.rooms[id].members[u] == op.role
  {
  }

  /** A call leaves every other room alone. */
  lemma OtherRoomsStay(s: State, op: Op, id: RoomId)
    requires Inv(s) && Allowed(s, op) && id in s.rooms
    requires (op.AddMember? || op.RemoveMember? || op.DeleteRoom?) ==> op.roomId != id
    ensures id in Step(s, op).0.rooms && Step(s, op).0.rooms[id] == s.rooms[id]
  {
  }

  // ---------- Making ----------

  /** A new group has its founder as owner and everyone else named as a member, provided they are all users. */
  lemma GroupMade(s: State, op: Op, u: UserId)
    requires op.CreateGroup? && Allowed(s, op) && s.rooms.Keys <= s.issued
    ensures var s', o := Step(s, op).0, Step(s, op).1;
            && (o == Ok <==> forall v | v in op.memberIds && v != op.requester :: v in op.users)
            && (o == Ok || (o == NotFound && s' == s))
            && (o == Ok ==>
                  && s'.rooms.Keys == s.rooms.Keys + {op.id} && op.id !in s.rooms && op.id in s'.issued
                  && s'.rooms[op.id].kind == Group && s'.rooms[op.id].createdBy == op.requester
                  && RoleIn(s'.rooms[op.id], u) == if u == op.requester then Some(Owner) else if u in op.memberIds then Some(Member) else None)
  {
  }

  /** A direct room is found if the pair has one; otherwise, if the other user exists, it is made for exactly the two. */
  lemma DirectRoomMade(s: State, op: Op)
    requires Inv(s) && op.CreateDm? && Allowed(s, op)
    ensures var s', o, pair := Step(s, op).0, Step(s, op).1, {op.requester, op.target};
            && (o == NotFound <==> !op.targetExists)
            && (o.Found? <==> op.targetExists && exists id :: id in s.rooms && s.rooms[id].kind == Dm(pair))
            && (o.Found? ==> o.room in s.rooms && s.rooms[o.room].kind == Dm(pair))
            && (o == Ok || s' == s)
            && (o == Ok || o == NotFound || o.Found?)
            && (o == Ok ==>
                  && s'.rooms.Keys == s.rooms.Keys + {op.id} && op.id !in s.rooms && op.id in s'.issued
                  && s'.rooms[op.id].kind == Dm(pair) && s'.rooms[op.id].members.Keys == pair
                  && forall u | u in pair :: s'.rooms[op.id].members[u] == Member)
  {
  }
}
