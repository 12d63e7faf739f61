/** The published events rebuild the table, and retries are idempotent, over every run. */
module MessageReplay {
  import opened Wrappers
  import opened Messages

  // ---------- What a listener can know of a message ----------

  datatype Shown = Shown(
    senderId: UserId,
    body: string,
    attachmentKey: Option<string>,
    attachmentMeta: Option<string>,
    editedAt: Option<int>,
    deleted: bool,
    createdAt: int)

  type View = map<MessageId, Shown>

  function ShowDto(d: Dto): Shown {
    Shown(d.senderId, d.body, d.attachmentKey, d.attachmentMeta, d.editedAt, d.deletedAt.Some?, d.createdAt)
  }

  function Show(m: Message): Shown {
    Shown(m.senderId, m.body, m.attachmentKey, m.attachmentMeta, m.editedAt, m.deletedAt.Some?, m.createdAt)
  }

  /** A listener of room `r` takes in one event, ignoring messages that say they belong elsewhere. */
  function Absorb(v: View, r: RoomId, e: BusEvent): View {
    match e
    case Created(d, _, _) => if d.roomId == r then v[d.id := ShowDto(d)] else v
    case Edited(d) => if d.roomId == r then v[d.id := ShowDto(d)] else v
    case Deleted(id, _) =>
      if id in v then v[id := v[id].(deleted := true, body := "", attachmentKey := None, attachmentMeta := None)] else v
  }

  /** The view of a listener who heard everything published on room `r`, in order. */
  function Replay(log: seq<Publication>, r: RoomId): View {
    if log == [] then map[]
    else
      var v := Replay(log[..|log| - 1], r);
      var p := log[|log| - 1];
      if p.channel == r then Absorb(v, r, p.event) else v
  }

  function RoomView(t: Table, r: RoomId): View {
    map id | id in t && t[id].roomId == r :: Show(t[id])
  }

  lemma ReplayAppend(log: seq<Publication>, p: Publication, r: RoomId)
    ensures Replay(log + [p], r) == if p.channel == r then Absorb(Replay(log, r), r, p.event) else Replay(log, r)
  {
  }

  lemma SendKeepsReplay(s: Store, op: Op, r: RoomId)
    requires op.Send? && op.id !in s.rows && Replay(s.log, r) == RoomView(s.rows, r)
    ensures Replay(SendStep(s, op).0.log, r) == RoomView(SendStep(s, op).0.rows, r)
  {
    var s' := SendStep(s, op).0;
    if s'.log != s.log {
      assert s'.log == s.log + [s'.log[|s.log|]];
    }
  }

  lemma EditKeepsReplay(s: Store, op: Op, r: RoomId)
    requires op.Edit? && Replay(s.log, r) == RoomView(s.rows, r)
    ensures Replay(EditStep(s, op).0.log, r) == RoomView(EditStep(s, op).0.rows, r)
  {
  }

  lemma DeleteKeepsReplay(s: Store, op: Op, r: RoomId)
    requires op.Delete? && Replay(s.log, r) == RoomView(s.rows, r)
    ensures Replay(DeleteStep(s, op).0.log, r) == RoomView(DeleteStep(s, op).0.rows, r)
  {
  }

  /** Each call publishes exactly what the listeners of the room need, if anything changed for them. */
  lemma StepKeepsReplay(s: Store, op: Op, r: RoomId)
    requires op.Send? ==> op.id !in s.rows
    requires Replay(s.log, r) == RoomView(s.rows, r)
    ensures Replay(Step(s, op).0.log, r) == RoomView(Step(s, op).0.rows, r)
  {
    if op.Send? { SendKeepsReplay(s, op, r); }
    else if op.Edit? { EditKeepsReplay(s, op, r); }
    else { DeleteKeepsReplay(s, op, r); }
  }

  lemma {:induction false} RunKeepsReplay(s: Store, ops: seq<Op>, r: RoomId)
    requires ValidRun(s, ops) && Replay(s.log, r) == RoomView(s.rows, r)
    ensures Replay(Run(s, ops).log, r) == RoomView(Run(s, ops).rows, r)
    decreases |ops|
  {
    if ops != [] {
      StepKeepsReplay(s, ops[0], r);
      RunKeepsReplay(Step(s, ops[0]).0, ops[1..], r);
    }
  }

  /** For every run and every room, replaying the room's channel rebuilds exactly the room's rows. */
  lemma EventsRebuildRoom(ops: seq<Op>, r: RoomId)
    requires ValidRun(Empty, ops)
    ensures Replay(Run(Empty, ops).log, r) == RoomView(Run(Empty, ops).rows, r)
  {
    RunKeepsReplay(Empty, ops, r);
  }

  // ---------- The life of a row ----------

  /** What later calls may do to a row: nothing once it is deleted, and never move or reassign it. */
  ghost predicate Later(before: Message, after: Message) {
    && after.roomId == before.roomId && after.senderId == before.senderId
    && after.clientMessageId == before.clientMessageId && after.createdAt == before.createdAt
    && (before.deletedAt.Some? ==> after == before)
    && (after.deletedAt.Some? ==> after.body == "" && after.attachmentKey.None? && after.attachmentMeta.None?)
  }

  ghost predicate DeletedAreEmpty(t: Table) {
    forall id | id in t && t[id].deletedAt.Some? :: t[id].body == "" && t[id].attachmentKey.None? && t[id].attachmentMeta.None?
  }

  ghost predicate UniqueKeys(t: Table) {
    forall i, j | i in t && j in t && t[i].clientMessageId.Some?
                  && t[i].clientMessageId == t[j].clientMessageId && t[i].senderId == t[j].senderId :: i == j
  }

  lemma StepKeepsRows(s: Store, op: Op, id: MessageId)
    requires (op.Send? ==> op.id !in s.rows) && DeletedAreEmpty(s.rows) && UniqueKeys(s.rows)
    ensures DeletedAreEmpty(Step(s, op).0.rows) && UniqueKeys(Step(s, op).0.rows)
    ensures id in s.rows ==> id in Step(s, op).0.rows && Later(s.rows[id], Step(s, op).0.rows[id])
  {
  }

  /**
   Over every run no row disappears, moves room or changes its key; a deleted row is empty and
   never changes again; and there is at most one row per sender and client key.
   */
  lemma {:induction false} RunKeepsRows(s: Store, ops: seq<Op>, id: MessageId)
    requires ValidRun(s, ops) && DeletedAreEmpty(s.rows) && UniqueKeys(s.rows)
    ensures DeletedAreEmpty(Run(s, ops).rows) && UniqueKeys(Run(s, ops).rows)
    ensures id in s.rows ==> id in Run(s, ops).rows && Later(s.rows[id], Run(s, ops).rows[id])
    decreases |ops|
  {
    if ops != [] {
      StepKeepsRows(s, ops[0], id);
      RunKeepsRows(Step(s, ops[0]).0, ops[1..], id);
    }
  }

  /**
   A retry with the same client key, any number of calls later and even in another room, returns
   the first call's message and leaves the table alone.
   */
  lemma RetryFindsFirstMessage(before: seq<Op>, first: Op, between: seq<Op>, retry: Op)
    requires first.Send? && retry.Send? && first.clientMessageId.Some?
    requires first.clientMessageId == retry.clientMessageId && first.senderId == retry.senderId
    requires ValidRun(Empty, before)
    requires var s := Run(Empty, before);
             && first.id !in s.rows && Step(s, first).1.Ok?
             && ValidRun(Step(s, first).0, between)
             && Step(Run(Step(s, first).0, between), retry).1.Ok?
    ensures var s := Run(Empty, before);
            var mid := Run(Step(s, first).0, between);
            && Step(mid, retry).1.message.id == Step(s, first).1.message.id
            && Step(mid, retry).0.rows == mid.rows
  {
    var s := Run(Empty, before);
    var id := Step(s, first).1.message.id;
    RunKeepsRows(Empty, before, id);
    var s1 := Step(s, first).0;
    assert id in s1.rows && s1.rows[id].senderId == first.senderId && s1.rows[id].clientMessageId == first.clientMessageId;
    RunKeepsRows(s1, between, id);
  }

  /** The channel a retry publishes on is the retry's own room, which is why listeners must filter. */
  lemma RetryMayPublishElsewhere()
    ensures var a := Send(1, 5, "hi", None, Some("k"), None, true, true, 100, 0);
            var b := Send(2, 5, "hi", None, Some("k"), None, true, true, 101, 1);
            var s := Run(Empty, [a, b]);
            ValidRun(Empty, [a, b]) && |s.log| == 2 && s.log[1].channel == 2 && s.log[1].event.Created?
            && s.log[1].event.message.roomId == 1 && Replay(s.log, 2) == map[]
  {
    var a := Send(1, 5, "hi", None, Some("k"), None, true, true, 100, 0);
    var b := Send(2, 5, "hi", None, Some("k"), None, true, true, 101, 1);
    var s1 := Step(Empty, a).0;
    assert Collision(s1.rows, 5, Some("k")) == Some(100) by { assert s1.rows[100].clientMessageId == Some("k"); }
    var s2 := Step(s1, b).0;
    assert Run(s1, [b]) == s2 && Run(Empty, [a, b]) == s2;
    assert ValidRun(s2, []) && ValidRun(s1, [b]);
    ReplayAppend([], s2.log[0], 2);
    ReplayAppend(s1.log, s2.log[1], 2);
  }
}
