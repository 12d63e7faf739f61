/** The message table, the three calls that change it, and the events they publish. */
module Messages {
  import opened Wrappers
  import opened Roles

  // A UUID is a 128-bit number; SQL orders UUIDs as those numbers.
  type MessageId = nat
  type RoomId = nat
  type UserId = nat

  datatype Message = Message(
    roomId: RoomId,
    senderId: UserId,
    body: string,
    clientMessageId: Option<string>,
    attachmentKey: Option<string>,
    attachmentMeta: Option<string>,
    editedAt: Option<int>,
    deletedAt: Option<int>,
    createdAt: int)

  type Table = map<MessageId, Message>

  datatype Dto = Dto(
    id: MessageId,
    roomId: RoomId,
    senderId: UserId,
    body: string,
    attachmentKey: Option<string>,
    attachmentMeta: Option<string>,
    editedAt: Option<int>,
    deletedAt: Option<int>,
    createdAt: int)

  function ToDto(id: MessageId, m: Message): Dto {
    Dto(id, m.roomId, m.senderId, m.body, m.attachmentKey, m.attachmentMeta, m.editedAt, m.deletedAt, m.createdAt)
  }

  datatype BusEvent =
    | Created(message: Dto, refId: Option<string>, originUserId: UserId)
    | Edited(message: Dto)
    | Deleted(messageId: MessageId, roomId: RoomId)

  /** An event published on the channel of room `channel`. */
  datatype Publication = Publication(channel: RoomId, event: BusEvent)

  datatype Store = Store(rows: Table, log: seq<Publication>)

  // ---------- The table ----------

  /** The row an insert with this sender and client key collides with, under the partial unique index. */
  ghost function Collision(t: Table, sender: UserId, key: Option<string>): (r: Option<MessageId>)
    ensures r.Some? ==> r.value in t && key.Some? && t[r.value].senderId == sender && t[r.value].clientMessageId == key
    ensures r.None? && key.Some? ==> forall id | id in t :: !(t[id].senderId == sender && t[id].clientMessageId == key)
  {
    if id :| id in t && key.Some? && t[id].senderId == sender && t[id].clientMessageId == key then Some(id) else None
  }

  /** A colliding insert leaves the row it hits as it was, and returns it. */
  ghost function Insert(t: Table, id: MessageId, m: Message): (r: (Table, MessageId))
    ensures r.1 in r.0
  {
    match Collision(t, m.senderId, m.clientMessageId)
    case Some(hit) => (t, hit)
    case None => (t[id := m], id)
  }

  function Update(t: Table, id: MessageId, body: string, now: int): Table {
    if id in t then t[id := t[id].(body := body, editedAt := Some(now))] else t
  }

  function SoftDelete(t: Table, id: MessageId, now: int): Table {
    if id in t
    then t[id := t[id].(deletedAt := Some(now), body := "", attachmentKey := None, attachmentMeta := None)]
    else t
  }

  // ---------- The calls ----------

  /**
   `isMember`, `uploaded` and `role` answer the queries a call makes of the room table and the
   object storage; `id` and `now` come from the id generator and the clock.
   */
  datatype Op =
    | Send(roomId: RoomId, senderId: UserId, body: string, attachmentKey: Option<string>, clientMessageId: Option<string>,
           refId: Option<string>, isMember: bool, uploaded: bool, id: MessageId, now: int)
    | Edit(requesterId: UserId, messageId: MessageId, body: string, now: int)
    | Delete(requesterId: UserId, messageId: MessageId, role: Option<Role>, now: int)

  datatype Outcome = Ok(message: Dto) | Removed | NotFound | Forbidden | Conflict

  function Draft(op: Op): Message
    requires op.Send?
  {
    Message(op.roomId, op.senderId, op.body, op.clientMessageId, op.attachmentKey, None, None, None, op.now)
  }

  ghost function SendStep(s: Store, op: Op): (Store, Outcome)
    requires op.Send?
  {
    if !op.isMember then (s, Forbidden)
    else if op.attachmentKey.Some? && op.attachmentKey.value != "" && !op.uploaded then (s, Conflict)
    else
      var (rows, id) := Insert(s.rows, op.id, Draft(op));
      var dto := ToDto(id, rows[id]);
      (Store(rows, s.log + [Publication(op.roomId, Created(dto, op.refId, op.senderId))]), Ok(dto))
  }

  function EditStep(s: Store, op: Op): (Store, Outcome)
    requires op.Edit?
  {
    var id := op.messageId;
    if id !in s.rows || s.rows[id].deletedAt.Some? then (s, NotFound)
    else if s.rows[id].senderId != op.requesterId then (s, Forbidden)
    else if s.rows[id].body == op.body then (s, Ok(ToDto(id, s.rows[id])))
    else
      var rows := Update(s.rows, id, op.body, op.now);
      var dto := ToDto(id, rows[id]);
      (Store(rows, s.log + [Publication(s.rows[id].roomId, Edited(dto))]), Ok(dto))
  }

  function DeleteStep(s: Store, op: Op): (Store, Outcome)
    requires op.Delete?
  {
    var id := op.messageId;
    if id !in s.rows || s.rows[id].deletedAt.Some? then (s, NotFound)
    else if s.rows[id].senderId != op.requesterId && (op.role.None? || op.role == Some(Member)) then (s, Forbidden)
    else (Store(SoftDelete(s.rows, id, op.now), s.log + [Publication(s.rows[id].roomId, Deleted(id, s.rows[id].roomId))]), Removed)
  }

  ghost function Step(s: Store, op: Op): (Store, Outcome) {
    match op
    case Send(_, _, _, _, _, _, _, _, _, _) => SendStep(s, op)
    case Edit(_, _, _, _) => EditStep(s, op)
    case Delete(_, _, _, _) => DeleteStep(s, op)
  }

  // ---------- Runs ----------

  ghost predicate ValidRun(s: Store, ops: seq<Op>)
    decreases |ops|
  {
    ops == [] || ((ops[0].Send? ==> ops[0].id !in s.rows) && ValidRun(Step(s, ops[0]).0, ops[1..]))
  }

  ghost function Run(s: Store, ops: seq<Op>): Store
    decreases |ops|
  {
    if ops == [] then s else Run(Step(s, ops[0]).0, ops[1..])
  }

  const Empty := Store(map[], [])
}
