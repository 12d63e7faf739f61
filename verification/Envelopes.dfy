/** Events as they travel over the bus, and what connections are sent of them. */
module Envelopes {
  import opened Wrappers

  /** The text of a JSON value. */
  type Json = string

  datatype Kind = MessageCreated | MessageEdited | MessageDeleted | MessageRead | UserTyping | Other(name: string)

  /** An event off the bus: its kind, and its other fields. */
  datatype Event = Event(kind: Kind, fields: map<string, Json>)

  datatype Payload = Whole(value: Option<Json>) | Object(fields: map<string, Json>)

  /** What a client is sent, without the time stamp. */
  datatype Envelope = Envelope(kind: Kind, payload: Payload, refId: Option<Json>)

  function Field(e: Event, name: string): Option<Json> {
    if name in e.fields then Some(e.fields[name]) else None
  }

  function Pick(e: Event, names: set<string>): map<string, Json> {
    map n | n in names && n in e.fields :: e.fields[n]
  }

  /** Messages are unwrapped and keep the sender's reference; known other events keep their own fields only. */
  function Reshape(e: Event): Envelope {
    match e.kind
    case MessageCreated => Envelope(e.kind, Whole(Field(e, "message")), Field(e, "refId"))
    case MessageEdited => Envelope(e.kind, Whole(Field(e, "message")), Field(e, "refId"))
    case MessageDeleted => Envelope(e.kind, Object(Pick(e, {"messageId", "roomId"})), None)
    case MessageRead => Envelope(e.kind, Object(Pick(e, {"roomId", "userId", "messageId"})), None)
    case UserTyping => Envelope(e.kind, Object(Pick(e, {"roomId", "userId"})), None)
    case Other(_) => Envelope(e.kind, Object(e.fields), None)
  }

  function PresenceEnvelope(e: Event): Envelope {
    Envelope(e.kind, Object(Pick(e, {"userId"})), None)
  }

  // ---------- What a client reads ----------

  /** The events the program publishes on room channels, and on the presence channel. */
  datatype Published =
    | CreatedEvent(message: Json, refId: Option<Json>, originUserId: Json)
    | EditedEvent(message: Json)
    | DeletedEvent(messageId: Json, roomId: Json)
    | ReadEvent(readRoomId: Json, readUserId: Json, readMessageId: Json)
    | TypingEvent(typingRoomId: Json, typingUserId: Json)

  function ToEvent(p: Published): Event {
    match p
    case CreatedEvent(m, None, u) => Event(MessageCreated, map["message" := m, "originUserId" := u])
    case CreatedEvent(m, Some(ref), u) => Event(MessageCreated, map["message" := m, "refId" := ref, "originUserId" := u])
    case EditedEvent(m) => Event(MessageEdited, map["message" := m])
    case DeletedEvent(id, r) => Event(MessageDeleted, map["messageId" := id, "roomId" := r])
    case ReadEvent(r, u, id) => Event(MessageRead, map["roomId" := r, "userId" := u, "messageId" := id])
    case TypingEvent(r, u) => Event(UserTyping, map["roomId" := r, "userId" := u])
  }

  /** What a client takes an envelope to say; an envelope with anything missing or anything more says nothing. */
  function Open(e: Envelope, originUserId: Json): Option<Published> {
    match e
    case Envelope(MessageCreated, Whole(Some(m)), ref) => Some(CreatedEvent(m, ref, originUserId))
    case Envelope(MessageEdited, Whole(Some(m)), None) => Some(EditedEvent(m))
    case Envelope(MessageDeleted, Object(f), None) =>
      if f.Keys == {"messageId", "roomId"} then Some(DeletedEvent(f["messageId"], f["roomId"])) else None
    case Envelope(MessageRead, Object(f), None) =>
      if f.Keys == {"roomId", "userId", "messageId"} then Some(ReadEvent(f["roomId"], f["userId"], f["messageId"])) else None
    case Envelope(UserTyping, Object(f), None) =>
      if f.Keys == {"roomId", "userId"} then Some(TypingEvent(f["roomId"], f["userId"])) else None
    case _ => None
  }

  /** A client reads in the envelope exactly the event that was published, but for who caused it. */
  lemma ClientReadsEvent(p: Published, u: Json)
    ensures Open(Reshape(ToEvent(p)), u) == Some(if p.CreatedEvent? then p.(originUserId := u) else p)
  {
    var e := ToEvent(p);
    match p
    case CreatedEvent(_, _, _) =>
    case EditedEvent(_) =>
    case DeletedEvent(id, r) => assert Pick(e, {"messageId", "roomId"}) == map["messageId" := id, "roomId" := r];
    case ReadEvent(r, v, id) =>
      assert Pick(e, {"roomId", "userId", "messageId"}) == map["roomId" := r, "userId" := v, "messageId" := id];
    case TypingEvent(r, v) => assert Pick(e, {"roomId", "userId"}) == map["roomId" := r, "userId" := v];
  }

  /** Fields a kind of event has no use for do not reach clients; events of unknown kinds pass through whole. */
  lemma StrayFieldsStayHidden(e: Event, name: string, value: Json)
    requires name !in {"message", "refId", "messageId", "roomId", "userId"}
    ensures !e.kind.Other? ==> Reshape(e.(fields := e.fields[name := value])) == Reshape(e)
    ensures e.kind.Other? ==> Reshape(e) == Envelope(e.kind, Object(e.fields), None)
    ensures PresenceEnvelope(e.(fields := e.fields[name := value])) == PresenceEnvelope(e)
  {
    var e' := e.(fields := e.fields[name := value]);
    assert forall names: set<string> | name !in names :: Pick(e', names) == Pick(e, names);
  }

  /** Presence notices name the kind and the user. */
  lemma PresenceNamesUser(kind: Kind, user: Json, at: Json)
    ensures PresenceEnvelope(Event(kind, map["userId" := user, "ts" := at])) == Envelope(kind, Object(map["userId" := user]), None)
  {
    assert Pick(Event(kind, map["userId" := user, "ts" := at]), {"userId"}) == map["userId" := user];
  }
}
