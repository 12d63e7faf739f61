/** The message repository, the bus and the message use cases as objects. */
module MessageObjects {
  import opened Wrappers
  import opened Roles
  import opened Messages
  import opened MessageReplay

  class PgMessageRepository {
    var rows: Table

    /** The partial unique index on sender and client key. */
    ghost predicate Valid()
      reads this
    {
      UniqueKeys(rows)
    }

    constructor ()
      ensures Valid() && rows == map[]
    {
      rows := map[];
    }

    method InsertRow(id: MessageId, m: Message) returns (stored: MessageId)
      requires Valid() && id !in rows
      modifies this
      ensures Valid()
      ensures (rows, stored) == Insert(old(rows), id, m)
    {
      var hits := set x | x in rows && rows[x].senderId == m.senderId && rows[x].clientMessageId == m.clientMessageId;
      if m.clientMessageId.Some? && hits != {} {
        stored :| stored in hits;
        assert stored in rows && rows[stored].senderId == m.senderId && rows[stored].clientMessageId == m.clientMessageId;
      } else {
        assert forall x | x in rows && rows[x].senderId == m.senderId && rows[x].clientMessageId == m.clientMessageId :: x in hits;
        rows := rows[id := m];
        stored := id;
      }
    }

    method FindById(id: MessageId) returns (r: Option<Message>)
      ensures r == if id in rows then Some(rows[id]) else None
    {
      r := if id in rows then Some(rows[id]) else None;
    }

    method UpdateRow(id: MessageId, body: string, now: int)
      requires Valid()
      modifies this
      ensures Valid() && rows == Update(old(rows), id, body, now)
    {
      if id in rows { rows := rows[id := rows[id].(body := body, editedAt := Some(now))]; }
    }

    method SoftDeleteRow(id: MessageId, now: int)
      requires Valid()
      modifies this
      ensures Valid() && rows == SoftDelete(old(rows), id, now)
    {
      if id in rows {
        rows := rows[id := rows[id].(deletedAt := Some(now), body := "", attachmentKey := None, attachmentMeta := None)];
      }
    }
  }

  class MessageBus {
    var published: seq<Publication>

    constructor ()
      ensures published == []
    {
      published := [];
    }

    method Publish(channel: RoomId, event: BusEvent)
      modifies this
      ensures published == old(published) + [Publication(channel, event)]
    {
      published := published + [Publication(channel, event)];
    }
  }

  /** The `last_message_at` column of the rooms table. */
  class RoomTimes {
    var lastMessageAt: map<RoomId, int>

    constructor ()
      ensures lastMessageAt == map[]
    {
      lastMessageAt := map[];
    }

    method BumpLastMessageAt(roomId: RoomId, at: int)
      modifies this
      ensures lastMessageAt == old(lastMessageAt)[roomId := at]
    {
      lastMessageAt := lastMessageAt[roomId := at];
    }
  }

  class MessageUseCases {
    const repo: PgMessageRepository
    const bus: MessageBus
    const rooms: RoomTimes

    constructor (repo: PgMessageRepository, bus: MessageBus, rooms: RoomTimes)
      ensures this.repo == repo && this.bus == bus && this.rooms == rooms
    {
      this.repo, this.bus, this.rooms := repo, bus, rooms;
    }

    function State(): Store
      reads repo, bus
    {
      Store(repo.rows, bus.published)
    }

    method SendMessage(roomId: RoomId, senderId: UserId, body: string, attachmentKey: Option<string>,
                       clientMessageId: Option<string>, refId: Option<string>,
                       isMember: bool, uploaded: bool, id: MessageId, now: int) returns (o: Outcome)
      requires repo.Valid() && id !in repo.rows
      modifies repo, bus, rooms
      ensures repo.Valid()
      ensures rooms.lastMessageAt == if o.Ok? then old(rooms.lastMessageAt)[roomId := now] else old(rooms.lastMessageAt)
      ensures (State(), o) == Step(old(State()), Send(roomId, senderId, body, attachmentKey, clientMessageId, refId,
                                                      isMember, uploaded, id, now))
    {
      if !isMember { return Forbidden; }
      if attachmentKey.Some? && attachmentKey.value != "" {
        if !uploaded { return Conflict; }
      }
      var stored := repo.InsertRow(id, Message(roomId, senderId, body, clientMessageId, attachmentKey, None, None, None, now));
      rooms.BumpLastMessageAt(roomId, now);
      var dto := ToDto(stored, repo.rows[stored]);
      bus.Publish(roomId, Created(dto, refId, senderId));
      o := Ok(dto);
    }

    method EditMessage(requesterId: UserId, messageId: MessageId, body: string, now: int) returns (o: Outcome)
      requires repo.Valid()
      modifies repo, bus
      ensures repo.Valid()
      ensures (State(), o) == Step(old(State()), Edit(requesterId, messageId, body, now))
    {
      var found := repo.FindById(messageId);
      if found.None? || found.value.deletedAt.Some? { return NotFound; }
      var msg := found.value;
      if msg.senderId != requesterId { return Forbidden; }
      if msg.body == body { return Ok(ToDto(messageId, msg)); }
      repo.UpdateRow(messageId, body, now);
      var dto := ToDto(messageId, repo.rows[messageId]);
      bus.Publish(msg.roomId, Edited(dto));
      o := Ok(dto);
    }

    method DeleteMessage(requesterId: UserId, messageId: MessageId, role: Option<Role>, now: int) returns (o: Outcome)
      requires repo.Valid()
      modifies repo, bus
      ensures repo.Valid()
      ensures (State(), o) == Step(old(State()), Delete(requesterId, messageId, role, now))
    {
      var found := repo.FindById(messageId);
      if found.None? || found.value.deletedAt.Some? { return NotFound; }
      var msg := found.value;
      if msg.senderId != requesterId {
        if role.None? || role.value == Member { return Forbidden; }
      }
      repo.SoftDeleteRow(messageId, now);
      bus.Publish(msg.roomId, Deleted(messageId, msg.roomId));
      o := Removed;
    }
  }
}
