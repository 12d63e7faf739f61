/** The bus, the connection registry and the chat handlers as objects. */
module FanOutObjects {
  import opened Wrappers
  import opened Envelopes
  import opened FanOut
  import opened FanOutProofs

  type UserId = nat

  class WebSocket {
    const userId: UserId
    var rooms: set<RoomId>
    var inbox: seq<Envelope>

    constructor (userId: UserId)
      ensures this.userId == userId && rooms == {} && inbox == []
    {
      this.userId, rooms, inbox := userId, {}, [];
    }
  }

  /** The closure that listens for presence; each one is a new object. */
  datatype PresenceHandler = PresenceHandler(serial: nat)

  class RedisMessageBus {
    var channelHandlers: Handlers
    var subscribed: set<Channel>
    var presenceHandlers: set<PresenceHandler>  // the entry of the handler map for the presence channel
    var presenceSubscribed: bool

    constructor ()
      ensures channelHandlers == map[] && subscribed == {}
      ensures presenceHandlers == {} && !presenceSubscribed
    {
      channelHandlers, subscribed := map[], {};
      presenceHandlers, presenceSubscribed := {}, false;
    }

    method SubscribePresence(h: PresenceHandler)
      modifies this`presenceHandlers, this`presenceSubscribed
      ensures presenceHandlers == old(presenceHandlers) + {h}
      ensures presenceSubscribed == (old(presenceSubscribed) || old(presenceHandlers) == {})
    {
      if presenceHandlers == {} { presenceSubscribed := true; }
      presenceHandlers := presenceHandlers + {h};
    }

    method UnsubscribePresence(h: PresenceHandler)
      modifies this`presenceHandlers, this`presenceSubscribed
      ensures presenceHandlers == old(presenceHandlers) - {h}
      ensures presenceSubscribed == (old(presenceSubscribed) && !(old(presenceHandlers) != {} && presenceHandlers == {}))
    {
      if presenceHandlers == {} { return; }
      presenceHandlers := presenceHandlers - {h};
      if presenceHandlers == {} { presenceSubscribed := false; }
    }

    method Subscribe(ch: Channel, h: Handler)
      modifies this`channelHandlers, this`subscribed
      ensures channelHandlers == AddHandler(old(channelHandlers), ch, h)
      ensures subscribed == if ch in old(channelHandlers) then old(subscribed) else old(subscribed) + {ch}
    {
      if ch !in channelHandlers {
        channelHandlers := channelHandlers[ch := {}];
        subscribed := subscribed + {ch};
      }
      channelHandlers := channelHandlers[ch := channelHandlers[ch] + {h}];
    }

    /** The closure `subscribe` returns, applied to the handler it was made for. */
    method Unsubscribe(ch: Channel, h: Handler)
      modifies this`channelHandlers, this`subscribed
      ensures channelHandlers == DropHandler(old(channelHandlers), ch, h)
      ensures subscribed == if ch in old(channelHandlers) && old(channelHandlers)[ch] - {h} == {}
                            then old(subscribed) - {ch} else old(subscribed)
    {
      if ch !in channelHandlers { return; }
      channelHandlers := channelHandlers[ch := channelHandlers[ch] - {h}];
      if channelHandlers[ch] == {} {
        channelHandlers := channelHandlers - {ch};
        subscribed := subscribed - {ch};
      }
    }
  }

  /** The rooms asked for that the user is a member of, in the order asked, repetitions kept. */
  function Acknowledged(roomIds: seq<RoomId>, memberOf: set<RoomId>): seq<RoomId> {
    if roomIds == [] then []
    else if roomIds[0] in memberOf then [roomIds[0]] + Acknowledged(roomIds[1..], memberOf)
    else Acknowledged(roomIds[1..], memberOf)
  }

  lemma {:induction false} AcknowledgedAreMemberships(roomIds: seq<RoomId>, memberOf: set<RoomId>, r: RoomId)
    ensures r in Acknowledged(roomIds, memberOf) <==> r in roomIds && r in memberOf
  {
    if roomIds != [] {
      AcknowledgedAreMemberships(roomIds[1..], memberOf, r);
      assert roomIds == [roomIds[0]] + roomIds[1..];
    }
  }

  function Repeated(e: Envelope, n: nat): seq<Envelope> {
    seq(n, _ => e)
  }

  /** The handlers that hand an event on to `ws`. */
  ghost function Reaching(subs: map<RoomId, set<WebSocket>>, hs: set<Handler>, ws: WebSocket): set<Handler> {
    set h | h in hs && h.room in subs && ws in subs[h.room]
  }

  lemma OneMoreCopy(subs: map<RoomId, set<WebSocket>>, all: set<Handler>, todo: set<Handler>, h: Handler, ws: WebSocket, sent: Envelope)
    requires todo <= all && h in todo
    ensures var reached := h.room in subs && ws in subs[h.room];
            Repeated(sent, |Reaching(subs, all - (todo - {h}), ws)|)
            == Repeated(sent, |Reaching(subs, all - todo, ws)|) + if reached then [sent] else []
  {
    var done, done' := Reaching(subs, all - todo, ws), Reaching(subs, all - (todo - {h}), ws);
    if h.room in subs && ws in subs[h.room] {
      assert done' == done + {h} && h !in done;
    } else {
      assert done' == done;
    }
  }

  class ConnectionRegistry {
    const bus: RedisMessageBus
    var userConns: map<UserId, set<WebSocket>>
    var roomLocalSubs: map<RoomId, set<WebSocket>>
    var roomBusUnsub: map<RoomId, BusSub>
    var presenceUnsub: Option<PresenceHandler>
    var serial: nat  // tells one closure from the next
    var presenceSerial: nat
    ghost var conns: set<WebSocket>  // the open connections

    constructor (bus: RedisMessageBus)
      requires bus.channelHandlers == map[] && bus.subscribed == {}
      requires bus.presenceHandlers == {} && !bus.presenceSubscribed
      ensures this.bus == bus && Valid() && conns == {} && State() == Fresh()
    {
      this.bus := bus;
      userConns, conns := map[], {};
      roomLocalSubs, roomBusUnsub, presenceUnsub, serial, presenceSerial := map[], map[], None, 0, 0;
    }

    /** The users' connections are the open ones, each under its user. */
    ghost predicate UsersOk()
      reads this`userConns, this`conns
    {
      && (forall u | u in userConns :: userConns[u] != {})
      && (forall u, ws | u in userConns && ws in userConns[u] :: ws in conns && ws.userId == u)
      && (forall ws | ws in conns :: ws.userId in userConns && ws in userConns[ws.userId])
    }

    /** And presence is listened to, with one handler, exactly while there are any. */
    ghost predicate Valid()
      reads this`userConns, this`conns, this`presenceUnsub, bus`presenceHandlers, bus`presenceSubscribed
    {
      UsersOk() && ListensIf(conns != {})
    }

    ghost predicate ListensIf(wanted: bool)
      reads this`presenceUnsub, bus`presenceHandlers, bus`presenceSubscribed
    {
      && (presenceUnsub.Some? <==> wanted)
      && bus.presenceHandlers == (if presenceUnsub.Some? then {presenceUnsub.value} else {})
      && bus.presenceSubscribed == presenceUnsub.Some?
    }

    ghost function State(): Instance<WebSocket>
      reads this`conns, this`roomLocalSubs, this`roomBusUnsub, this`serial, bus`channelHandlers, bus`subscribed, conns`rooms
    {
      Instance(map ws | ws in conns :: ws.rooms, roomLocalSubs, roomBusUnsub, bus.channelHandlers, bus.subscribed, serial)
    }

    method Register(ws: WebSocket)
      requires Valid() && ws !in conns && ws.rooms == {}
      modifies this`userConns, this`conns, this`presenceUnsub, this`presenceSerial
      modifies bus`presenceHandlers, bus`presenceSubscribed
      ensures Valid() && conns == old(conns) + {ws}
      ensures State() == FanOut.Register(old(State()), ws)
    {
      AddConnection(ws);
      ListenForPresence();
    }

    method AddConnection(ws: WebSocket)
      requires UsersOk() && ws !in conns && ws.rooms == {}
      modifies this`userConns, this`conns
      ensures UsersOk() && conns == old(conns) + {ws}
      ensures State() == FanOut.Register(old(State()), ws)
    {
      var held := if ws.userId in userConns then userConns[ws.userId] else {};
      userConns := userConns[ws.userId := held + {ws}];
      conns := conns + {ws};
      assert State().rooms == old(State()).rooms[ws := {}];
    }

    method ListenForPresence()
      requires ListensIf(presenceUnsub.Some?)
      modifies this`presenceUnsub, this`presenceSerial, bus`presenceHandlers, bus`presenceSubscribed
      ensures ListensIf(true)
    {
      if presenceUnsub.None? {
        var handler := PresenceHandler(presenceSerial);
        presenceSerial := presenceSerial + 1;
        bus.SubscribePresence(handler);
        presenceUnsub := Some(handler);
      }
    }

    method SubscribeRoom(ws: WebSocket, roomId: RoomId)
      requires ws in conns
      modifies this`roomLocalSubs, this`roomBusUnsub, this`serial, bus`channelHandlers, bus`subscribed, ws`rooms
      ensures State() == FanOut.SubscribeRoom(old(State()), ws, roomId)
    {
      AddLocalSub(ws, roomId);
      if roomId in roomBusUnsub {
        var existing := roomBusUnsub[roomId];
        roomBusUnsub := roomBusUnsub[roomId := existing.(refCount := existing.refCount + 1)];
      } else {
        var handler := RoomHandler(roomId, serial);
        serial := serial + 1;
        bus.Subscribe(RoomChannel(roomId), handler);
        roomBusUnsub := roomBusUnsub[roomId := BusSub(handler, 1)];
      }
    }

    method AddLocalSub(ws: WebSocket, roomId: RoomId)
      requires ws in conns
      modifies this`roomLocalSubs, ws`rooms
      ensures State() == JoinLocally(old(State()), ws, roomId)
    {
      if roomId !in roomLocalSubs { roomLocalSubs := roomLocalSubs[roomId := {}]; }
      roomLocalSubs := roomLocalSubs[roomId := roomLocalSubs[roomId] + {ws}];
      ws.rooms := ws.rooms + {roomId};
      assert State().rooms == JoinLocally(old(State()), ws, roomId).rooms;
    }

    method UnsubscribeRoom(ws: WebSocket, roomId: RoomId)
      requires ws in conns
      modifies this`roomLocalSubs, this`roomBusUnsub, this`serial, bus`channelHandlers, bus`subscribed, ws`rooms
      ensures State() == FanOut.UnsubscribeRoom(old(State()), ws, roomId)
    {
      DropLocalSub(ws, roomId);
      if roomId in roomBusUnsub {
        var existing := roomBusUnsub[roomId];
        var refCount := existing.refCount - 1;
        if refCount <= 0 {
          bus.Unsubscribe(RoomChannel(roomId), existing.handler);
          roomBusUnsub := roomBusUnsub - {roomId};
        } else {
          roomBusUnsub := roomBusUnsub[roomId := existing.(refCount := refCount)];
        }
      }
    }

    method DropLocalSub(ws: WebSocket, roomId: RoomId)
      requires ws in conns
      modifies this`roomLocalSubs, ws`rooms
      ensures State() == LeaveLocally(old(State()), ws, roomId)
    {
      if roomId in roomLocalSubs {
        var left := roomLocalSubs[roomId] - {ws};
        roomLocalSubs := if left == {} then roomLocalSubs - {roomId} else roomLocalSubs[roomId := left];
      }
      ws.rooms := ws.rooms - {roomId};
      assert roomLocalSubs == LeaveLocally(old(State()), ws, roomId).localSubs;
      assert State().rooms == LeaveLocally(old(State()), ws, roomId).rooms;
    }

    method Unregister(ws: WebSocket) returns (ghost order: seq<RoomId>)
      requires Valid() && ws in conns
      modifies this, bus, ws`rooms
      ensures Valid() && conns == old(conns) - {ws}
      ensures Enumerates(order, old(ws.rooms))
      ensures State() == FanOut.Unregister(old(State()), ws, order)
    {
      var todo := ListRooms(ws.rooms);
      order := todo;
      UnsubscribeRooms(ws, todo);
      DropConnection(ws);
    }

    method DropConnection(ws: WebSocket)
      requires Valid() && ws in conns
      modifies this`userConns, this`conns, this`presenceUnsub, bus`presenceHandlers, bus`presenceSubscribed
      ensures Valid() && conns == old(conns) - {ws}
      ensures State() == old(State()).(rooms := old(State()).rooms - {ws})
    {
      RemoveConnection(ws);
      NobodyLeft();
      if userConns == map[] && presenceUnsub.Some? {
        bus.UnsubscribePresence(presenceUnsub.value);
        presenceUnsub := None;
      }
    }

    method RemoveConnection(ws: WebSocket)
      requires UsersOk() && ws in conns
      modifies this`userConns, this`conns
      ensures UsersOk() && conns == old(conns) - {ws}
      ensures State() == old(State()).(rooms := old(State()).rooms - {ws})
    {
      conns := conns - {ws};
      if ws.userId in userConns {
        var left := userConns[ws.userId] - {ws};
        userConns := if left == {} then userConns - {ws.userId} else userConns[ws.userId := left];
      }
      assert State().rooms == old(State()).rooms - {ws};
    }

    lemma NobodyLeft()
      requires UsersOk()
      ensures userConns == map[] <==> conns == {}
    {
      if userConns != map[] {
        var u :| u in userConns;
        assert userConns[u] != {};
      }
    }

    /** The loop of `handleChatUnsubscribe`, and the one inside `unregister`. */
    method UnsubscribeRooms(ws: WebSocket, roomIds: seq<RoomId>)
      requires ws in conns
      modifies this`roomLocalSubs, this`roomBusUnsub, this`serial, bus`channelHandlers, bus`subscribed, ws`rooms
      ensures State() == UnsubscribeAll(old(State()), ws, roomIds)
    {
      var i := 0;
      while i < |roomIds|
        invariant 0 <= i <= |roomIds|
        invariant UnsubscribeAll(State(), ws, roomIds[i..]) == UnsubscribeAll(old(State()), ws, roomIds)
      {
        assert roomIds[i..][1..] == roomIds[i + 1..];
        UnsubscribeRoom(ws, roomIds[i]);
        i := i + 1;
      }
    }

    /** `handleChatUnsubscribe`: the acknowledgement names every room asked for, joined or not. */
    method HandleChatUnsubscribe(ws: WebSocket, roomIds: seq<RoomId>) returns (unsubscribed: seq<RoomId>)
      requires ws in conns
      modifies this`roomLocalSubs, this`roomBusUnsub, this`serial, bus`channelHandlers, bus`subscribed, ws`rooms
      ensures State() == UnsubscribeAll(old(State()), ws, roomIds)
      ensures unsubscribed == roomIds
      ensures forall r | r in unsubscribed :: r !in ws.rooms
    {
      UnsubscribeRooms(ws, roomIds);
      unsubscribed := roomIds;
      UnsubscribeAllLeaves(old(State()), ws, roomIds);
      assert State().rooms[ws] == RoomsOf(State(), ws);
    }

    /** `memberOf` answers the membership query `handleChatSubscribe` makes for each room. */
    method HandleChatSubscribe(ws: WebSocket, roomIds: seq<RoomId>, memberOf: set<RoomId>) returns (subscribed: seq<RoomId>)
      requires ws in conns
      modifies this`roomLocalSubs, this`roomBusUnsub, this`serial, bus`channelHandlers, bus`subscribed, ws`rooms
      ensures State() == ChatSubscribe(old(State()), ws, roomIds, memberOf)
      ensures subscribed == Acknowledged(roomIds, memberOf)
      ensures forall r | r in subscribed :: r in ws.rooms
    {
      subscribed := [];
      var i := 0;
      while i < |roomIds|
        invariant 0 <= i <= |roomIds|
        invariant ChatSubscribe(State(), ws, roomIds[i..], memberOf) == ChatSubscribe(old(State()), ws, roomIds, memberOf)
        invariant subscribed + Acknowledged(roomIds[i..], memberOf) == Acknowledged(roomIds, memberOf)
        invariant forall r | r in subscribed :: r in ws.rooms
      {
        assert roomIds[i..][1..] == roomIds[i + 1..];
        var roomId := roomIds[i];
        i := i + 1;
        if roomId in memberOf {
          if roomId !in ws.rooms {
            label before:
            SubscribeRoom(ws, roomId);
            assert State().rooms[ws] == old@before(ws.rooms) + {roomId};
          }
          subscribed := subscribed + [roomId];
        }
      }
    }

    /** One Redis message on `ch` reaching this instance: every handler of the channel runs. */
    method Deliver(ch: Channel, event: Event)
      requires forall r | r in roomLocalSubs :: roomLocalSubs[r] <= conns
      modifies conns`inbox
      ensures forall ws | ws in conns :: ws.inbox == old(ws.inbox) + Repeated(Reshape(event), Sends(State(), ch, ws))
    {
      if ch !in bus.subscribed || ch !in bus.channelHandlers { return; }
      var all := bus.channelHandlers[ch];
      var todo := all;
      while todo != {}
        invariant todo <= all
        invariant forall ws | ws in conns :: ws.inbox == old(ws.inbox) + Repeated(Reshape(event), |Reaching(roomLocalSubs, all - todo, ws)|)
        decreases |todo|
      {
        var h :| h in todo;
        FanOutBusEvent(h.room, event);
        forall ws | ws in conns
          ensures ws.inbox == old(ws.inbox) + Repeated(Reshape(event), |Reaching(roomLocalSubs, all - (todo - {h}), ws)|)
        {
          OneMoreCopy(roomLocalSubs, all, todo, h, ws, Reshape(event));
        }
        todo := todo - {h};
      }
      forall ws | ws in conns ensures |Reaching(roomLocalSubs, all - todo, ws)| == Sends(State(), ch, ws) {
        assert all - todo == all;
        assert Reaching(roomLocalSubs, all, ws) == set h | h in State().handlers[ch] && ws in Subs(State(), h.room);
      }
    }

    method FanOutBusEvent(roomId: RoomId, event: Event)
      requires forall r | r in roomLocalSubs :: roomLocalSubs[r] <= conns
      modifies conns`inbox
      ensures forall ws | ws in conns ::
                ws.inbox == old(ws.inbox) + if ws in Subs(State(), roomId) then [Reshape(event)] else []
    {
      if roomId !in roomLocalSubs { return; }
      var payload: Payload := Object(event.fields);
      var refId: Option<Json> := None;
      match event.kind {
        case MessageCreated => payload, refId := Whole(Field(event, "message")), Field(event, "refId");
        case MessageEdited => payload, refId := Whole(Field(event, "message")), Field(event, "refId");
        case MessageDeleted => payload := Object(Pick(event, {"messageId", "roomId"}));
        case MessageRead => payload := Object(Pick(event, {"roomId", "userId", "messageId"}));
        case UserTyping => payload := Object(Pick(event, {"roomId", "userId"}));
        case Other(_) =>
      }
      SendToRoom(roomId, Envelope(event.kind, payload, refId));
    }

    method SendToRoom(roomId: RoomId, envelope: Envelope)
      requires roomId in roomLocalSubs && roomLocalSubs[roomId] <= conns
      modifies conns`inbox
      ensures forall ws | ws in conns ::
                ws.inbox == old(ws.inbox) + if ws in roomLocalSubs[roomId] then [envelope] else []
    {
      var todo := roomLocalSubs[roomId];
      while todo != {}
        invariant todo <= roomLocalSubs[roomId]
        invariant forall ws | ws in conns ::
                    ws.inbox == old(ws.inbox) + if ws in roomLocalSubs[roomId] && ws !in todo then [envelope] else []
        decreases |todo|
      {
        var ws :| ws in todo;
        ws.inbox := ws.inbox + [envelope];
        todo := todo - {ws};
      }
    }

    /** A presence event reaching this instance: every open connection is sent it once. */
    method DeliverPresence(event: Event)
      requires Valid()
      modifies conns`inbox
      ensures forall ws | ws in conns :: ws.inbox == old(ws.inbox) + [PresenceEnvelope(event)]
    {
      if !bus.presenceSubscribed { return; }
      var todo := bus.presenceHandlers;
      while todo != {}
        invariant todo <= bus.presenceHandlers
        invariant forall ws | ws in conns :: ws.inbox == old(ws.inbox) + if todo == {} then [PresenceEnvelope(event)] else []
        decreases |todo|
      {
        var h :| h in todo;
        FanOutPresence(event);
        todo := todo - {h};
      }
    }

    method FanOutPresence(event: Event)
      requires Valid()
      modifies conns`inbox
      ensures forall ws | ws in conns :: ws.inbox == old(ws.inbox) + [PresenceEnvelope(event)]
    {
      var envelope := PresenceEnvelope(event);
      var users := userConns.Keys;
      while users != {}
        invariant users <= userConns.Keys
        invariant forall ws | ws in conns :: ws.inbox == old(ws.inbox) + if ws.userId in users then [] else [envelope]
        decreases |users|
      {
        var u :| u in users;
        SendToUser(u, envelope);
        users := users - {u};
      }
    }

    method SendToUser(u: UserId, envelope: Envelope)
      requires Valid() && u in userConns
      modifies conns`inbox
      ensures forall ws | ws in conns :: ws.inbox == old(ws.inbox) + if ws.userId == u then [envelope] else []
    {
      var todo := userConns[u];
      while todo != {}
        invariant todo <= userConns[u]
        invariant forall ws | ws in conns ::
                    ws.inbox == old(ws.inbox) + if ws.userId == u && ws !in todo then [envelope] else []
        decreases |todo|
      {
        var ws :| ws in todo;
        ws.inbox := ws.inbox + [envelope];
        todo := todo - {ws};
      }
    }
  }

  /** The rooms of a set as a list, each once. */
  method ListRooms(rooms: set<RoomId>) returns (order: seq<RoomId>)
    ensures Enumerates(order, rooms)
  {
    order := [];
    var todo := rooms;
    while todo != {}
      invariant todo <= rooms
      invariant Enumerates(order, rooms - todo)
      decreases |todo|
    {
      var r :| r in todo;
      order := order + [r];
      todo := todo - {r};
    }
  }
}
