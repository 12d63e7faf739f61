/**
 Room fan-out over several server instances that share one Redis. Each instance counts its
 local connections per room and keeps one bus subscription per room; the bus in turn keeps a
 set of handlers per channel and one Redis subscription per channel. The state of one instance
 is a value here; `FanOutObjects` has the objects that change it.
 */
module FanOut {
  type RoomId = nat

  datatype Channel = RoomChannel(room: RoomId)

  /** The closure a registry hands to the bus: it knows its room, and each one is a new object. */
  datatype Handler = RoomHandler(room: RoomId, serial: nat)

  datatype BusSub = BusSub(handler: Handler, refCount: int)

  datatype Instance<C(==)> = Instance(
    rooms: map<C, set<RoomId>>,           // the open connections, each with its `ws.data.rooms`
    localSubs: map<RoomId, set<C>>,
    busSubs: map<RoomId, BusSub>,
    handlers: map<Channel, set<Handler>>,
    redis: set<Channel>,                  // channels this instance's subscriber client listens to
    serial: nat)

  function Fresh<C>(): Instance<C> {
    Instance(map[], map[], map[], map[], {}, 0)
  }

  function RoomsOf<C>(s: Instance<C>, c: C): set<RoomId> {
    if c in s.rooms then s.rooms[c] else {}
  }

  function Subs<C>(s: Instance<C>, r: RoomId): set<C> {
    if r in s.localSubs then s.localSubs[r] else {}
  }

  // ---------- The bus ----------

  type Handlers = map<Channel, set<Handler>>

  function AddHandler(m: Handlers, ch: Channel, h: Handler): Handlers {
    m[ch := (if ch in m then m[ch] else {}) + {h}]
  }

  function DropHandler(m: Handlers, ch: Channel, h: Handler): Handlers {
    if ch !in m then m else if m[ch] - {h} == {} then m - {ch} else m[ch := m[ch] - {h}]
  }

  /** Redis is told of a channel with its first handler, and left with its last. */
  function BusSubscribe<C>(s: Instance<C>, ch: Channel, h: Handler): Instance<C> {
    s.(handlers := AddHandler(s.handlers, ch, h), redis := if ch in s.handlers then s.redis else s.redis + {ch})
  }

  function BusUnsubscribe<C>(s: Instance<C>, ch: Channel, h: Handler): Instance<C> {
    s.(handlers := DropHandler(s.handlers, ch, h),
       redis := if ch in s.handlers && s.handlers[ch] - {h} == {} then s.redis - {ch} else s.redis)
  }

  // ---------- The registry ----------

  function Register<C>(s: Instance<C>, c: C): Instance<C> {
    s.(rooms := s.rooms[c := {}])
  }

  function JoinLocally<C>(s: Instance<C>, c: C, r: RoomId): Instance<C> {
    s.(localSubs := s.localSubs[r := Subs(s, r) + {c}], rooms := s.rooms[c := RoomsOf(s, c) + {r}])
  }

  function LeaveLocally<C>(s: Instance<C>, c: C, r: RoomId): Instance<C> {
    var left := Subs(s, r) - {c};
    s.(localSubs := if left == {} then s.localSubs - {r} else s.localSubs[r := left],
       rooms := if c in s.rooms then s.rooms[c := s.rooms[c] - {r}] else s.rooms)
  }

  /** Count one more holder of the room's bus subscription, making it on the first. */
  function HoldBus<C>(s: Instance<C>, r: RoomId): Instance<C> {
    if r in s.busSubs then
      s.(busSubs := s.busSubs[r := s.busSubs[r].(refCount := s.busSubs[r].refCount + 1)])
    else
      var h := RoomHandler(r, s.serial);
      BusSubscribe(s, RoomChannel(r), h).(busSubs := s.busSubs[r := BusSub(h, 1)], serial := s.serial + 1)
  }

  /** Count one holder less, giving the bus subscription up with the last. */
  function ReleaseBus<C>(s: Instance<C>, r: RoomId): Instance<C> {
    if r !in s.busSubs then s
    else if s.busSubs[r].refCount - 1 <= 0 then
      BusUnsubscribe(s, RoomChannel(r), s.busSubs[r].handler).(busSubs := s.busSubs - {r})
    else s.(busSubs := s.busSubs[r := s.busSubs[r].(refCount := s.busSubs[r].refCount - 1)])
  }

  function SubscribeRoom<C>(s: Instance<C>, c: C, r: RoomId): Instance<C> {
    HoldBus(JoinLocally(s, c, r), r)
  }

  function UnsubscribeRoom<C>(s: Instance<C>, c: C, r: RoomId): Instance<C> {
    ReleaseBus(LeaveLocally(s, c, r), r)
  }

  /** Unsubscribing one connection from a list of rooms, in order. */
  function UnsubscribeAll<C>(s: Instance<C>, c: C, order: seq<RoomId>): Instance<C>
    decreases |order|
  {
    if order == [] then s else UnsubscribeAll(UnsubscribeRoom(s, c, order[0]), c, order[1..])
  }

  /** `handleChatSubscribe` skips rooms already joined and rooms the user is not a member of. */
  function JoinUnlessJoined<C>(s: Instance<C>, c: C, r: RoomId, memberOf: set<RoomId>): Instance<C> {
    if r in memberOf && r !in RoomsOf(s, c) then SubscribeRoom(s, c, r) else s
  }

  function ChatSubscribe<C>(s: Instance<C>, c: C, roomIds: seq<RoomId>, memberOf: set<RoomId>): Instance<C>
    decreases |roomIds|
  {
    if roomIds == [] then s
    else ChatSubscribe(JoinUnlessJoined(s, c, roomIds[0], memberOf), c, roomIds[1..], memberOf)
  }

  function Unregister<C>(s: Instance<C>, c: C, order: seq<RoomId>): Instance<C> {
    var s1 := UnsubscribeAll(s, c, order);
    s1.(rooms := s1.rooms - {c})
  }

  // ---------- Delivery ----------

  /** How often one event on `ch` makes this instance call `send` on `c`: once per handler whose room holds `c`. */
  function Sends<C>(s: Instance<C>, ch: Channel, c: C): nat {
    if ch in s.redis && ch in s.handlers
    then |set h | h in s.handlers[ch] && c in Subs(s, h.room)|
    else 0
  }

  /** Redis hands an event to every instance that listens. */
  function TotalSends<C>(w: seq<Instance<C>>, ch: Channel, c: C): nat {
    if w == [] then 0 else Sends(w[0], ch, c) + TotalSends(w[1..], ch, c)
  }

  ghost predicate Joined<C>(w: seq<Instance<C>>, c: C, r: RoomId) {
    exists i :: 0 <= i < |w| && r in RoomsOf(w[i], c)
  }

  // ---------- Runs ----------

  datatype Op<C> =
    | Open(c: C)
    | Subscribe(c: C, roomIds: seq<RoomId>, memberOf: set<RoomId>)
    | Unsubscribe(c: C, roomIds: seq<RoomId>)
    | Close(c: C, order: seq<RoomId>)

  function Apply<C>(s: Instance<C>, op: Op<C>): Instance<C> {
    match op
    case Open(c) => Register(s, c)
    case Subscribe(c, rs, members) => ChatSubscribe(s, c, rs, members)
    case Unsubscribe(c, rs) => UnsubscribeAll(s, c, rs)
    case Close(c, order) => Unregister(s, c, order)
  }

  /** `order` lists a set once each, in some order. */
  ghost predicate Enumerates(order: seq<RoomId>, s: set<RoomId>) {
    && (forall r | r in s :: r in order)
    && (forall i | 0 <= i < |order| :: order[i] in s)
    && (forall i, j | 0 <= i < j < |order| :: order[i] != order[j])
  }

  /** A connection opens once, on one instance; only open connections act; closing walks the rooms it is in. */
  ghost predicate Possible<C>(w: seq<Instance<C>>, i: nat, op: Op<C>) {
    && i < |w|
    && match op
       case Open(c) => forall j | 0 <= j < |w| :: c !in w[j].rooms
       case Subscribe(c, _, _) => c in w[i].rooms
       case Unsubscribe(c, _) => c in w[i].rooms
       case Close(c, order) => c in w[i].rooms && Enumerates(order, w[i].rooms[c])
  }

  /** Every room named by an unsubscribe is, when its turn comes, one the connection is in. */
  ghost predicate NamesJoined<C>(s: Instance<C>, op: Op<C>) {
    match op
    case Unsubscribe(c, rs) => forall k | 0 <= k < |rs| :: rs[k] in RoomsOf(s, c) && rs[k] !in rs[..k]
    case _ => true
  }

  ghost predicate ValidRun<C>(w: seq<Instance<C>>, ops: seq<(nat, Op<C>)>, strict: bool)
    decreases |ops|
  {
    ops == [] ||
    (&& Possible(w, ops[0].0, ops[0].1)
     && (strict ==> NamesJoined(w[ops[0].0], ops[0].1))
     && ValidRun(Next(w, ops[0]), ops[1..], strict))
  }

  function Next<C>(w: seq<Instance<C>>, op: (nat, Op<C>)): seq<Instance<C>> {
    if op.0 < |w| then w[op.0 := Apply(w[op.0], op.1)] else w
  }

  function Run<C>(w: seq<Instance<C>>, ops: seq<(nat, Op<C>)>): seq<Instance<C>>
    decreases |ops|
  {
    if ops == [] then w else Run(Next(w, ops[0]), ops[1..])
  }

  function Start<C>(n: nat): seq<Instance<C>> {
    seq(n, _ => Fresh<C>())
  }
}
