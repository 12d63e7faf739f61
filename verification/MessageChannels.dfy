/** When what is published on a room's channel is about that room, and what a listener who trusts it sees. */
module MessageChannels {
  import opened Wrappers
  import opened Messages
  import opened MessageReplay

  // ---------- One send ----------

  /** A send whose key its sender has used before, for a message of another room. */
  ghost predicate Strays(s: Store, op: Op) {
    && op.Send? && op.clientMessageId.Some? && Step(s, op).1.Ok?
    && exists id :: id in s.rows && s.rows[id].senderId == op.senderId
                    && s.rows[id].clientMessageId == op.clientMessageId && s.rows[id].roomId != op.roomId
  }

  predicate AboutItsChannel(p: Publication) {
    match p.event
    case Created(d, _, _) => d.roomId == p.channel
    case Edited(d) => d.roomId == p.channel
    case Deleted(_, r) => r == p.channel
  }

  /** A send that is carried out announces a message of its own room if and only if it does not stray. */
  lemma SendIsAboutItsChannelIff(s: Store, op: Op)
    requires UniqueKeys(s.rows) && op.Send? && Step(s, op).1.Ok?
    ensures var log := Step(s, op).0.log;
            && |log| == |s.log| + 1 && log[..|s.log|] == s.log && log[|s.log|].channel == op.roomId
            && (AboutItsChannel(log[|s.log|]) <==> !Strays(s, op))
  {
  }

  /** Edits and deletes always announce a message of the channel's room. */
  lemma OthersAreAboutTheirChannel(s: Store, op: Op)
    requires !op.Send?
    ensures var log := Step(s, op).0.log;
            log == s.log || (|log| == |s.log| + 1 && log[..|s.log|] == s.log && AboutItsChannel(log[|s.log|]))
  {
  }

  // ---------- Whole runs ----------

  /** Everything published on `r` is about `r`. */
  ghost predicate OnTopic(log: seq<Publication>, r: RoomId) {
    forall i | 0 <= i < |log| && log[i].channel == r :: AboutItsChannel(log[i])
  }

  /** No send to room `r` strays. */
  ghost predicate NoneStrays(s: Store, ops: seq<Op>, r: RoomId)
    decreases |ops|
  {
    ops == [] || (!(ops[0].Send? && ops[0].roomId == r && Strays(s, ops[0])) && NoneStrays(Step(s, ops[0]).0, ops[1..], r))
  }

  lemma OnTopicAppend(log: seq<Publication>, p: Publication, r: RoomId)
    ensures OnTopic(log + [p], r) <==> OnTopic(log, r) && (p.channel == r ==> AboutItsChannel(p))
  {
    var all := log + [p];
    assert all[|log|] == p;
    assert forall i | 0 <= i < |log| :: all[i] == log[i];
  }

  lemma StepOnTopicIff(s: Store, op: Op, r: RoomId)
    requires UniqueKeys(s.rows)
    ensures OnTopic(Step(s, op).0.log, r) <==> OnTopic(s.log, r) && !(op.Send? && op.roomId == r && Strays(s, op))
  {
    var log := Step(s, op).0.log;
    if op.Send? && Step(s, op).1.Ok? { SendIsAboutItsChannelIff(s, op); }
    if !op.Send? { OthersAreAboutTheirChannel(s, op); }
    if log != s.log {
      assert log == s.log + [log[|s.log|]];
      OnTopicAppend(s.log, log[|s.log|], r);
    }
  }

  lemma {:induction false} RunOnTopicIff(s: Store, ops: seq<Op>, r: RoomId)
    requires ValidRun(s, ops) && DeletedAreEmpty(s.rows) && UniqueKeys(s.rows)
    ensures OnTopic(Run(s, ops).log, r) <==> OnTopic(s.log, r) && NoneStrays(s, ops, r)
    decreases |ops|
  {
    if ops != [] {
      StepOnTopicIff(s, ops[0], r);
      StepKeepsRows(s, ops[0], 0);
      RunOnTopicIff(Step(s, ops[0]).0, ops[1..], r);
    }
  }

  /** Over a whole run, what a room's channel carries is about the room exactly when no send to the room strayed. */
  lemma ChannelIsAboutRoomIff(ops: seq<Op>, r: RoomId)
    requires ValidRun(Empty, ops)
    ensures OnTopic(Run(Empty, ops).log, r) <==> NoneStrays(Empty, ops, r)
  {
    RunOnTopicIff(Empty, ops, r);
  }

  // ---------- A listener who trusts the channel ----------

  /** Takes every message on the channel for one of the room. */
  function AbsorbAll(v: View, e: BusEvent): View {
    match e
    case Created(d, _, _) => v[d.id := ShowDto(d)]
    case Edited(d) => v[d.id := ShowDto(d)]
    case Deleted(id, _) =>
      if id in v then v[id := v[id].(deleted := true, body := "", attachmentKey := None, attachmentMeta := None)] else v
  }

  function TrustingReplay(log: seq<Publication>, r: RoomId): View {
    if log == [] then map[]
    else
      var v := TrustingReplay(log[..|log| - 1], r);
      var p := log[|log| - 1];
      if p.channel == r then AbsorbAll(v, p.event) else v
  }

  lemma {:induction false} SameReplayOnTopic(log: seq<Publication>, r: RoomId)
    requires OnTopic(log, r)
    ensures TrustingReplay(log, r) == Replay(log, r)
    decreases |log|
  {
    if log != [] {
      SameReplayOnTopic(log[..|log| - 1], r);
    }
  }

  /** What was announced stays in the view. */
  lemma {:induction false} AnnouncedIsShown(log: seq<Publication>, r: RoomId, i: nat)
    requires i < |log| && log[i].channel == r && !log[i].event.Deleted?
    ensures log[i].event.message.id in TrustingReplay(log, r)
    decreases |log|
  {
    if i < |log| - 1 {
      AnnouncedIsShown(log[..|log| - 1], r, i);
    }
  }

  /** Announced messages are rows, of the room they say; deletions name the room of their channel. */
  ghost predicate Recorded(t: Table, p: Publication) {
    if p.event.Deleted? then p.event.roomId == p.channel
    else p.event.message.id in t && t[p.event.message.id].roomId == p.event.message.roomId
  }

  ghost predicate AllRecorded(s: Store) {
    forall i | 0 <= i < |s.log| :: Recorded(s.rows, s.log[i])
  }

  lemma StepKeepsRecorded(s: Store, op: Op)
    requires AllRecorded(s) && (op.Send? ==> op.id !in s.rows)
    ensures AllRecorded(Step(s, op).0)
  {
    var s' := Step(s, op).0;
    forall i | 0 <= i < |s'.log| ensures Recorded(s'.rows, s'.log[i]) {
      if i < |s.log| { assert s'.log[i] == s.log[i] && Recorded(s.rows, s.log[i]); }
    }
  }

  lemma {:induction false} RunKeepsRecorded(s: Store, ops: seq<Op>)
    requires AllRecorded(s) && ValidRun(s, ops)
    ensures AllRecorded(Run(s, ops))
    decreases |ops|
  {
    if ops != [] {
      StepKeepsRecorded(s, ops[0]);
      RunKeepsRecorded(Step(s, ops[0]).0, ops[1..]);
    }
  }

  /** A listener who does not compare room ids sees exactly the room's rows if and only if no send to the room strayed. */
  lemma TrustingListenerIff(ops: seq<Op>, r: RoomId)
    requires ValidRun(Empty, ops)
    ensures TrustingReplay(Run(Empty, ops).log, r) == RoomView(Run(Empty, ops).rows, r) <==> NoneStrays(Empty, ops, r)
  {
    var s := Run(Empty, ops);
    ChannelIsAboutRoomIff(ops, r);
    EventsRebuildRoom(ops, r);
    if OnTopic(s.log, r) {
      SameReplayOnTopic(s.log, r);
    } else {
      var i :| 0 <= i < |s.log| && s.log[i].channel == r && !AboutItsChannel(s.log[i]);
      RunKeepsRecorded(Empty, ops);
      assert Recorded(s.rows, s.log[i]);
      AnnouncedIsShown(s.log, r, i);
      assert s.log[i].event.message.id !in RoomView(s.rows, r);
    }
  }
}
