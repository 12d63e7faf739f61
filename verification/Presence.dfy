/**
 Presence of one user as single Redis steps. Any number of online, heartbeat and offline calls
 run at once; each advances one Redis command or one publish at a time, in any order.
 Keys do not expire here.
 */
module Presence {
  type ConnId = nat

  datatype Call = Online(conn: ConnId) | Heartbeat(conn: ConnId) | Offline(conn: ConnId)

  /** Where a call stands: the next step it will take. */
  datatype Pc = AtSet | AtExpire | AtPublishOnline | AtDel | AtLen | AtPublishOffline | Finished

  datatype Proc = Proc(call: Call, pc: Pc)

  /** What has happened, in order: writes to the hash, and notices on `presence:global`. */
  datatype Note = Touched | SaidOnline | SaidOffline

  datatype State = State(hash: set<ConnId>, procs: seq<Proc>, log: seq<Note>)

  datatype Action = Begin(call: Call) | Advance(who: nat)

  const Idle := State({}, [], [])

  function StepProc(s: State, i: nat): State
    requires i < |s.procs|
  {
    var p := s.procs[i];
    match p.pc
    case AtSet => State(s.hash + {p.call.conn}, s.procs[i := p.(pc := AtExpire)], s.log + [Touched])
    case AtExpire => s.(procs := s.procs[i := p.(pc := if p.call.Online? then AtPublishOnline else Finished)])
    case AtPublishOnline => State(s.hash, s.procs[i := p.(pc := Finished)], s.log + [SaidOnline])
    case AtDel =>
      if p.call.conn in s.hash then State(s.hash - {p.call.conn}, s.procs[i := p.(pc := AtLen)], s.log)
      else s.(procs := s.procs[i := p.(pc := Finished)])
    case AtLen => s.(procs := s.procs[i := p.(pc := if s.hash == {} then AtPublishOffline else Finished)])
    case AtPublishOffline => State(s.hash, s.procs[i := p.(pc := Finished)], s.log + [SaidOffline])
    case Finished => s
  }

  function Step(s: State, a: Action): State {
    match a
    case Begin(c) => s.(procs := s.procs + [Proc(c, if c.Offline? then AtDel else AtSet)])
    case Advance(i) => if i < |s.procs| then StepProc(s, i) else s
  }

  function Run(s: State, acts: seq<Action>): State
    decreases |acts|
  {
    if acts == [] then s else Run(Step(s, acts[0]), acts[1..])
  }

  // ---------- No notice is lost ----------

  /** An offline notice came after the last write to the hash. */
  ghost predicate OfflineSaidSince(log: seq<Note>) {
    exists k :: 0 <= k < |log| && log[k] == SaidOffline && Touched !in log[k..]
  }

  ghost predicate WillNotice(p: Proc) {
    p.pc == AtLen || p.pc == AtPublishOffline
  }

  ghost predicate Inv(s: State) {
    && (Touched in s.log && s.hash == {} && !OfflineSaidSince(s.log) ==> exists i :: 0 <= i < |s.procs| && WillNotice(s.procs[i]))
    && (s.hash != {} ==> Touched in s.log)
  }

  lemma SaidStays(log: seq<Note>, n: Note)
    requires OfflineSaidSince(log) && n != Touched
    ensures OfflineSaidSince(log + [n])
  {
    var k :| 0 <= k < |log| && log[k] == SaidOffline && Touched !in log[k..];
    assert (log + [n])[k..] == log[k..] + [n];
  }

  lemma SaidNow(log: seq<Note>)
    ensures OfflineSaidSince(log + [SaidOffline])
  {
    assert (log + [SaidOffline])[|log|..] == [SaidOffline];
  }

  lemma StepKeepsInv(s: State, a: Action)
    requires Inv(s)
    ensures Inv(Step(s, a))
  {
    var s' := Step(s, a);
    if a.Begin? {
      forall i | 0 <= i < |s.procs| ensures s'.procs[i] == s.procs[i] {}
    } else if a.who < |s.procs| {
      var p := s.procs[a.who];
      forall i | 0 <= i < |s.procs| && i != a.who ensures s'.procs[i] == s.procs[i] {}
      if p.pc == AtDel && p.call.conn in s.hash { assert WillNotice(s'.procs[a.who]); }
      if p.pc == AtLen && s.hash == {} { assert WillNotice(s'.procs[a.who]); }
      if p.pc == AtPublishOffline { SaidNow(s.log); }
      if p.pc == AtPublishOnline && OfflineSaidSince(s.log) { SaidStays(s.log, SaidOnline); }
    }
  }

  lemma {:induction false} RunKeepsInv(s: State, acts: seq<Action>)
    requires Inv(s)
    ensures Inv(Run(s, acts))
    decreases |acts|
  {
    if acts != [] {
      StepKeepsInv(s, acts[0]);
      RunKeepsInv(Step(s, acts[0]), acts[1..]);
    }
  }

  /**
   Under every interleaving, once all calls have finished and the hash is empty after having been
   written, an offline notice was published after the last write.
   */
  lemma OfflineNoticeNeverLost(acts: seq<Action>)
    requires var s := Run(Idle, acts);
             && s.hash == {} && Touched in s.log
             && forall i | 0 <= i < |s.procs| :: s.procs[i].pc == Finished
    ensures OfflineSaidSince(Run(Idle, acts).log)
  {
    RunKeepsInv(Idle, acts);
  }

  /** It need not be the last notice: an online notice can overtake it, and listeners are then left with the wrong one. */
  lemma LastNoticeMayBeStale()
    ensures var acts := [Begin(Online(1)), Advance(0), Advance(0), Begin(Offline(1)), Advance(1), Advance(1), Advance(1), Advance(0)];
            var s := Run(Idle, acts);
            s.hash == {} && s.procs[0].pc == Finished && s.procs[1].pc == Finished && s.log == [Touched, SaidOffline, SaidOnline]
  {
  }

  lemma {:induction false} RunAppend(s: State, a: seq<Action>, b: seq<Action>)
    ensures Run(s, a + b) == Run(Run(s, a), b)
    decreases |a|
  {
    if a == [] {
      assert a + b == b;
    } else {
      assert (a + b)[1..] == a[1..] + b;
      RunAppend(Step(s, a[0]), a[1..], b);
    }
  }

  lemma RunThree(s: State, a: Action, b: Action, c: Action)
    ensures Run(s, [a, b, c]) == Step(Step(Step(s, a), b), c)
  {
    assert Run(Step(Step(s, a), b), [c]) == Step(Step(Step(s, a), b), c);
  }

  // ---------- Calls that run alone ----------

  /** The effect of one call nobody interrupts: the new hash, and what it adds to the log. */
  function Alone(hash: set<ConnId>, c: Call): (set<ConnId>, seq<Note>) {
    match c
    case Online(x) => (hash + {x}, [Touched, SaidOnline])
    case Heartbeat(x) => (hash + {x}, [Touched])
    case Offline(x) => if x !in hash then (hash, []) else (hash - {x}, if hash - {x} == {} then [SaidOffline] else [])
  }

  /** A call nobody interrupts says what changed: offline exactly when the last connection goes, online with every online call. */
  lemma AloneSaysWhatChanged(hash: set<ConnId>, c: Call)
    ensures var (hash', notes) := Alone(hash, c);
            && hash' == (if c.Offline? then hash - {c.conn} else hash + {c.conn})
            && (SaidOffline in notes <==> hash != {} && hash' == {})
            && (SaidOnline in notes <==> c.Online?) && (Touched in notes <==> !c.Offline?)
            && |notes| == (if c.Online? then 2 else if c.Heartbeat? || SaidOffline in notes then 1 else 0)
            && (c.Online? ==> notes[1] == SaidOnline)
  {
  }

  /** Three steps take a call from its beginning to its end, if nobody else moves. */
  lemma ThreeSteps(s: State, c: Call)
    ensures var i := |s.procs|;
            var s' := Step(Step(Step(Step(s, Begin(c)), Advance(i)), Advance(i)), Advance(i));
            && s'.hash == Alone(s.hash, c).0
            && s'.log == s.log + Alone(s.hash, c).1
            && s'.procs == s.procs + [Proc(c, Finished)]
  {
  }

  /** Running alone is one of the interleavings. */
  lemma AloneIsARun(s: State, c: Call)
    ensures var i := |s.procs|;
            var s' := Run(s, [Begin(c), Advance(i), Advance(i), Advance(i)]);
            && s'.hash == Alone(s.hash, c).0
            && s'.log == s.log + Alone(s.hash, c).1
            && s'.procs == s.procs + [Proc(c, Finished)]
  {
    var i := |s.procs|;
    ThreeSteps(s, c);
    RunAppend(s, [Begin(c), Advance(i), Advance(i)], [Advance(i)]);
    assert [Begin(c), Advance(i), Advance(i)] + [Advance(i)] == [Begin(c), Advance(i), Advance(i), Advance(i)];
    RunThree(s, Begin(c), Advance(i), Advance(i));
  }
}
