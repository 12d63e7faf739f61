/**
 Whether the last thing published about a user who has ended up offline is that they are. It is not
 in general; this module has the exact condition, checked when a call begins.
 */
module PresenceNotices {
  import opened Presence

  ghost predicate AtRest(s: State) {
    forall i | 0 <= i < |s.procs| :: s.procs[i].pc == Finished
  }

  /** If the user has ended up offline, the last thing said was so. */
  ghost predicate EndsRight(s: State) {
    AtRest(s) && s.hash == {} && s.log != [] ==> s.log[|s.log| - 1] == SaidOffline
  }

  // ---------- The condition ----------

  /** An unfinished call that must not meet `c`: the connection's other transition. */
  predicate Conflicts(p: Proc, c: Call) {
    || (c.Offline? && p.call == Online(c.conn) && p.pc != Finished)
    || (c.Online? && p == Proc(Offline(c.conn), AtDel))
  }

  ghost predicate Clear(s: State, c: Call) {
    forall i | 0 <= i < |s.procs| :: !Conflicts(s.procs[i], c)
  }

  ghost predicate Guarded(s: State, acts: seq<Action>)
    decreases |acts|
  {
    acts == [] || ((acts[0].Begin? ==> Clear(s, acts[0].call)) && Guarded(Step(s, acts[0]), acts[1..]))
  }

  /** However the unfinished calls and any later guarded ones interleave from here, it ends right. */
  ghost predicate Safe(s: State) {
    forall rest | Guarded(s, rest) :: EndsRight(Run(s, rest))
  }

  // ---------- Clear calls end right ----------

  /** A call takes the steps of its kind only. */
  predicate InOrder(p: Proc) {
    match p.call
    case Online(_) => p.pc == AtSet || p.pc == AtExpire || p.pc == AtPublishOnline || p.pc == Finished
    case Heartbeat(_) => p.pc == AtSet || p.pc == AtExpire || p.pc == Finished
    case Offline(_) => p.pc == AtDel || p.pc == AtLen || p.pc == AtPublishOffline || p.pc == Finished
  }

  predicate WillSayOnline(p: Proc) {
    p.call.Online? && (p.pc == AtExpire || p.pc == AtPublishOnline)
  }

  /** An online call past its write, and short of its notice, still has its connection in the hash. */
  predicate Holds(hash: set<ConnId>, p: Proc) {
    WillSayOnline(p) ==> p.call.conn in hash
  }

  ghost predicate NoticeComing(s: State) {
    exists i :: 0 <= i < |s.procs| && WillNotice(s.procs[i])
  }

  ghost predicate Sound(s: State) {
    && (forall i | 0 <= i < |s.procs| :: InOrder(s.procs[i]) && Holds(s.hash, s.procs[i]))
    && (forall i, j | 0 <= i < |s.procs| && 0 <= j < |s.procs| && s.procs[j].pc == AtDel :: !Conflicts(s.procs[i], s.procs[j].call))
    && (s.hash == {} && s.log != [] && s.log[|s.log| - 1] != SaidOffline ==> NoticeComing(s))
  }

  lemma OthersStay(s: State, i: nat)
    requires i < |s.procs|
    ensures |StepProc(s, i).procs| == |s.procs| && StepProc(s, i).procs[i].call == s.procs[i].call
    ensures forall j | 0 <= j < |s.procs| && j != i :: StepProc(s, i).procs[j] == s.procs[j]
  {
  }

  lemma NoticeStillComing(s: State, i: nat)
    requires Sound(s) && i < |s.procs|
    requires var s' := StepProc(s, i); s'.hash == {} && s'.log != [] && s'.log[|s'.log| - 1] != SaidOffline
    ensures NoticeComing(StepProc(s, i))
  {
    OthersStay(s, i);
    var s' := StepProc(s, i);
    assert Holds(s.hash, s.procs[i]) && InOrder(s.procs[i]);
    if s.procs[i].pc == AtDel && s.procs[i].call.conn in s.hash {
      assert WillNotice(s'.procs[i]);
    } else {
      var j :| 0 <= j < |s.procs| && WillNotice(s.procs[j]);
      assert WillNotice(s'.procs[j]);
    }
  }

  lemma StepProcKeepsSound(s: State, i: nat)
    requires Sound(s) && i < |s.procs|
    ensures Sound(StepProc(s, i))
  {
    OthersStay(s, i);
    var s' := StepProc(s, i);
    forall j | 0 <= j < |s'.procs| ensures InOrder(s'.procs[j]) && Holds(s'.hash, s'.procs[j]) {
      assert InOrder(s.procs[j]) && Holds(s.hash, s.procs[j]);
      assert s.procs[i].pc == AtDel ==> !Conflicts(s.procs[j], s.procs[i].call);
    }
    forall j, k | 0 <= j < |s'.procs| && 0 <= k < |s'.procs| && s'.procs[k].pc == AtDel
      ensures !Conflicts(s'.procs[j], s'.procs[k].call)
    {
      assert !Conflicts(s.procs[j], s.procs[k].call);
    }
    if s'.hash == {} && s'.log != [] && s'.log[|s'.log| - 1] != SaidOffline { NoticeStillComing(s, i); }
  }

  lemma BeginKeepsSound(s: State, c: Call)
    requires Sound(s) && Clear(s, c)
    ensures Sound(Step(s, Begin(c)))
  {
    var s' := Step(s, Begin(c));
    forall j | 0 <= j < |s.procs| ensures s'.procs[j] == s.procs[j] && !Conflicts(s.procs[j], c) {}
    if NoticeComing(s) {
      var j :| 0 <= j < |s.procs| && WillNotice(s.procs[j]);
      assert WillNotice(s'.procs[j]);
    }
  }

  lemma {:induction false} GuardedRunKeepsSound(s: State, acts: seq<Action>)
    requires Sound(s) && Guarded(s, acts)
    ensures Sound(Run(s, acts))
    decreases |acts|
  {
    if acts != [] {
      if acts[0].Begin? { BeginKeepsSound(s, acts[0].call); }
      else if acts[0].who < |s.procs| { StepProcKeepsSound(s, acts[0].who); }
      GuardedRunKeepsSound(Step(s, acts[0]), acts[1..]);
    }
  }

  lemma SoundIsSafe(s: State)
    requires Sound(s)
    ensures Safe(s)
  {
    forall rest | Guarded(s, rest) ensures EndsRight(Run(s, rest)) { GuardedRunKeepsSound(s, rest); }
  }

  // ---------- Other calls can go wrong ----------

  lemma UnsafeBefore(s: State, a: Action)
    requires !Safe(Step(s, a)) && (a.Begin? ==> Clear(s, a.call))
    ensures !Safe(s)
  {
    var rest :| Guarded(Step(s, a), rest) && !EndsRight(Run(Step(s, a), rest));
    var all := [a] + rest;
    assert all[0] == a && all[1..] == rest;
    assert Guarded(s, all) && Run(s, all) == Run(Step(s, a), rest);
  }

  /** Call `p` brings `x` online and has not said so; call `q` is about to take it away. */
  ghost predicate Racing(s: State, p: nat, q: nat, x: ConnId) {
    && p < |s.procs| && q < |s.procs| && p != q
    && s.procs[p].call == Online(x) && s.procs[p].pc != Finished
    && s.procs[q] == Proc(Offline(x), AtDel)
    && (forall i | 0 <= i < |s.procs| :: InOrder(s.procs[i]))
    && (s.procs[p].pc != AtSet ==> x in s.hash && forall i | 0 <= i < |s.procs| && i != q :: s.procs[i] != Proc(Offline(x), AtDel))
  }

  function Weight(pc: Pc): nat {
    match pc
    case AtSet => 6 case AtExpire => 2 case AtPublishOnline => 1
    case AtDel => 3 case AtLen => 2 case AtPublishOffline => 1
    case Finished => 0
  }

  function Work(ps: seq<Proc>): nat {
    if ps == [] then 0 else Work(ps[..|ps| - 1]) + Weight(ps[|ps| - 1].pc)
  }

  lemma {:induction false} WorkUpdate(ps: seq<Proc>, i: nat, p: Proc)
    requires i < |ps|
    ensures Work(ps[i := p]) == Work(ps) - Weight(ps[i].pc) + Weight(p.pc)
    decreases |ps|
  {
    var n := |ps| - 1;
    if i < n {
      assert ps[i := p][..n] == ps[..n][i := p];
      WorkUpdate(ps[..n], i, p);
    } else {
      assert ps[i := p][..n] == ps[..n];
    }
  }

  lemma WorkAppend(ps: seq<Proc>, p: Proc)
    ensures Work(ps + [p]) == Work(ps) + Weight(p.pc)
  {
    assert (ps + [p])[..|ps|] == ps;
  }

  /** What is left to do: steps of the calls, and a closing call for every other connection. */
  function Left(s: State, x: ConnId): nat {
    Work(s.procs) + 3 * |s.hash - {x}|
  }

  ghost predicate OthersFinished(s: State, p: nat, q: nat) {
    forall j | 0 <= j < |s.procs| && j != p && j != q :: s.procs[j].pc == Finished
  }

  lemma RaceGoesOn(s: State, p: nat, q: nat, x: ConnId, i: nat)
    requires Racing(s, p, q, x) && i < |s.procs| && i != q
    requires i == p ==> s.procs[p].pc != AtPublishOnline && OthersFinished(s, p, q)
    ensures Racing(StepProc(s, i), p, q, x)
  {
    OthersStay(s, i);
    assert InOrder(s.procs[i]);
  }

  lemma LessLeft(s: State, x: ConnId, i: nat)
    requires i < |s.procs| && s.procs[i].pc != Finished && InOrder(s.procs[i])
    ensures Left(StepProc(s, i), x) < Left(s, x)
  {
    WorkUpdate(s.procs, i, StepProc(s, i).procs[i]);
    OthersAfterStep(s, x, i);
  }

  lemma OthersAfterStep(s: State, x: ConnId, i: nat)
    requires i < |s.procs|
    ensures |StepProc(s, i).hash - {x}| <= |s.hash - {x}| + if s.procs[i].pc == AtSet then 1 else 0
  {
    var hash', c := StepProc(s, i).hash, s.procs[i].call.conn;
    if s.procs[i].pc == AtSet {
      SubsetSize(hash' - {x}, (s.hash - {x}) + {c});
    } else {
      SubsetSize(hash' - {x}, s.hash - {x});
    }
  }

  lemma SubsetSize(a: set<ConnId>, b: set<ConnId>)
    requires a <= b
    ensures |a| <= |b|
  {
    assert b == a + (b - a);
  }

  lemma OtherLeaves(s: State, p: nat, q: nat, x: ConnId, y: ConnId)
    requires Racing(s, p, q, x) && y in s.hash && y != x
    requires OthersFinished(s, p, q)
    ensures Clear(s, Offline(y))
    ensures var s2 := Step(Step(s, Begin(Offline(y))), Advance(|s.procs|));
            Racing(s2, p, q, x) && Left(s2, x) < Left(s, x)
  {
    TakenAway(s, y);
    RaceSurvives(s, p, q, x, y);
    WorkAppend(s.procs, Proc(Offline(y), AtLen));
    assert s.hash - {x} == (s.hash - {y} - {x}) + {y};
  }

  lemma RaceSurvives(s: State, p: nat, q: nat, x: ConnId, y: ConnId)
    requires Racing(s, p, q, x) && y != x
    ensures Racing(State(s.hash - {y}, s.procs + [Proc(Offline(y), AtLen)], s.log), p, q, x)
  {
    var ps := s.procs + [Proc(Offline(y), AtLen)];
    assert forall i | 0 <= i < |s.procs| :: ps[i] == s.procs[i];
  }

  lemma TakenAway(s: State, y: ConnId)
    requires y in s.hash
    ensures Step(Step(s, Begin(Offline(y))), Advance(|s.procs|))
            == State(s.hash - {y}, s.procs + [Proc(Offline(y), AtLen)], s.log)
  {
  }

  /** Taking the connection away between its write and its notice leaves the wrong notice last. */
  lemma RaceEndsWrong(s: State, p: nat, q: nat, x: ConnId)
    requires Racing(s, p, q, x) && s.hash == {x} && s.procs[p].pc == AtPublishOnline
    requires OthersFinished(s, p, q)
    ensures !Safe(s)
  {
    var s1 := Step(s, Advance(q));
    var s2 := Step(s1, Advance(q));
    var s3 := Step(s2, Advance(q));
    var s4 := Step(s3, Advance(p));
    assert s4.log == s.log + [SaidOffline] + [SaidOnline];
    assert Run(s4, []) == s4 && Guarded(s4, []) && !Safe(s4);
    UnsafeBefore(s3, Advance(p));
    UnsafeBefore(s2, Advance(q));
    UnsafeBefore(s1, Advance(q));
    UnsafeBefore(s, Advance(q));
  }

  /** Wherever the others stand: let them finish, close the other connections, and the race can be lost. */
  lemma {:induction false} RaceIsUnsafe(s: State, p: nat, q: nat, x: ConnId)
    requires Racing(s, p, q, x)
    ensures !Safe(s)
    decreases Left(s, x)
  {
    if i: nat :| i < |s.procs| && i != p && i != q && s.procs[i].pc != Finished {
      RaceGoesOn(s, p, q, x, i);
      LessLeft(s, x, i);
      RaceIsUnsafe(StepProc(s, i), p, q, x);
      UnsafeBefore(s, Advance(i));
    } else if y :| y in s.hash && y != x {
      OtherLeaves(s, p, q, x, y);
      var s1 := Step(s, Begin(Offline(y)));
      RaceIsUnsafe(Step(s1, Advance(|s.procs|)), p, q, x);
      UnsafeBefore(s1, Advance(|s.procs|));
      UnsafeBefore(s, Begin(Offline(y)));
    } else if s.procs[p].pc != AtPublishOnline {
      RaceGoesOn(s, p, q, x, p);
      LessLeft(s, x, p);
      RaceIsUnsafe(StepProc(s, p), p, q, x);
      UnsafeBefore(s, Advance(p));
    } else {
      assert InOrder(s.procs[p]);
      RaceEndsWrong(s, p, q, x);
    }
  }

  lemma UnclearIsUnsafe(s: State, c: Call)
    requires Sound(s) && !Clear(s, c)
    ensures !Safe(Step(s, Begin(c)))
  {
    var i :| 0 <= i < |s.procs| && Conflicts(s.procs[i], c);
    var n := |s.procs|;
    var s' := Step(s, Begin(c));
    assert forall j | 0 <= j < n :: s'.procs[j] == s.procs[j] && InOrder(s.procs[j]);
    if c.Offline? {
      assert Holds(s.hash, s.procs[i]);
      forall j | 0 <= j < n ensures s'.procs[j] != Proc(Offline(c.conn), AtDel) {
        assert s.procs[j].pc == AtDel ==> !Conflicts(s.procs[i], s.procs[j].call);
      }
      RaceIsUnsafe(s', i, n, c.conn);
    } else {
      RaceIsUnsafe(s', n, i, c.conn);
    }
  }

  /**
   After any guarded run, beginning one more call keeps the last notice of an offline user right,
   under every guarded continuation, if and only if the connection has no unfinished online call
   (for an offline call) or no offline call yet to delete it (for an online call).
   */
  lemma RightExactlyWhenClear(acts: seq<Action>, c: Call)
    requires Guarded(Idle, acts)
    ensures Clear(Run(Idle, acts), c) <==> Safe(Step(Run(Idle, acts), Begin(c)))
  {
    GuardedRunKeepsSound(Idle, acts);
    if Clear(Run(Idle, acts), c) {
      BeginKeepsSound(Run(Idle, acts), c);
      SoundIsSafe(Step(Run(Idle, acts), Begin(c)));
    } else {
      UnclearIsUnsafe(Run(Idle, acts), c);
    }
  }

  /** In particular every guarded run from an idle store ends right. */
  lemma GuardedRunsEndRight(acts: seq<Action>)
    requires Guarded(Idle, acts)
    ensures EndsRight(Run(Idle, acts))
  {
    GuardedRunKeepsSound(Idle, acts);
  }
}
