/**
 Whether the last notice tells the truth, once all calls have finished, for users who end up online
 and for users who end up offline. The exact condition on beginning a call.
 */
module PresenceTruth {
  import opened Presence
  import opened PresenceNotices

  // ---------- The last notice ----------

  /** An offline call past its count speaks even if another connection comes, and says so, meanwhile. */
  lemma OfflineOvertakes(s: State, k: nat, y: ConnId)
    requires k < |s.procs| && s.procs[k].pc == AtPublishOffline
    ensures var n := |s.procs|;
            var s' := Run(s, [Begin(Online(y)), Advance(n), Advance(n), Advance(n), Advance(k)]);
            && |s'.procs| == n + 1 && y in s'.hash && s'.log == s.log + [Touched, SaidOnline, SaidOffline]
            && s'.procs[k].pc == Finished && s'.procs[n].pc == Finished
  {
    var n := |s.procs|;
    var s1 := Run(s, [Begin(Online(y)), Advance(n), Advance(n), Advance(n)]);
    AloneIsARun(s, Online(y));
    RunAppend(s, [Begin(Online(y)), Advance(n), Advance(n), Advance(n)], [Advance(k)]);
    assert [Begin(Online(y)), Advance(n), Advance(n), Advance(n)] + [Advance(k)]
        == [Begin(Online(y)), Advance(n), Advance(n), Advance(n), Advance(k)];
    assert Run(s1, [Advance(k)]) == Run(Step(s1, Advance(k)), [Advance(k)][1..]);
  }

  /** What listeners were told last. */
  function LastNotice(log: seq<Note>): (n: Note)
    ensures n == Touched <==> forall i | 0 <= i < |log| :: log[i] == Touched
  {
    if log == [] then Touched
    else if log[|log| - 1] != Touched then log[|log| - 1]
    else LastNotice(log[..|log| - 1])
  }

  lemma NoticeAfter(log: seq<Note>, n: Note)
    ensures LastNotice(log + [n]) == if n == Touched then LastNotice(log) else n
  {
    assert (log + [n])[..|log|] == log;
  }

  /** At rest, the last notice says whether the user has a connection. */
  ghost predicate Truthful(s: State) {
    AtRest(s) && s.log != [] ==> LastNotice(s.log) == if s.hash == {} then SaidOffline else SaidOnline
  }

  // ---------- The condition ----------

  ghost predicate At(s: State, pc: Pc) {
    exists i :: 0 <= i < |s.procs| && s.procs[i].pc == pc
  }

  /** An offline call is about to take `x` away. */
  ghost predicate Taking(s: State, x: ConnId) {
    exists i :: 0 <= i < |s.procs| && s.procs[i] == Proc(Offline(x), AtDel)
  }

  /** A connection nobody is about to take away. */
  ghost predicate Anchored(s: State, x: ConnId) {
    x in s.hash && !Taking(s, x)
  }

  ghost predicate SomeAnchored(s: State) {
    exists x :: Anchored(s, x)
  }

  predicate IsSaying(p: Proc) {
    p.call.Online? && p.pc != Finished
  }

  /** An online call has its notice still to come. */
  ghost predicate Saying(s: State) {
    exists i :: 0 <= i < |s.procs| && IsSaying(s.procs[i])
  }

  predicate SetOf(p: Proc, x: ConnId) {
    p.pc == AtSet && p.call.conn == x
  }

  ghost predicate ContestedSet(s: State, p: Proc) {
    p.pc == AtSet && Taking(s, p.call.conn)
  }

  /** Some connection about to be written is also about to be taken away. */
  ghost predicate Contested(s: State) {
    exists i :: 0 <= i < |s.procs| && ContestedSet(s, s.procs[i])
  }

  ghost predicate OneSet(s: State) {
    forall i, j | 0 <= i < |s.procs| && 0 <= j < |s.procs| && s.procs[i].pc == AtSet && s.procs[j].pc == AtSet :: i == j
  }

  /**
   Every way to go on from here is truthful. Three cases: a connection is there to stay; none is, and
   none is on its way; none is, but some are on their way.
   */
  ghost predicate Good(s: State) {
    var last := LastNotice(s.log);
    if SomeAnchored(s) then
      !At(s, AtPublishOffline) && (last == SaidOnline || Saying(s))
    else if !At(s, AtSet) then
      !Saying(s) && (s.hash != {} || At(s, AtLen) || At(s, AtPublishOffline) || last == SaidOffline || s.log == [])
    else
      && s.hash == {} && !At(s, AtLen) && !At(s, AtPublishOffline)
      && (if Contested(s) then OneSet(s) && !Saying(s) && last == SaidOnline else last == SaidOnline || Saying(s))
  }

  ghost predicate WellOrdered(s: State) {
    && (forall i | 0 <= i < |s.procs| :: InOrder(s.procs[i]))
    && (s.hash != {} ==> s.log != [])
  }

  // ---------- What one step changes ----------

  lemma StepKeepsOrder(s: State, i: nat)
    requires WellOrdered(s) && i < |s.procs|
    ensures WellOrdered(StepProc(s, i))
  {
    OthersStay(s, i);
    forall j | 0 <= j < |s.procs| ensures InOrder(StepProc(s, i).procs[j]) { assert InOrder(s.procs[j]); }
  }

  lemma AtAfter(s: State, i: nat, pc: Pc)
    requires i < |s.procs|
    ensures var s' := StepProc(s, i);
            && (s'.procs[i].pc == pc ==> At(s', pc))
            && (At(s, pc) && s.procs[i].pc != pc ==> At(s', pc))
            && (At(s', pc) && s'.procs[i].pc != pc ==> At(s, pc))
  {
    OthersStay(s, i);
    var s' := StepProc(s, i);
    if s'.procs[i].pc == pc {
    } else if At(s', pc) {
      var j :| 0 <= j < |s'.procs| && s'.procs[j].pc == pc;
      assert s.procs[j].pc == pc;
    }
    if At(s, pc) && s.procs[i].pc != pc {
      var j :| 0 <= j < |s.procs| && s.procs[j].pc == pc;
      assert s'.procs[j].pc == pc;
    }
  }

  lemma TakingAfter(s: State, i: nat, x: ConnId)
    requires i < |s.procs|
    ensures Taking(StepProc(s, i), x) ==> Taking(s, x)
    ensures Taking(s, x) && s.procs[i] != Proc(Offline(x), AtDel) ==> Taking(StepProc(s, i), x)
  {
    OthersStay(s, i);
    var s' := StepProc(s, i);
    if Taking(s', x) {
      var j :| 0 <= j < |s'.procs| && s'.procs[j] == Proc(Offline(x), AtDel);
      assert s.procs[j] == Proc(Offline(x), AtDel);
    }
    if Taking(s, x) && s.procs[i] != Proc(Offline(x), AtDel) {
      var j :| 0 <= j < |s.procs| && s.procs[j] == Proc(Offline(x), AtDel);
      assert s'.procs[j] == Proc(Offline(x), AtDel);
    }
  }

  lemma SayingAfter(s: State, i: nat)
    requires i < |s.procs|
    ensures Saying(StepProc(s, i)) ==> Saying(s)
    ensures Saying(s) && s.procs[i].pc != AtPublishOnline && InOrder(s.procs[i]) ==> Saying(StepProc(s, i))
  {
    OthersStay(s, i);
    var s' := StepProc(s, i);
    if Saying(s') {
      var j :| 0 <= j < |s'.procs| && IsSaying(s'.procs[j]);
      assert IsSaying(s.procs[j]);
    }
    if Saying(s) && s.procs[i].pc != AtPublishOnline && InOrder(s.procs[i]) {
      var j :| 0 <= j < |s.procs| && IsSaying(s.procs[j]);
      assert IsSaying(s'.procs[j]);
    }
  }

  lemma ContestedAfter(s: State, i: nat)
    requires i < |s.procs|
    ensures Contested(StepProc(s, i)) ==> Contested(s)
    ensures Contested(s) && s.procs[i].pc != AtSet && s.procs[i].pc != AtDel ==> Contested(StepProc(s, i))
  {
    OthersStay(s, i);
    var s' := StepProc(s, i);
    if Contested(s') {
      var j :| 0 <= j < |s'.procs| && ContestedSet(s', s'.procs[j]);
      TakingAfter(s, i, s.procs[j].call.conn);
      assert ContestedSet(s, s.procs[j]);
    }
    if Contested(s) && s.procs[i].pc != AtSet && s.procs[i].pc != AtDel {
      var j :| 0 <= j < |s.procs| && ContestedSet(s, s.procs[j]);
      TakingAfter(s, i, s.procs[j].call.conn);
      assert ContestedSet(s', s'.procs[j]);
    }
  }

  lemma OneSetAfter(s: State, i: nat)
    requires i < |s.procs|
    ensures OneSet(s) ==> OneSet(StepProc(s, i))
    ensures !OneSet(s) && s.procs[i].pc != AtSet ==> !OneSet(StepProc(s, i))
    ensures !OneSet(s) ==> At(StepProc(s, i), AtSet)
    ensures OneSet(s) && s.procs[i].pc == AtSet ==> !At(StepProc(s, i), AtSet)
  {
    OthersStay(s, i);
    var s' := StepProc(s, i);
    assert forall j | 0 <= j < |s.procs| :: s'.procs[j].pc == AtSet <==> j != i && s.procs[j].pc == AtSet;
    if !OneSet(s) {
      var j, k :| 0 <= j < |s.procs| && 0 <= k < |s.procs| && s.procs[j].pc == AtSet && s.procs[k].pc == AtSet && j != k;
      assert s'.procs[if j == i then k else j].pc == AtSet;
    }
  }

  /** Nothing gets an anchor but by being written, and nothing loses one. */
  lemma AnchoredAfter(s: State, i: nat, x: ConnId)
    requires i < |s.procs| && InOrder(s.procs[i])
    ensures Anchored(s, x) ==> Anchored(StepProc(s, i), x)
    ensures Anchored(StepProc(s, i), x) && !SetOf(s.procs[i], x) ==> Anchored(s, x)
  {
    TakingAfter(s, i, x);
  }

  lemma NoneAnchoredAfter(s: State, i: nat)
    requires i < |s.procs| && InOrder(s.procs[i]) && s.procs[i].pc != AtSet && !SomeAnchored(s)
    ensures !SomeAnchored(StepProc(s, i))
  {
    forall x ensures !Anchored(StepProc(s, i), x) { AnchoredAfter(s, i, x); }
  }

  /** A write anchors its connection, unless that is about to be taken away. */
  lemma AnchoredBySet(s: State, i: nat)
    requires i < |s.procs| && s.procs[i].pc == AtSet && s.hash == {}
    ensures StepProc(s, i).hash == {s.procs[i].call.conn}
    ensures SomeAnchored(StepProc(s, i)) <==> !ContestedSet(s, s.procs[i])
  {
    var s', y := StepProc(s, i), s.procs[i].call.conn;
    TakingAfter(s, i, y);
    if !Taking(s, y) { assert Anchored(s', y); }
    forall x | x != y ensures !Anchored(s', x) {}
  }

  lemma LastAfter(s: State, i: nat)
    requires i < |s.procs|
    ensures LastNotice(StepProc(s, i).log) == match s.procs[i].pc
                                              case AtPublishOnline => SaidOnline
                                              case AtPublishOffline => SaidOffline
                                              case _ => LastNotice(s.log)
  {
    match s.procs[i].pc
    case AtSet => NoticeAfter(s.log, Touched);
    case AtPublishOnline => NoticeAfter(s.log, SaidOnline);
    case AtPublishOffline => NoticeAfter(s.log, SaidOffline);
    case _ =>
  }

  // ---------- Steps keep a good state good ----------

  lemma AnchoredStaysGood(s: State, i: nat, x: ConnId)
    requires Good(s) && Anchored(s, x) && i < |s.procs| && InOrder(s.procs[i])
    ensures Good(StepProc(s, i))
  {
    AnchoredAfter(s, i, x);
    AtAfter(s, i, AtPublishOffline);
    SayingAfter(s, i);
    LastAfter(s, i);
  }

  lemma NobodyComingStaysGood(s: State, i: nat)
    requires Good(s) && !SomeAnchored(s) && !At(s, AtSet) && i < |s.procs| && InOrder(s.procs[i])
    ensures Good(StepProc(s, i))
  {
    var s' := StepProc(s, i);
    NoneAnchoredAfter(s, i);
    AtAfter(s, i, AtSet);
    AtAfter(s, i, AtLen);
    AtAfter(s, i, AtPublishOffline);
    SayingAfter(s, i);
    LastAfter(s, i);
    assert !IsSaying(s.procs[i]);
  }

  lemma SomebodyComingStaysGood(s: State, i: nat)
    requires Good(s) && !SomeAnchored(s) && At(s, AtSet) && i < |s.procs| && InOrder(s.procs[i])
    ensures Good(StepProc(s, i))
  {
    AtAfter(s, i, AtSet);
    AtAfter(s, i, AtLen);
    AtAfter(s, i, AtPublishOffline);
    SayingAfter(s, i);
    LastAfter(s, i);
    ContestedAfter(s, i);
    OneSetAfter(s, i);
    if s.procs[i].pc == AtSet {
      AnchoredBySet(s, i);
      if ContestedSet(s, s.procs[i]) { assert Contested(s); }
    } else {
      NoneAnchoredAfter(s, i);
      if IsSaying(s.procs[i]) { assert Saying(s); }
    }
  }

  lemma StepStaysGood(s: State, i: nat)
    requires Good(s) && WellOrdered(s) && i < |s.procs|
    ensures Good(StepProc(s, i))
  {
    if x :| Anchored(s, x) {
      AnchoredStaysGood(s, i, x);
    } else if !At(s, AtSet) {
      NobodyComingStaysGood(s, i);
    } else {
      SomebodyComingStaysGood(s, i);
    }
  }

  // ---------- A state that is not good can go wrong ----------

  /** Letting call `i` take its next step is no way out. */
  ghost predicate StaysBad(s: State, i: nat) {
    i < |s.procs| && s.procs[i].pc != Finished && !Good(StepProc(s, i))
  }

  lemma StillThere(s: State, i: nat, j: nat)
    requires i < |s.procs| && j < |s.procs| && i != j
    ensures At(StepProc(s, i), s.procs[j].pc) && (IsSaying(s.procs[j]) ==> Saying(StepProc(s, i)))
  {
    OthersStay(s, i);
    assert StepProc(s, i).procs[j] == s.procs[j];
  }

  /** Someone is there to stay, and an offline notice is on its way or no online one ever will be. */
  lemma AnchoredGoesBad(s: State, x: ConnId) returns (i: nat)
    requires WellOrdered(s) && !Good(s) && Anchored(s, x) && !AtRest(s)
    ensures StaysBad(s, i)
  {
    var k :| 0 <= k < |s.procs| && s.procs[k].pc != Finished && (At(s, AtPublishOffline) ==> s.procs[k].pc == AtPublishOffline)
      by { if !At(s, AtPublishOffline) { var j :| 0 <= j < |s.procs| && s.procs[j].pc != Finished; } }
    i := k;
    if At(s, AtPublishOffline) {
      if j: nat :| j < |s.procs| && j != k && s.procs[j].pc != Finished {
        i := j;
        StillThere(s, j, k);
      } else {
        OthersStay(s, k);
        forall j | 0 <= j < |s.procs| ensures !IsSaying(StepProc(s, k).procs[j]) {}
      }
    } else {
      assert !IsSaying(s.procs[k]);
    }
    AnchoredAfter(s, i, x);
    SayingAfter(s, i);
    LastAfter(s, i);
  }

  /** Nobody is there to stay or coming, and an online notice is, or no offline one ever will be. */
  lemma NobodyComingGoesBad(s: State) returns (i: nat)
    requires WellOrdered(s) && !Good(s) && !SomeAnchored(s) && !At(s, AtSet) && !AtRest(s)
    ensures StaysBad(s, i)
  {
    if p: nat :| p < |s.procs| && IsSaying(s.procs[p]) {
      if j: nat :| j < |s.procs| && j != p && s.procs[j].pc != Finished {
        i := j;
        StillThere(s, j, p);
      } else {
        i := p;
        LastOneSpeaks(s, p);
      }
    } else {
      i :| i < |s.procs| && s.procs[i].pc != Finished;
      assert !IsSaying(s.procs[i]);
    }
    NoneAnchoredAfter(s, i);
    AtAfter(s, i, AtSet);
    AtAfter(s, i, AtLen);
    AtAfter(s, i, AtPublishOffline);
    SayingAfter(s, i);
    LastAfter(s, i);
  }

  lemma LastOneSpeaks(s: State, p: nat)
    requires WellOrdered(s) && !SomeAnchored(s) && !At(s, AtSet) && p < |s.procs| && IsSaying(s.procs[p])
    requires forall j | 0 <= j < |s.procs| && j != p :: s.procs[j].pc == Finished
    ensures var s' := StepProc(s, p);
            Saying(s') || (s'.hash == {} && !At(s', AtLen) && !At(s', AtPublishOffline) && LastNotice(s'.log) == SaidOnline && s'.log != [])
  {
    OthersStay(s, p);
    LastAfter(s, p);
    forall x ensures x !in s.hash { assert !Anchored(s, x); assert !Taking(s, x); }
    assert s.hash == {};
    if s.procs[p].pc == AtExpire { assert IsSaying(StepProc(s, p).procs[p]); }
  }

  /** Somebody is coming, while the hash is not yet empty or an offline call has seen or will see it so. */
  lemma EmptyingGoesBad(s: State) returns (i: nat)
    requires WellOrdered(s) && !SomeAnchored(s) && At(s, AtSet)
    requires s.hash != {} || At(s, AtLen) || At(s, AtPublishOffline)
    ensures StaysBad(s, i)
  {
    var j :| 0 <= j < |s.procs| && s.procs[j].pc == AtSet;
    if s.hash != {} {
      var x :| x in s.hash;
      assert !Anchored(s, x);
      i :| i < |s.procs| && s.procs[i] == Proc(Offline(x), AtDel);
      AtAfter(s, i, AtLen);
    } else if k: nat :| k < |s.procs| && s.procs[k].pc == AtLen {
      i := k;
      AtAfter(s, i, AtPublishOffline);
    } else if ContestedSet(s, s.procs[j]) {
      i :| i < |s.procs| && s.procs[i] == Proc(Offline(s.procs[j].call.conn), AtDel);
      AtAfter(s, i, AtPublishOffline);
    } else {
      i := j;
      AnchoredBySet(s, j);
      AtAfter(s, j, AtPublishOffline);
    }
    if i != j {
      NoneAnchoredAfter(s, i);
      AtAfter(s, i, AtSet);
    }
  }

  /** Somebody is coming who may be taken away again after saying so, or whom nobody will announce. */
  lemma ComingGoesBad(s: State) returns (i: nat)
    requires WellOrdered(s) && !Good(s) && !SomeAnchored(s) && At(s, AtSet)
    requires s.hash == {} && !At(s, AtLen) && !At(s, AtPublishOffline)
    ensures StaysBad(s, i)
  {
    if j: nat :| j < |s.procs| && ContestedSet(s, s.procs[j]) {
      if Saying(s) || !OneSet(s) {
        i := j;
        AnchoredBySet(s, j);
        OneSetAfter(s, j);
      } else {
        i :| i < |s.procs| && s.procs[i] == Proc(Offline(s.procs[j].call.conn), AtDel);
        NoneAnchoredAfter(s, i);
        AtAfter(s, i, AtSet);
      }
    } else {
      i :| i < |s.procs| && s.procs[i].pc == AtSet;
      AnchoredBySet(s, i);
    }
    SayingAfter(s, i);
    LastAfter(s, i);
  }

  lemma BadGoesBad(s: State) returns (i: nat)
    requires WellOrdered(s) && !Good(s) && !AtRest(s)
    ensures StaysBad(s, i)
  {
    if x :| Anchored(s, x) {
      i := AnchoredGoesBad(s, x);
    } else if !At(s, AtSet) {
      i := NobodyComingGoesBad(s);
    } else if s.hash != {} || At(s, AtLen) || At(s, AtPublishOffline) {
      i := EmptyingGoesBad(s);
    } else {
      i := ComingGoesBad(s);
    }
  }

  // ---------- Whole runs ----------

  /** At rest, good is truthful. */
  lemma RestIsGoodIff(s: State)
    requires WellOrdered(s) && AtRest(s)
    ensures Good(s) <==> Truthful(s)
  {
    assert !At(s, AtSet) && !At(s, AtLen) && !At(s, AtPublishOffline) && !Saying(s);
    if x :| x in s.hash {
      assert !Taking(s, x);
      assert Anchored(s, x);
    }
  }

  /** A call may begin if that leaves the state good. */
  ghost predicate MayBegin(s: State, c: Call) {
    Good(Step(s, Begin(c)))
  }

  ghost predicate Admitted(s: State, acts: seq<Action>)
    decreases |acts|
  {
    acts == [] || ((acts[0].Begin? ==> MayBegin(s, acts[0].call)) && Admitted(Step(s, acts[0]), acts[1..]))
  }

  /** However the unfinished calls and any later admitted ones interleave from here, it ends with the true notice. */
  ghost predicate Trustworthy(s: State) {
    forall rest | Admitted(s, rest) :: Truthful(Run(s, rest))
  }

  lemma {:induction false} AdmittedRunStaysGood(s: State, acts: seq<Action>)
    requires Good(s) && WellOrdered(s) && Admitted(s, acts)
    ensures Good(Run(s, acts)) && WellOrdered(Run(s, acts))
    decreases |acts|
  {
    if acts != [] {
      if acts[0].Begin? { BeginKeepsOrder(s, acts[0].call); }
      else if acts[0].who < |s.procs| {
        StepStaysGood(s, acts[0].who);
        StepKeepsOrder(s, acts[0].who);
      }
      AdmittedRunStaysGood(Step(s, acts[0]), acts[1..]);
    }
  }

  lemma BeginKeepsOrder(s: State, c: Call)
    requires WellOrdered(s)
    ensures WellOrdered(Step(s, Begin(c)))
  {
    forall j | 0 <= j < |s.procs| ensures Step(s, Begin(c)).procs[j] == s.procs[j] && InOrder(s.procs[j]) {}
  }

  lemma UntrustworthyBefore(s: State, i: nat)
    requires i < |s.procs| && !Trustworthy(StepProc(s, i))
    ensures !Trustworthy(s)
  {
    var rest :| Admitted(StepProc(s, i), rest) && !Truthful(Run(StepProc(s, i), rest));
    var all := [Advance(i)] + rest;
    assert all[0] == Advance(i) && all[1..] == rest;
    assert Admitted(s, all) && Run(s, all) == Run(StepProc(s, i), rest);
  }

  lemma {:induction false} BadIsUntrustworthy(s: State)
    requires WellOrdered(s) && !Good(s)
    ensures !Trustworthy(s)
    decreases Work(s.procs)
  {
    if AtRest(s) {
      RestIsGoodIff(s);
      assert Admitted(s, []) && Run(s, []) == s;
    } else {
      var i := BadGoesBad(s);
      StepKeepsOrder(s, i);
      WorkUpdate(s.procs, i, StepProc(s, i).procs[i]);
      assert InOrder(s.procs[i]);
      OthersStay(s, i);
      assert StepProc(s, i).procs == s.procs[i := StepProc(s, i).procs[i]];
      BadIsUntrustworthy(StepProc(s, i));
      UntrustworthyBefore(s, i);
    }
  }

  lemma GoodIsTrustworthy(s: State)
    requires WellOrdered(s) && Good(s)
    ensures Trustworthy(s)
  {
    forall rest | Admitted(s, rest) ensures Truthful(Run(s, rest)) {
      AdmittedRunStaysGood(s, rest);
      if AtRest(Run(s, rest)) { RestIsGoodIff(Run(s, rest)); }
    }
  }

  /**
   After any run of admitted calls, a call may begin if and only if, under every interleaving of
   admitted calls that follows, the last notice at rest says whether the user is online.
   */
  lemma TruthfulExactlyWhenAdmitted(acts: seq<Action>, c: Call)
    requires Admitted(Idle, acts)
    ensures MayBegin(Run(Idle, acts), c) <==> Trustworthy(Step(Run(Idle, acts), Begin(c)))
  {
    assert Good(Idle);
    AdmittedRunStaysGood(Idle, acts);
    var s := Run(Idle, acts);
    BeginKeepsOrder(s, c);
    if MayBegin(s, c) { GoodIsTrustworthy(Step(s, Begin(c))); } else { BadIsUntrustworthy(Step(s, Begin(c))); }
  }

  /** In particular every run of admitted calls ends with the true notice. */
  lemma AdmittedRunsAreTruthful(acts: seq<Action>)
    requires Admitted(Idle, acts)
    ensures Truthful(Run(Idle, acts))
  {
    assert Good(Idle);
    GoodIsTrustworthy(Idle);
  }

  // ---------- What the condition comes to ----------

  lemma TakingAfterBegin(s: State, c: Call, x: ConnId)
    ensures Taking(Step(s, Begin(c)), x) <==> Taking(s, x) || c == Offline(x)
  {
    var s' := Step(s, Begin(c));
    forall j | 0 <= j < |s.procs| ensures s'.procs[j] == s.procs[j] {}
    if c == Offline(x) { assert s'.procs[|s.procs|] == Proc(Offline(x), AtDel); }
    if Taking(s, x) {
      var j :| 0 <= j < |s.procs| && s.procs[j] == Proc(Offline(x), AtDel);
      assert s'.procs[j] == Proc(Offline(x), AtDel);
    }
  }

  lemma AfterBegin(s: State, c: Call)
    ensures var s' := Step(s, Begin(c));
            && (At(s', AtSet) <==> At(s, AtSet) || !c.Offline?)
            && (At(s', AtLen) <==> At(s, AtLen)) && (At(s', AtPublishOffline) <==> At(s, AtPublishOffline))
            && (Saying(s') <==> Saying(s) || c.Online?)
  {
    var s' := Step(s, Begin(c));
    forall j | 0 <= j < |s.procs| ensures s'.procs[j] == s.procs[j] {}
    assert s'.procs[|s.procs|] == Proc(c, if c.Offline? then AtDel else AtSet);
    forall pc | At(s, pc) ensures At(s', pc) {
      var j :| 0 <= j < |s.procs| && s.procs[j].pc == pc;
      assert s'.procs[j].pc == pc;
    }
    if Saying(s) {
      var j :| 0 <= j < |s.procs| && IsSaying(s.procs[j]);
      assert IsSaying(s'.procs[j]);
    }
    if c.Online? { assert IsSaying(s'.procs[|s.procs|]); }
  }

  /** While some connection is there to stay, every call may begin but the one that takes it away. */
  lemma AnchorAdmits(s: State, x: ConnId, c: Call)
    requires Good(s) && Anchored(s, x) && c != Offline(x)
    ensures MayBegin(s, c)
  {
    TakingAfterBegin(s, c, x);
    AfterBegin(s, c);
    assert Anchored(Step(s, Begin(c)), x);
  }

  /** When nothing is under way, every call may begin but a heartbeat that would bring back a user who has gone. */
  lemma RestAdmitsIff(s: State, c: Call)
    requires Good(s) && WellOrdered(s) && AtRest(s)
    ensures MayBegin(s, c) <==> !(c.Heartbeat? && s.hash == {})
  {
    var s' := Step(s, Begin(c));
    AfterBegin(s, c);
    RestIsGoodIff(s);
    forall x ensures Anchored(s', x) <==> x in s.hash && c != Offline(x) { TakingAfterBegin(s, c, x); }
    forall j | 0 <= j < |s'.procs| ensures !ContestedSet(s', s'.procs[j]) {
      TakingAfterBegin(s, c, s'.procs[j].call.conn);
    }
  }

  /** Such a heartbeat, from any state, leaves the user in the hash with "offline" as the last word. */
  lemma HeartbeatRevives(s: State, y: ConnId)
    requires LastNotice(s.log) == SaidOffline
    ensures var n := |s.procs|;
            var s' := Run(s, [Begin(Heartbeat(y)), Advance(n), Advance(n), Advance(n)]);
            y in s'.hash && LastNotice(s'.log) == SaidOffline && s'.procs == s.procs + [Proc(Heartbeat(y), Finished)]
  {
    AloneIsARun(s, Heartbeat(y));
    NoticeAfter(s.log, Touched);
  }

  /** A connection comes and goes. */
  lemma ComesAndGoes() returns (acts: seq<Action>)
    ensures Run(Idle, acts) == State({}, [Proc(Online(1), Finished), Proc(Offline(1), Finished)], [Touched, SaidOnline, SaidOffline])
  {
    var a := [Begin(Online(1)), Advance(0), Advance(0), Advance(0)];
    var b := [Begin(Offline(1)), Advance(1), Advance(1), Advance(1)];
    acts := a + b;
    RunAppend(Idle, a, b);
    AloneIsARun(Idle, Online(1));
    assert Run(Idle, a) == State({1}, [Proc(Online(1), Finished)], [Touched, SaidOnline]);
    AloneIsARun(Run(Idle, a), Offline(1));
  }

  /** The whole history of one such heartbeat: a connection comes, goes, and its heartbeat arrives late. */
  lemma LateHeartbeat() returns (acts: seq<Action>)
    ensures AtRest(Run(Idle, acts)) && 1 in Run(Idle, acts).hash && LastNotice(Run(Idle, acts).log) == SaidOffline
  {
    var gone := ComesAndGoes();
    var beat := [Begin(Heartbeat(1)), Advance(2), Advance(2), Advance(2)];
    acts := gone + beat;
    RunAppend(Idle, gone, beat);
    HeartbeatRevives(Run(Idle, gone), 1);
  }
}
