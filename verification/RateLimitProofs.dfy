/** Exact bounds for both limiters over every request trace, and an honest Retry-After. */
module RateLimitProofs {
  import opened Wrappers
  import opened RateLimits

  function AtLeast(x: int, low: int): int {
    if x < low then low else x
  }

  // ---------- Fixed window ----------

  /** The most a fixed window admits in `windowSec` consecutive seconds. A limit below one still admits each opener. */
  function FixedBound(max: int, windowSec: int): int {
    var m := AtLeast(max, 1);
    if windowSec == 1 then m else 2 * m - 1
  }

  /** What window `win` still leaves open to the seconds `[a, a + windowSec)`. */
  function Open(win: Option<Window>, max: int, windowSec: int, a: int): int {
    if win.None? || win.value.resetAt <= a then FixedBound(max, windowSec)
    else if win.value.resetAt >= a + windowSec then AtLeast(max - win.value.count, 0)
    else AtLeast(max - win.value.count, 0) + AtLeast(max, 1)
  }

  lemma {:induction false} NothingAfter(win: Option<Window>, max: int, windowSec: int, trace: seq<int>, lo: int, hi: int)
    requires forall i | 0 <= i < |trace| :: Seconds(trace[i]) >= hi
    ensures FixedAdmitted(win, max, windowSec, trace, lo, hi) == 0
    decreases |trace|
  {
    if trace != [] {
      NothingAfter(FixedStep(win, max, windowSec, trace[0]).0, max, windowSec, trace[1..], lo, hi);
    }
  }

  lemma {:induction false} AdmittedWithinOpen(win: Option<Window>, max: int, windowSec: int, trace: seq<int>, a: int)
    requires windowSec >= 1 && Nondecreasing(trace)
    requires win.Some? ==> win.value.count >= 1
    ensures FixedAdmitted(win, max, windowSec, trace, a, a + windowSec) <= Open(win, max, windowSec, a)
    decreases |trace|
  {
    if trace != [] {
      var s := Seconds(trace[0]);
      var next := FixedStep(win, max, windowSec, trace[0]).0;
      if s >= a + windowSec {
        forall i | 0 <= i < |trace| ensures Seconds(trace[i]) >= a + windowSec { assert trace[0] <= trace[i]; }
        NothingAfter(win, max, windowSec, trace, a, a + windowSec);
      } else {
        AdmittedWithinOpen(next, max, windowSec, trace[1..], a);
      }
    }
  }

  /** Any `windowSec` consecutive seconds hold at most twice the limit less one: the older window's opener is outside. */
  lemma FixedWindowBound(max: int, windowSec: int, trace: seq<int>, a: int)
    requires windowSec >= 1 && Nondecreasing(trace)
    ensures FixedAdmitted(None, max, windowSec, trace, a, a + windowSec) <= FixedBound(max, windowSec)
  {
    AdmittedWithinOpen(None, max, windowSec, trace, a);
  }

  function Burst(t: int, n: nat): seq<int> {
    seq(n, _ => t)
  }

  /** A burst inside a window is admitted while the count lasts. */
  lemma {:induction false} BurstAdmitted(w: Window, max: int, windowSec: int, t: int, n: nat, rest: seq<int>, lo: int, hi: int)
    requires Seconds(t) < w.resetAt && w.count + n <= max
    ensures FixedAdmitted(Some(w), max, windowSec, Burst(t, n) + rest, lo, hi)
            == (if lo <= Seconds(t) < hi then n else 0)
               + FixedAdmitted(Some(w.(count := w.count + n)), max, windowSec, rest, lo, hi)
    decreases n
  {
    if n == 0 {
      assert Burst(t, 0) + rest == rest;
    } else {
      var trace := Burst(t, n) + rest;
      assert trace[0] == t && trace[1..] == Burst(t, n - 1) + rest;
      BurstAdmitted(w.(count := w.count + 1), max, windowSec, t, n - 1, rest, lo, hi);
    }
  }

  /** An opener and the rest of its allowance. */
  lemma OpeningBurst(win: Option<Window>, max: int, windowSec: int, t: int, rest: seq<int>, lo: int, hi: int)
    requires windowSec >= 1 && (win.Some? ==> Seconds(t) >= win.value.resetAt)
    ensures var m := AtLeast(max, 1);
            FixedAdmitted(win, max, windowSec, Burst(t, m) + rest, lo, hi)
            == (if lo <= Seconds(t) < hi then m else 0)
               + FixedAdmitted(Some(Window(m, Seconds(t) + windowSec)), max, windowSec, rest, lo, hi)
  {
    var m := AtLeast(max, 1);
    var trace := Burst(t, m) + rest;
    assert trace[0] == t && trace[1..] == Burst(t, m - 1) + rest;
    if max >= 1 {
      BurstAdmitted(Window(1, Seconds(t) + windowSec), max, windowSec, t, m - 1, rest, lo, hi);
    }
  }

  /** The bound is met, whatever the limit and the window. */
  lemma FixedBoundIsMet(max: int, windowSec: int, a: int) returns (trace: seq<int>)
    requires windowSec >= 1
    ensures Nondecreasing(trace)
    ensures FixedAdmitted(None, max, windowSec, trace, a, a + windowSec) == FixedBound(max, windowSec)
  {
    var m := AtLeast(max, 1);
    var hi := a + windowSec;
    if windowSec == 1 {
      trace := Burst(a * 1000, m);
      assert trace == Burst(a * 1000, m) + [];
      OpeningBurst(None, max, windowSec, a * 1000, [], a, hi);
    } else {
      trace := TwoWindows(max, windowSec, a);
    }
  }

  /** An opener one second early, the rest of its window at once, and a full second window at the last second. */
  lemma TwoWindows(max: int, windowSec: int, a: int) returns (trace: seq<int>)
    requires windowSec >= 2
    ensures Nondecreasing(trace)
    ensures FixedAdmitted(None, max, windowSec, trace, a, a + windowSec) == 2 * AtLeast(max, 1) - 1
  {
    var m := AtLeast(max, 1);
    var t0, t1, t2 := (a - 1) * 1000, a * 1000, (a + windowSec - 1) * 1000;
    var tail := Burst(t2, m) + [];
    trace := [t0] + (Burst(t1, m - 1) + tail);
    var w := Window(1, a - 1 + windowSec);
    if max >= 1 {
      BurstAdmitted(w, max, windowSec, t1, m - 1, tail, a, a + windowSec);
    } else {
      assert Burst(t1, m - 1) + tail == tail;
    }
    OpeningBurst(Some(w.(count := m)), max, windowSec, t2, [], a, a + windowSec);
    RisingTrace(t0, t1, t2, m);
  }

  lemma RisingTrace(t0: int, t1: int, t2: int, m: nat)
    requires t0 <= t1 <= t2 && m >= 1
    ensures Nondecreasing([t0] + (Burst(t1, m - 1) + (Burst(t2, m) + [])))
  {
  }

  /**
   A caller refused at `now` is next admitted exactly when the clock's second reaches `resetAt`. So
   waiting the seconds the middleware computed, at `seen`, always suffices, and one second less does not.
   */
  lemma FixedRetryAfterHonest(win: Option<Window>, max: int, windowSec: int, now: int, seen: int, later: int)
    requires now <= seen && !FixedStep(win, max, windowSec, now).1.allowed
    ensures var (w, r) := FixedStep(win, max, windowSec, now);
            && (FixedStep(w, max, windowSec, later).1.allowed <==> Seconds(later) >= r.resetAt)
            && (later >= seen + 1000 * RetryAfter(r.resetAt, seen) ==> FixedStep(w, max, windowSec, later).1.allowed)
            && (RetryAfter(r.resetAt, seen) > 0 && later == seen + 1000 * (RetryAfter(r.resetAt, seen) - 1) ==>
                  !FixedStep(w, max, windowSec, later).1.allowed)
  {
  }

  /** The seconds to wait are what is left until the reset, never more and never negative. */
  lemma WaitIsWhatIsLeft(resetAt: int, seen: int)
    ensures RetryAfter(resetAt, seen) == 0 <==> Seconds(seen) >= resetAt
    ensures RetryAfter(resetAt, seen) > 0 ==> Seconds(seen + 1000 * RetryAfter(resetAt, seen)) == resetAt
  {
  }

  /** What an answer says remains is what a burst at the same moment gets. */
  lemma {:induction false} FixedRemaining(w: Window, max: int, windowSec: int, t: int, n: nat)
    requires Seconds(t) < w.resetAt
    ensures FixedAdmitted(Some(w), max, windowSec, Burst(t, n), Seconds(t), Seconds(t) + 1)
            == if n <= max - w.count then n else AtLeast(max - w.count, 0)
    decreases n
  {
    if n > 0 {
      assert Burst(t, n)[0] == t && Burst(t, n)[1..] == Burst(t, n - 1);
      FixedRemaining(w.(count := w.count + 1), max, windowSec, t, n - 1);
    }
  }

  /** An admitted caller is told how many more requests, made at once, would be admitted. */
  lemma FixedRemainingIsTrue(win: Option<Window>, max: int, windowSec: int, t: int, n: nat)
    requires windowSec >= 1 && max >= 1 && (win.Some? ==> win.value.count >= 1)
    requires FixedStep(win, max, windowSec, t).1.allowed
    ensures var (w, r) := FixedStep(win, max, windowSec, t);
            && r.remaining >= 0
            && FixedAdmitted(w, max, windowSec, Burst(t, n), Seconds(t), Seconds(t) + 1) == if n <= r.remaining then n else r.remaining
  {
    FixedRemaining(FixedStep(win, max, windowSec, t).0.value, max, windowSec, t, n);
  }

  /** A refused one is told that nothing remains. */
  lemma RefusedHasNone(win: Option<Window>, log: Log, max: int, windowSec: int, now: int)
    ensures !FixedStep(win, max, windowSec, now).1.allowed ==> FixedStep(win, max, windowSec, now).1.remaining == 0
    ensures !SlidingStep(log, max, windowSec, now).1.allowed ==> SlidingStep(log, max, windowSec, now).1.remaining == 0
  {
  }

  // ---------- Sliding log ----------

  lemma {:induction false} AfterAppend(s: seq<int>, t: int, x: int)
    ensures After(s + [t], x) == After(s, x) + if t > x then [t] else []
    decreases |s|
  {
    if s != [] {
      assert (s + [t])[1..] == s[1..] + [t];
      AfterAppend(s[1..], t, x);
    }
  }

  lemma {:induction false} AfterTwice(s: seq<int>, x: int, y: int)
    requires x <= y
    ensures After(After(s, x), y) == After(s, y)
    ensures |After(s, y)| <= |After(s, x)|
    decreases |s|
  {
    if s != [] { AfterTwice(s[1..], x, y); }
  }

  lemma {:induction false} AfterAll(s: seq<int>, x: int)
    requires forall i | 0 <= i < |s| :: s[i] <= x
    ensures After(s, x) == []
    decreases |s|
  {
    if s != [] { AfterAll(s[1..], x); }
  }

  /** The log holds what matters of a history of requests, admitted or not. */
  ghost predicate Records(log: Log, windowSec: int, past: seq<int>) {
    && Nondecreasing(past)
    && if past == [] then log.scores == []
       else
         var last := past[|past| - 1];
         log.scores == After(past, last - windowSec * 1000) && log.expiresAt == last + 2 * windowSec * 1000
  }

  ghost predicate NotBefore(past: seq<int>, now: int) {
    forall i | 0 <= i < |past| :: past[i] <= now
  }

  lemma KeptScores(log: Log, windowSec: int, past: seq<int>, now: int)
    requires windowSec >= 1 && Records(log, windowSec, past) && NotBefore(past, now)
    ensures After(log.scores, now - windowSec * 1000) == After(past, now - windowSec * 1000)
    ensures After(Live(log, now), now - windowSec * 1000) == After(past, now - windowSec * 1000)
  {
    var start := now - windowSec * 1000;
    if past != [] {
      var last := past[|past| - 1];
      AfterTwice(past, last - windowSec * 1000, start);
      if now >= log.expiresAt {
        forall i | 0 <= i < |past| ensures past[i] <= start { assert past[i] <= last; }
        AfterAll(past, start);
      }
    }
  }

  lemma TraceGrows(past: seq<int>, now: int)
    requires Nondecreasing(past) && NotBefore(past, now)
    ensures Nondecreasing(past + [now]) && NotBefore(past + [now], now)
    ensures (past + [now])[|past + [now]| - 1] == now
  {
  }

  lemma StepScores(log: Log, max: int, windowSec: int, past: seq<int>, now: int)
    requires windowSec >= 1 && Records(log, windowSec, past) && NotBefore(past, now)
    ensures SlidingStep(log, max, windowSec, now).0.scores == After(past + [now], now - windowSec * 1000)
  {
    KeptScores(log, windowSec, past, now);
    AfterAppend(past, now, now - windowSec * 1000);
  }

  /** Removal of old scores, and expiry of the whole key, never lose a request that still counts. */
  lemma LogIsWindow(log: Log, max: int, windowSec: int, past: seq<int>, now: int)
    requires windowSec >= 1 && Records(log, windowSec, past) && NotBefore(past, now)
    ensures SlidingStep(log, max, windowSec, now).0.scores == After(past + [now], now - windowSec * 1000)
    ensures Records(SlidingStep(log, max, windowSec, now).0, windowSec, past + [now]) && NotBefore(past + [now], now)
  {
    StepScores(log, max, windowSec, past, now);
    TraceGrows(past, now);
  }

  /** The rule without any log, clean-up or expiry: count the requests, refused ones too, in the window ending now. */
  function Rule(past: seq<int>, max: int, windowSec: int, now: int): Result {
    var n := |After(past + [now], now - windowSec * 1000)|;
    Result(n <= max, if n <= max then max - n else 0, CeilSeconds(now + windowSec * 1000))
  }

  function RuleAnswers(past: seq<int>, max: int, windowSec: int, trace: seq<int>): seq<Result>
    decreases |trace|
  {
    if trace == [] then []
    else [Rule(past, max, windowSec, trace[0])] + RuleAnswers(past + [trace[0]], max, windowSec, trace[1..])
  }

  lemma StepFollowsRule(log: Log, max: int, windowSec: int, past: seq<int>, now: int)
    requires windowSec >= 1 && Records(log, windowSec, past) && NotBefore(past, now)
    ensures SlidingStep(log, max, windowSec, now).1 == Rule(past, max, windowSec, now)
    ensures Records(SlidingStep(log, max, windowSec, now).0, windowSec, past + [now])
  {
    LogIsWindow(log, max, windowSec, past, now);
  }

  lemma {:induction false} LogFollowsRule(log: Log, max: int, windowSec: int, past: seq<int>, trace: seq<int>)
    requires windowSec >= 1 && Records(log, windowSec, past) && Nondecreasing(past + trace)
    ensures SlidingAnswers(log, max, windowSec, trace) == RuleAnswers(past, max, windowSec, trace)
    decreases |trace|
  {
    if trace != [] {
      SplitTrace(past, trace);
      StepFollowsRule(log, max, windowSec, past, trace[0]);
      LogFollowsRule(SlidingStep(log, max, windowSec, trace[0]).0, max, windowSec, past + [trace[0]], trace[1..]);
    }
  }

  /** On every trace the log, with its clean-up and its expiring key, answers as the plain rule does. */
  lemma SlidingLogFollowsRule(max: int, windowSec: int, trace: seq<int>)
    requires windowSec >= 1 && Nondecreasing(trace)
    ensures SlidingAnswers(NoLog, max, windowSec, trace) == RuleAnswers([], max, windowSec, trace)
  {
    LogFollowsRule(NoLog, max, windowSec, [], trace);
  }

  lemma {:induction false} NoneInInterval(log: Log, max: int, windowSec: int, trace: seq<int>, a: int, b: int)
    requires forall i | 0 <= i < |trace| :: trace[i] > b
    ensures SlidingAdmitted(log, max, windowSec, trace, a, b) == 0
    decreases |trace|
  {
    if trace != [] { NoneInInterval(SlidingStep(log, max, windowSec, trace[0]).0, max, windowSec, trace[1..], a, b); }
  }

  /** A request after `a` and within one window of it is admitted only while the requests after `a` number at most `max`. */
  lemma AdmittedCountsWithin(log: Log, max: int, windowSec: int, past: seq<int>, t: int, a: int)
    requires windowSec >= 1 && Records(log, windowSec, past) && NotBefore(past, t) && t <= a + windowSec * 1000
    ensures Records(SlidingStep(log, max, windowSec, t).0, windowSec, past + [t])
    ensures |After(past + [t], a)| == |After(past, a)| + if t > a then 1 else 0
    ensures SlidingStep(log, max, windowSec, t).1.allowed ==> |After(past + [t], a)| <= max
  {
    LogIsWindow(log, max, windowSec, past, t);
    AfterAppend(past, t, a);
    AfterTwice(past + [t], t - windowSec * 1000, a);
  }

  lemma SplitTrace(past: seq<int>, trace: seq<int>)
    requires trace != [] && Nondecreasing(past + trace)
    ensures NotBefore(past, trace[0]) && Nondecreasing((past + [trace[0]]) + trace[1..])
    ensures forall i | 0 <= i < |trace| :: trace[i] >= trace[0]
  {
    var all := past + trace;
    assert all[|past|] == trace[0];
    forall i | 0 <= i < |past| ensures past[i] <= trace[0] { assert past[i] == all[i]; }
    forall i | 0 <= i < |trace| ensures trace[i] >= trace[0] { assert trace[i] == all[|past| + i]; }
    assert all == (past + [trace[0]]) + trace[1..];
  }

  lemma {:induction false} AdmittedWithinLimit(log: Log, max: int, windowSec: int, past: seq<int>, trace: seq<int>, a: int)
    requires windowSec >= 1 && Records(log, windowSec, past) && Nondecreasing(past + trace)
    ensures SlidingAdmitted(log, max, windowSec, trace, a, a + windowSec * 1000) <= AtLeast(max - |After(past, a)|, 0)
    decreases |trace|
  {
    if trace != [] {
      var t := trace[0];
      SplitTrace(past, trace);
      if t > a + windowSec * 1000 {
        NoneInInterval(log, max, windowSec, trace, a, a + windowSec * 1000);
      } else {
        AdmittedCountsWithin(log, max, windowSec, past, t, a);
        AdmittedWithinLimit(SlidingStep(log, max, windowSec, t).0, max, windowSec, past + [t], trace[1..], a);
      }
    }
  }

  /** Every half-open interval of one window's length holds at most `max` admitted requests. */
  lemma SlidingWindowBound(max: int, windowSec: int, trace: seq<int>, a: int)
    requires windowSec >= 1 && Nondecreasing(trace)
    ensures SlidingAdmitted(NoLog, max, windowSec, trace, a, a + windowSec * 1000) <= AtLeast(max, 0)
  {
    AdmittedWithinLimit(NoLog, max, windowSec, [], trace, a);
  }

  /** A window without earlier requests admits the next one if and only if the limit is at least one. */
  lemma EmptyWindowAdmits(log: Log, max: int, windowSec: int, past: seq<int>, now: int)
    requires windowSec >= 1 && Records(log, windowSec, past) && NotBefore(past, now - windowSec * 1000)
    ensures SlidingStep(log, max, windowSec, now).1.allowed <==> max >= 1
  {
    var start := now - windowSec * 1000;
    LogIsWindow(log, max, windowSec, past, now);
    AfterAll(past, start);
    AfterAppend(past, now, start);
    assert SlidingStep(log, max, windowSec, now).0.scores == [now];
  }

  /** Rounding the reset time up and the clock down never makes the wait too short. */
  lemma WaitCoversWindow(windowMs: int, now: int, seen: int, later: int)
    requires now <= seen && later >= seen + 1000 * RetryAfter(CeilSeconds(now + windowMs), seen)
    ensures later >= now + windowMs
  {
    assert 1000 * CeilSeconds(now + windowMs) >= now + windowMs;
  }

  /**
   A caller refused at `now` that waits the seconds computed at `seen` is admitted if and only if
   the limit is at least one; and they are never more than a window and the second lost to rounding.
   */
  lemma SlidingRetryAfterHonest(log: Log, max: int, windowSec: int, past: seq<int>, now: int, seen: int, later: int)
    requires windowSec >= 1 && Records(log, windowSec, past) && NotBefore(past, now)
    requires now <= seen && !SlidingStep(log, max, windowSec, now).1.allowed
    requires later >= seen + 1000 * RetryAfter(SlidingStep(log, max, windowSec, now).1.resetAt, seen)
    ensures SlidingStep(SlidingStep(log, max, windowSec, now).0, max, windowSec, later).1.allowed <==> max >= 1
    ensures RetryAfter(SlidingStep(log, max, windowSec, now).1.resetAt, seen) <= windowSec + 1
  {
    LogIsWindow(log, max, windowSec, past, now);
    WaitCoversWindow(windowSec * 1000, now, seen, later);
    EmptyWindowAdmits(SlidingStep(log, max, windowSec, now).0, max, windowSec, past + [now], later);
  }

  /** Requests at the moment of the last one only lengthen the log. */
  lemma {:induction false} SlidingRemaining(log: Log, max: int, windowSec: int, t: int, n: nat)
    requires windowSec >= 1 && t < log.expiresAt && After(log.scores, t - windowSec * 1000) == log.scores
    ensures SlidingAdmitted(log, max, windowSec, Burst(t, n), t - 1, t)
            == if n <= max - |log.scores| then n else AtLeast(max - |log.scores|, 0)
    decreases n
  {
    if n > 0 {
      var l := SlidingStep(log, max, windowSec, t).0;
      assert Burst(t, n)[0] == t && Burst(t, n)[1..] == Burst(t, n - 1);
      AfterAppend(log.scores, t, t - windowSec * 1000);
      assert l.scores == log.scores + [t];
      SlidingRemaining(l, max, windowSec, t, n - 1);
    }
  }

  /** The same truth about what remains, for the sliding log. */
  lemma SlidingRemainingIsTrue(log: Log, max: int, windowSec: int, t: int, n: nat)
    requires windowSec >= 1 && SlidingStep(log, max, windowSec, t).1.allowed
    ensures var (l, r) := SlidingStep(log, max, windowSec, t);
            && r.remaining >= 0
            && SlidingAdmitted(l, max, windowSec, Burst(t, n), t - 1, t) == if n <= r.remaining then n else r.remaining
  {
    var start := t - windowSec * 1000;
    AfterTwice(Live(log, t), start, start);
    AfterAppend(After(Live(log, t), start), t, start);
    SlidingRemaining(SlidingStep(log, max, windowSec, t).0, max, windowSec, t, n);
  }
}
