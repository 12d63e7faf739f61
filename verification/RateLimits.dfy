/** Two rate limiters for one key, and the Retry-After their middleware computes. Times are milliseconds. */
module RateLimits {
  import opened Wrappers

  datatype Result = Result(allowed: bool, remaining: int, resetAt: int)

  /** Whole seconds, rounded down: Dafny's division floors for a positive divisor. */
  function Seconds(ms: int): int {
    ms / 1000
  }

  function CeilSeconds(ms: int): int {
    -((-ms) / 1000)
  }

  // ---------- Fixed window ----------

  datatype Window = Window(count: int, resetAt: int)

  function FixedStep(win: Option<Window>, max: int, windowSec: int, nowMs: int): (Option<Window>, Result) {
    var now := Seconds(nowMs);
    if win.None? || now >= win.value.resetAt then
      (Some(Window(1, now + windowSec)), Result(true, max - 1, now + windowSec))
    else
      var w := win.value.(count := win.value.count + 1);
      (Some(w), if w.count > max then Result(false, 0, w.resetAt) else Result(true, max - w.count, w.resetAt))
  }

  /** How many requests of a trace are admitted with their second in `[lo, hi)`, from window `win` on. */
  function FixedAdmitted(win: Option<Window>, max: int, windowSec: int, trace: seq<int>, lo: int, hi: int): nat
    decreases |trace|
  {
    if trace == [] then 0
    else
      var (w, r) := FixedStep(win, max, windowSec, trace[0]);
      (if r.allowed && lo <= Seconds(trace[0]) < hi then 1 else 0) + FixedAdmitted(w, max, windowSec, trace[1..], lo, hi)
  }

  // ---------- Sliding log ----------

  /** The sorted set of one key: its scores, and when the key expires. */
  datatype Log = Log(scores: seq<int>, expiresAt: int)

  function After(scores: seq<int>, start: int): seq<int> {
    if scores == [] then []
    else if scores[0] > start then [scores[0]] + After(scores[1..], start) else After(scores[1..], start)
  }

  /** What Redis still holds at `now`: an expired key is gone. */
  function Live(log: Log, now: int): seq<int> {
    if now >= log.expiresAt then [] else log.scores
  }

  function SlidingStep(log: Log, max: int, windowSec: int, now: int): (Log, Result) {
    var windowMs := windowSec * 1000;
    var scores := After(Live(log, now), now - windowMs) + [now];
    var resetAt := CeilSeconds(now + windowMs);
    (Log(scores, now + 2 * windowMs),
     if |scores| > max then Result(false, 0, resetAt) else Result(true, max - |scores|, resetAt))
  }

  /** How many requests of a trace are admitted with their time in `(a, b]`, from log `log` on. */
  function SlidingAdmitted(log: Log, max: int, windowSec: int, trace: seq<int>, a: int, b: int): nat
    decreases |trace|
  {
    if trace == [] then 0
    else
      var (l, r) := SlidingStep(log, max, windowSec, trace[0]);
      (if r.allowed && a < trace[0] <= b then 1 else 0) + SlidingAdmitted(l, max, windowSec, trace[1..], a, b)
  }

  function SlidingAnswers(log: Log, max: int, windowSec: int, trace: seq<int>): seq<Result>
    decreases |trace|
  {
    if trace == [] then []
    else
      var (l, r) := SlidingStep(log, max, windowSec, trace[0]);
      [r] + SlidingAnswers(l, max, windowSec, trace[1..])
  }

  const NoLog := Log([], 0)

  // ---------- Traces ----------

  ghost predicate Nondecreasing(trace: seq<int>) {
    forall i, j | 0 <= i < j < |trace| :: trace[i] <= trace[j]
  }

  // ---------- Retry-After ----------

  function RetryAfter(resetAt: int, nowMs: int): (seconds: nat) {
    if resetAt - Seconds(nowMs) > 0 then resetAt - Seconds(nowMs) else 0
  }
}
