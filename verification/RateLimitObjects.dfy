/** The limiters as objects that keep a state per key, and the middleware in front of them. */
module RateLimitObjects {
  import opened Wrappers
  import opened RateLimits

  class InMemoryRateLimiter {
    var windows: map<string, Window>

    constructor ()
      ensures windows == map[]
    {
      windows := map[];
    }

    ghost function WindowOf(key: string): Option<Window>
      reads this
    {
      if key in windows then Some(windows[key]) else None
    }

    method Consume(key: string, max: int, windowSec: int, nowMs: int) returns (r: Result)
      modifies this
      ensures (WindowOf(key), r) == FixedStep(old(WindowOf(key)), max, windowSec, nowMs)
      ensures forall k | k != key :: WindowOf(k) == old(WindowOf(k))
    {
      var now := Seconds(nowMs);
      if key !in windows || now >= windows[key].resetAt {
        var resetAt := now + windowSec;
        windows := windows[key := Window(1, resetAt)];
        return Result(true, max - 1, resetAt);
      }
      windows := windows[key := windows[key].(count := windows[key].count + 1)];
      var win := windows[key];
      if win.count > max { return Result(false, 0, win.resetAt); }
      return Result(true, max - win.count, win.resetAt);
    }
  }

  /** The sorted sets the limiter keeps in Redis, one per key, with their expiry times. */
  class RedisRateLimiter {
    var sets: map<string, Log>

    constructor ()
      ensures sets == map[]
    {
      sets := map[];
    }

    ghost function LogOf(key: string): Log
      reads this
    {
      if key in sets then sets[key] else NoLog
    }

    method Consume(key: string, max: int, windowSec: int, now: int) returns (r: Result)
      modifies this
      ensures (LogOf(key), r) == SlidingStep(old(LogOf(key)), max, windowSec, now)
      ensures forall k | k != key :: LogOf(k) == old(LogOf(k))
    {
      var windowMs := windowSec * 1000;
      var windowStart := now - windowMs;
      var resetAt := CeilSeconds(now + windowMs);

      var held := if key in sets then Live(sets[key], now) else [];
      var kept := RemoveUpTo(held, windowStart);
      var scores := kept + [now];
      sets := sets[key := Log(scores, now + windowMs * 2)];

      var count := |scores|;
      if count > max { return Result(false, 0, resetAt); }
      return Result(true, max - count, resetAt);
    }

    /** Drops every score up to and including `start`. */
    method RemoveUpTo(scores: seq<int>, start: int) returns (kept: seq<int>)
      ensures kept == After(scores, start)
    {
      kept := [];
      var i := 0;
      while i < |scores|
        invariant 0 <= i <= |scores|
        invariant kept + After(scores[i..], start) == After(scores, start)
      {
        assert scores[i..][1..] == scores[i + 1..];
        if scores[i] > start { kept := kept + [scores[i]]; }
        i := i + 1;
      }
    }
  }

  /** What either limiter remembers of a key, and how it decides. */
  datatype KeyState = FixedState(win: Option<Window>) | SlidingState(log: Log)

  function ConsumeStep(k: KeyState, max: int, windowSec: int, nowMs: int): (KeyState, Result) {
    match k
    case FixedState(win) => var (w, r) := FixedStep(win, max, windowSec, nowMs); (FixedState(w), r)
    case SlidingState(log) => var (l, r) := SlidingStep(log, max, windowSec, nowMs); (SlidingState(l), r)
  }

  /** The port the middleware calls: either limiter. */
  datatype RateLimiter = Fixed(fixed: InMemoryRateLimiter) | Sliding(sliding: RedisRateLimiter) {
    ghost function Repr(): object {
      match this case Fixed(l) => l case Sliding(l) => l
    }

    ghost function StateOf(key: string): KeyState
      reads Repr()
    {
      match this case Fixed(l) => FixedState(l.WindowOf(key)) case Sliding(l) => SlidingState(l.LogOf(key))
    }

    method Consume(key: string, max: int, windowSec: int, nowMs: int) returns (r: Result)
      modifies Repr()
      ensures (StateOf(key), r) == ConsumeStep(old(StateOf(key)), max, windowSec, nowMs)
      ensures forall k | k != key :: StateOf(k) == old(StateOf(k))
    {
      match this
      case Fixed(l) => r := l.Consume(key, max, windowSec, nowMs);
      case Sliding(l) => r := l.Consume(key, max, windowSec, nowMs);
    }
  }

  /** `rateLimit`: `None` lets the request through, otherwise the seconds to wait, by a second look at the clock. */
  method Guard(limiter: RateLimiter, key: string, max: int, windowSec: int, now: int, later: int)
    returns (retryAfter: Option<nat>)
    modifies limiter.Repr()
    ensures var (k, r) := ConsumeStep(old(limiter.StateOf(key)), max, windowSec, now);
            limiter.StateOf(key) == k && retryAfter == if r.allowed then None else Some(RetryAfter(r.resetAt, later))
    ensures forall k | k != key :: limiter.StateOf(k) == old(limiter.StateOf(k))
  {
    var result := limiter.Consume(key, max, windowSec, now);
    if !result.allowed {
      var wait := result.resetAt - Seconds(later);
      return Some(if wait > 0 then wait else 0);
    }
    return None;
  }
}
