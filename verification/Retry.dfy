/** WithRetry of internal/s3/retry.go: exponential backoff around a call, and the test for retryable errors. */
module Retry {
  import opened Basics

  /** Delays in nanoseconds. */
  datatype RetryConfig = RetryConfig(
    maxAttempts: int, initialDelay: int, maxDelay: int, multiplier: real, jitter: bool)

  /** What one attempt returns. */
  datatype Reply = Ok | Err(message: string)

  datatype Result =
    | Success
    | NotRetryable(message: string)
    | Cancelled
    | Exhausted(last: Option<string>)

  // ---------------------------------------------------------------------------------------------
  // Which errors are retried

  ghost predicate OccursAt(s: string, sub: string, i: int)
  {
    0 <= i <= |s| - |sub| && s[i..i + |sub|] == sub
  }

  ghost predicate Occurs(s: string, sub: string)
  {
    exists i :: OccursAt(s, sub, i)
  }

  method FindSubstring(s: string, sub: string) returns (found: bool)
    ensures found <==> Occurs(s, sub)
  {
    if |sub| == 0 {
      assert OccursAt(s, sub, 0);
      return true;
    }
    if |s| < |sub| {
      return false;
    }
    var i := 0;
    while i <= |s| - |sub|
      invariant 0 <= i <= |s| - |sub| + 1
      invariant forall k :: 0 <= k < i ==> !OccursAt(s, sub, k)
    {
      var isMatch := true;
      var j := 0;
      while j < |sub|
        invariant 0 <= j <= |sub|
        invariant isMatch && s[i..i + j] == sub[..j]
      {
        if s[i + j] != sub[j] {
          isMatch := false;
          break;
        }
        j := j + 1;
      }
      if isMatch {
        assert OccursAt(s, sub, i);
        return true;
      }
      assert s[i..i + |sub|][j] == s[i + j];
      i := i + 1;
    }
    return false;
  }

  method Contains(s: string, sub: string) returns (found: bool)
    ensures found <==> Occurs(s, sub)
  {
    found := false;
    if |s| >= |sub| {
      found := FindSubstring(s, sub);
    }
  }

  const RETRYABLE_PATTERNS: seq<string> := [
    "connection refused", "connection reset", "broken pipe", "timeout", "deadline exceeded",
    "SlowDown", "ServiceUnavailable", "InternalError", "RequestTimeout"]

  ghost predicate Retryable(message: string)
  {
    exists k :: 0 <= k < |RETRYABLE_PATTERNS| && Occurs(message, RETRYABLE_PATTERNS[k])
  }

  /** The nine substrings an error message is searched for. */
  lemma RetryableIff(message: string)
    ensures Retryable(message)
       <==> || Occurs(message, "connection refused") || Occurs(message, "connection reset")
            || Occurs(message, "broken pipe") || Occurs(message, "timeout") || Occurs(message, "deadline exceeded")
            || Occurs(message, "SlowDown") || Occurs(message, "ServiceUnavailable")
            || Occurs(message, "InternalError") || Occurs(message, "RequestTimeout")
  {
    var p := RETRYABLE_PATTERNS;
    assert p[0] == "connection refused" && p[1] == "connection reset" && p[2] == "broken pipe" && p[3] == "timeout"
        && p[4] == "deadline exceeded" && p[5] == "SlowDown" && p[6] == "ServiceUnavailable"
        && p[7] == "InternalError" && p[8] == "RequestTimeout";
  }

  method IsRetryable(message: string) returns (retryable: bool)
    ensures retryable <==> Retryable(message)
  {
    for k := 0 to |RETRYABLE_PATTERNS|
      invariant forall j :: 0 <= j < k ==> !Occurs(message, RETRYABLE_PATTERNS[j])
    {
      var found := Contains(message, RETRYABLE_PATTERNS[k]);
      if found {
        return true;
      }
    }
    return false;
  }

  // ---------------------------------------------------------------------------------------------
  // The loop

  /** time.Duration(float64(d) * f): the conversion truncates toward zero. */
  type Scaling = (int, real) -> int

  function Truncate(x: real): (r: int)
  {
    if x >= 0.0 then x.Floor else -((-x).Floor)
  }

  /** The scaling rounds nothing but the final conversion. */
  ghost predicate Exact(scale: Scaling)
  {
    forall d: int, f: real :: scale(d, f) == Truncate(d as real * f)
  }

  function NextDelay(cfg: RetryConfig, scale: Scaling, delay: int): int
  {
    var grown := scale(delay, cfg.multiplier);
    if grown > cfg.maxDelay then cfg.maxDelay else grown
  }

  /** The delay before jitter after attempt k. */
  function Delay(cfg: RetryConfig, scale: Scaling, k: nat): int
    requires k >= 1
  {
    if k == 1 then cfg.initialDelay else NextDelay(cfg, scale, Delay(cfg, scale, k - 1))
  }

  /** The sleep requested after attempt k; draw(k) is rand.Float64(). */
  function Backoff(cfg: RetryConfig, scale: Scaling, draw: nat -> real, k: nat): int
    requires k >= 1
  {
    if cfg.jitter then scale(Delay(cfg, scale, k), 0.5 + draw(k) * 0.5) else Delay(cfg, scale, k)
  }

  /** Attempt k failed in a way that calls for another one. */
  ghost predicate Retries(fn: nat -> Reply, k: nat)
  {
    fn(k).Err? && Retryable(fn(k).message)
  }

  /**
   fn(k) is what attempt k returns, and cancelled(k) whether the context wins the select after it.
   Besides the result the method returns the number of calls made and the sleeps requested.
   */
  method WithRetry(
    cfg: RetryConfig, scale: Scaling, fn: nat -> Reply, draw: nat -> real, cancelled: nat -> bool)
    returns (r: Result, calls: nat, sleeps: seq<int>)
    ensures calls <= if cfg.maxAttempts > 0 then cfg.maxAttempts else 0
    ensures forall k :: 1 <= k < calls ==> Retries(fn, k) && !cancelled(k)
    ensures calls == 0 <==> cfg.maxAttempts <= 0
    ensures calls == 0 ==> r == Exhausted(None)
    ensures r == Success <==> calls > 0 && fn(calls).Ok?
    ensures calls > 0 && fn(calls).Err? ==>
              r == if !Retries(fn, calls) then NotRetryable(fn(calls).message)
                   else if calls == cfg.maxAttempts then Exhausted(Some(fn(calls).message))
                   else Cancelled
    ensures r == Cancelled ==> cancelled(calls)
    ensures |sleeps| == if r == Cancelled then calls else if calls == 0 then 0 else calls - 1
    ensures forall k :: 1 <= k <= |sleeps| ==> sleeps[k - 1] == Backoff(cfg, scale, draw, k)
  {
    var lastErr: Option<string> := None;
    var delay := cfg.initialDelay;
    calls, sleeps := 0, [];
    var attempt: nat := 1;
    while attempt <= cfg.maxAttempts
      invariant 1 <= attempt && calls == attempt - 1 == |sleeps|
      invariant attempt <= cfg.maxAttempts || calls == 0
      invariant forall k :: 1 <= k < attempt ==> Retries(fn, k) && !cancelled(k)
      invariant delay == Delay(cfg, scale, attempt)
      invariant forall k :: 1 <= k <= |sleeps| ==> sleeps[k - 1] == Backoff(cfg, scale, draw, k)
      invariant calls == 0 ==> lastErr == None
    {
      var reply := fn(attempt);
      calls := attempt;
      if reply.Ok? {
        return Success, calls, sleeps;
      }
      lastErr := Some(reply.message);
      var retryable := IsRetryable(reply.message);
      if !retryable {
        return NotRetryable(reply.message), calls, sleeps;
      }
      if attempt == cfg.maxAttempts {
        break;
      }
      var backoff := delay;
      if cfg.jitter {
        backoff := scale(backoff, 0.5 + draw(attempt) * 0.5);
      }
      sleeps := sleeps + [backoff];
      if cancelled(attempt) {
        return Cancelled, calls, sleeps;
      }
      delay := scale(delay, cfg.multiplier);
      if delay > cfg.maxDelay {
        delay := cfg.maxDelay;
      }
      attempt := attempt + 1;
    }
    r := Exhausted(lastErr);
  }

  // ---------------------------------------------------------------------------------------------
  // Delays when the multiplier is 2

  function Pow2(k: nat): (r: nat)
    ensures r >= 1
  {
    if k == 0 then 1 else 2 * Pow2(k - 1)
  }

  ghost predicate Doubling(cfg: RetryConfig, scale: Scaling)
  {
    cfg.multiplier == 2.0 && cfg.initialDelay >= 0 && cfg.maxDelay >= 0 && Exact(scale)
  }

  lemma Product(a: real, b: real)
    requires a >= 0.0 && b >= 0.0
    ensures a * b >= 0.0
  {
  }

  /** Multiplying by a factor in [1/2, 1) takes away at most half and never adds. */
  lemma ScaleByJitter(scale: Scaling, d: nat, f: real)
    requires Exact(scale) && 0.5 <= f < 1.0
    ensures scale(d, f) <= d <= 2 * scale(d, f) + 1
  {
    var x, y := d as real, d as real * f;
    Product(x, 1.0 - f);
    Product(x, f - 0.5);
    assert x - y == x * (1.0 - f) && y - x * 0.5 == x * (f - 0.5);
    assert scale(d, f) == Truncate(y);
  }

  lemma TwiceAsMuch(initial: nat, k: nat)
    requires k > 1
    ensures initial * Pow2(k - 1) == 2 * (initial * Pow2(k - 2)) >= 0
    ensures initial * Pow2(0) == initial
  {
    assert Pow2(k - 1) == 2 * Pow2(k - 2);
  }

  lemma {:induction false} DelayClosedForm(cfg: RetryConfig, scale: Scaling, k: nat)
    requires Doubling(cfg, scale) && k >= 1
    ensures Delay(cfg, scale, k)
         == if k == 1 then cfg.initialDelay else Min(cfg.initialDelay * Pow2(k - 1), cfg.maxDelay)
    ensures Delay(cfg, scale, k) >= 0
  {
    if k > 1 {
      DelayClosedForm(cfg, scale, k - 1);
      TwiceAsMuch(cfg.initialDelay, k);
    }
  }

  ghost predicate WithinMaximum(cfg: RetryConfig, scale: Scaling)
  {
    forall k: nat :: k >= 1 ==> Delay(cfg, scale, k) <= cfg.maxDelay
  }

  /** The first delay is not clamped: no delay exceeds the maximum exactly when the initial one does not. */
  lemma DelaysBoundedIff(cfg: RetryConfig, scale: Scaling)
    ensures WithinMaximum(cfg, scale) <==> cfg.initialDelay <= cfg.maxDelay
  {
    if cfg.initialDelay > cfg.maxDelay {
      assert Delay(cfg, scale, 1) > cfg.maxDelay;
    }
  }

  lemma ScaleIs(scale: Scaling, d: nat, f: real)
    requires Exact(scale) && f >= 0.0
    ensures scale(d, f) as real <= d as real * f < (scale(d, f) + 1) as real
  {
    Product(d as real, f);
    assert scale(d, f) == Truncate(d as real * f);
  }

  /** Whatever the multiplier, a delay is the one before times the multiplier, rounded down, or the maximum. */
  lemma DelayGrows(cfg: RetryConfig, scale: Scaling, k: nat)
    requires Exact(scale) && k >= 1 && cfg.multiplier >= 0.0 && Delay(cfg, scale, k) >= 0
    ensures var grown, next := Delay(cfg, scale, k) as real * cfg.multiplier, Delay(cfg, scale, k + 1);
            if grown >= (cfg.maxDelay + 1) as real then next == cfg.maxDelay else next as real <= grown < (next + 1) as real
  {
    hide Exact;
    ScaleIs(scale, Delay(cfg, scale, k), cfg.multiplier);
    assert Delay(cfg, scale, k + 1) == NextDelay(cfg, scale, Delay(cfg, scale, k));
  }

  /** A jittered sleep is the delay times 1/2 plus half the draw, rounded down. */
  lemma BackoffIs(cfg: RetryConfig, scale: Scaling, draw: nat -> real, k: nat, f: real)
    requires Exact(scale) && k >= 1 && Delay(cfg, scale, k) >= 0 && 0.0 <= draw(k) < 1.0 && f == 0.5 + draw(k) * 0.5
    ensures var d, b := Delay(cfg, scale, k), Backoff(cfg, scale, draw, k);
            if cfg.jitter then b as real <= d as real * f < (b + 1) as real else b == d
  {
    hide Exact, Delay;
    ScaleIs(scale, Delay(cfg, scale, k), f);
  }

  /** Jitter takes away at most half of a delay and never adds to it. */
  lemma JitterBounds(cfg: RetryConfig, scale: Scaling, draw: nat -> real, k: nat)
    requires Doubling(cfg, scale) && k >= 1 && 0.0 <= draw(k) < 1.0
    ensures Backoff(cfg, scale, draw, k) <= Delay(cfg, scale, k) <= 2 * Backoff(cfg, scale, draw, k) + 1
  {
    DelayClosedForm(cfg, scale, k);
    ScaleByJitter(scale, Delay(cfg, scale, k), 0.5 + draw(k) * 0.5);
  }

  lemma OneMore(initial: int, max: int, p: int, n: nat, sum: int, x: int)
    requires n > 0
    requires sum <= Min(initial * (p - 1), (n - 1) * max) && x <= initial * p && x <= max
    ensures sum + x <= Min(initial * (2 * p - 1), n * max)
  {
    assert initial * (2 * p - 1) == initial * (p - 1) + initial * p;
    assert n * max == (n - 1) * max + max;
  }

  /** Total requested backoff over n sleeps, for sleeps as WithRetry returns them. */
  lemma {:induction false} TotalBackoff(cfg: RetryConfig, scale: Scaling, draw: nat -> real, sleeps: seq<int>)
    requires Doubling(cfg, scale) && cfg.initialDelay <= cfg.maxDelay
    requires forall k: nat :: 0.0 <= draw(k) < 1.0
    requires forall k :: 1 <= k <= |sleeps| ==> sleeps[k - 1] == Backoff(cfg, scale, draw, k)
    ensures Sum(sleeps) <= Min(cfg.initialDelay * (Pow2(|sleeps|) - 1), |sleeps| * cfg.maxDelay)
  {
    var n := |sleeps|;
    if n > 0 {
      TotalBackoff(cfg, scale, draw, sleeps[..n - 1]);
      LastSleep(cfg, scale, draw, n);
      assert sleeps == sleeps[..n - 1] + [sleeps[n - 1]];
      SumSnoc(sleeps[..n - 1], sleeps[n - 1]);
      OneMore(cfg.initialDelay, cfg.maxDelay, Pow2(n - 1), n, Sum(sleeps[..n - 1]), sleeps[n - 1]);
    }
  }

  lemma LastSleep(cfg: RetryConfig, scale: Scaling, draw: nat -> real, k: nat)
    requires Doubling(cfg, scale) && cfg.initialDelay <= cfg.maxDelay && k >= 1 && 0.0 <= draw(k) < 1.0
    ensures Backoff(cfg, scale, draw, k) <= cfg.initialDelay * Pow2(k - 1)
    ensures Backoff(cfg, scale, draw, k) <= cfg.maxDelay
  {
    JitterBounds(cfg, scale, draw, k);
    DelayClosedForm(cfg, scale, k);
  }
}
