/** Retry delays after failed authentication (internal/agent/anthropic_agent.go and
    internal/agent/gemini_agent.go). */
module Backoff {
  /** In seconds. */
  const RATE_LIMIT_BASE: nat := 5 * 60
  const RATE_LIMIT_MAX: nat := 6 * 3600

  /** In nanoseconds. */
  const HOUR: nat := 3_600_000_000_000
  const AUTH_RETRY_MAX: nat := 24 * HOUR

  function Pow2(n: nat): nat {
    if n == 0 then 1 else 2 * Pow2(n - 1)
  }

  function Min(a: nat, b: nat): nat {
    if a < b then a else b
  }

  /** The delay after `failCount` refused refreshes, with the exponent capped at 10. */
  function RateLimitBackoff(failCount: int): nat {
    if failCount <= 0 then RATE_LIMIT_BASE
    else
      var shift := if failCount - 1 > 10 then 10 else failCount - 1;
      var backoff := RATE_LIMIT_BASE * Pow2(shift);
      if backoff > RATE_LIMIT_MAX then RATE_LIMIT_MAX else backoff
  }

  lemma {:induction false} Pow2Monotone(m: nat, n: nat)
    requires m <= n
    ensures Pow2(m) <= Pow2(n)
    decreases n - m
  {
    if m < n {
      Pow2Monotone(m, n - 1);
    }
  }

  lemma Pow2Of10()
    ensures Pow2(10) == 1024
  {
    assert Pow2(5) == 32;
  }

  /** Despite the cap, the delay is the doubling one, bounded by the maximum. */
  lemma RateLimitDoubles(n: nat)
    requires n >= 1
    ensures RateLimitBackoff(n) == Min(RATE_LIMIT_BASE * Pow2(n - 1), RATE_LIMIT_MAX)
  {
    if n - 1 > 10 {
      Pow2Of10();
      Pow2Monotone(10, n - 1);
    }
  }

  /** The doubling delay before jitter: attempt n waits 2^(n-1) hours, at most a day. */
  function RetryHours(attempt: int): nat {
    Min(Pow2(if attempt < 1 then 0 else attempt - 1) * HOUR, AUTH_RETRY_MAX)
  }

  function Clamp01(x: real): real {
    if x < 0.0 then 0.0 else if x > 1.0 then 1.0 else x
  }

  /** Between four and six fifths, evenly. */
  function Factor(random: real): (factor: real)
    ensures 0.8 <= factor <= 1.2
  {
    0.8 + 0.4 * Clamp01(random)
  }

  function Jittered(delay: nat, random: real): nat {
    Scaled(delay as real, Factor(random));
    (delay as real * Factor(random)).Floor
  }

  function RetryDelay(attempt: int, random: real): nat {
    Min(Jittered(RetryHours(attempt), random), AUTH_RETRY_MAX)
  }

  lemma Scaled(x: real, factor: real)
    requires 0.0 <= x && 0.8 <= factor <= 1.2
    ensures 0.8 * x <= x * factor <= 1.2 * x
  {}

  lemma ScaledMonotone(x: real, y: real, factor: real)
    requires 0.0 <= x <= y && 0.0 <= factor
    ensures x * factor <= y * factor
  {}

  lemma FloorMonotone(x: real, y: real)
    requires x <= y
    ensures x.Floor <= y.Floor
  {}

  /** The doubling loop, which stops at the maximum. */
  method GeminiAuthRetryDelay(attempt: int, random: real) returns (delay: nat)
    ensures delay == RetryDelay(attempt, random)
    ensures delay <= AUTH_RETRY_MAX
  {
    var n := if attempt < 1 then 1 else attempt;
    delay := HOUR;
    var i := 1;
    while i < n && delay < AUTH_RETRY_MAX
      invariant 1 <= i <= n && delay == Min(Pow2(i - 1) * HOUR, AUTH_RETRY_MAX)
    {
      if delay > AUTH_RETRY_MAX / 2 {
        delay := AUTH_RETRY_MAX;
        StaysAtMaximum(i, n - 1);
        break;
      }
      delay := delay * 2;
      i := i + 1;
    }
    if i < n {
      StaysAtMaximum(if delay == AUTH_RETRY_MAX && Pow2(i - 1) * HOUR >= AUTH_RETRY_MAX then i - 1 else i, n - 1);
    }
    assert delay == RetryHours(attempt);
    hide RetryHours, Pow2;
    delay := Jittered(delay, random);
    if delay > AUTH_RETRY_MAX {
      delay := AUTH_RETRY_MAX;
    }
  }

  /** Once doubled up to the maximum, further doubling changes nothing. */
  lemma StaysAtMaximum(m: nat, n: nat)
    requires m <= n && Pow2(m) * HOUR >= AUTH_RETRY_MAX
    ensures Min(Pow2(n) * HOUR, AUTH_RETRY_MAX) == AUTH_RETRY_MAX
  {
    Pow2Monotone(m, n);
  }

  lemma JitteredMonotone(d: nat, e: nat, random: real)
    requires d <= e
    ensures Jittered(d, random) <= Jittered(e, random)
  {
    hide Factor;
    var factor := Factor(random);
    ScaledMonotone(d as real, e as real, factor);
    FloorMonotone(d as real * factor, e as real * factor);
  }

  lemma JitteredBounds(d: nat, random: real)
    ensures 4 * d - 5 <= 5 * Jittered(d, random) <= 6 * d
  {
    hide Factor;
    var x, factor := d as real, Factor(random);
    Scaled(x, factor);
    FloorBounds(d, x, x * factor);
  }

  lemma FloorBounds(d: nat, y: real, x: real)
    requires y == d as real && 0.8 * y <= x <= 1.2 * y
    ensures 4 * d - 5 <= 5 * x.Floor <= 6 * d
  {
    var n := x.Floor;
    assert x - 1.0 <= n as real <= x;
    assert (4 * d - 5) as real <= (5 * n) as real <= (6 * d) as real;
  }

  lemma HoursMonotone(m: int, n: int)
    requires m <= n
    ensures RetryHours(m) <= RetryHours(n)
  {
    Pow2Monotone(if m < 1 then 0 else m - 1, if n < 1 then 0 else n - 1);
  }

  /** More failures never wait less. */
  lemma RetriesWaitLonger(m: int, n: int, random: real)
    requires m <= n
    ensures RetryDelay(m, random) <= RetryDelay(n, random)
  {
    HoursMonotone(m, n);
    hide RetryHours, Jittered;
    JitteredMonotone(RetryHours(m), RetryHours(n), random);
  }

  /** Jitter moves a delay by at most a fifth, and never beyond a day. */
  lemma JitterIsBounded(n: int, random: real)
    ensures 5 * RetryDelay(n, random) >= 4 * RetryHours(n) - 5
    ensures 5 * RetryDelay(n, random) <= 6 * RetryHours(n)
    ensures RetryDelay(n, random) <= AUTH_RETRY_MAX
  {
    assert RetryHours(n) <= AUTH_RETRY_MAX;
    hide RetryHours, Jittered;
    JitteredBounds(RetryHours(n), random);
  }
}
