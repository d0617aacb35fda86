/** The retry loop with capped exponential backoff and jitter. */
module Retry {
  import opened Arithmetic

  /** What one call of the retried function does. */
  datatype Attempt<T> = Ok(value: T) | Retryable(error: int) | Fatal(error: int)

  datatype Result<T> = Success(value: T) | Raised(error: int) | ValueError

  function Pow2(n: nat): real {
    if n == 0 then 1.0 else 2.0 * Pow2(n - 1)
  }

  /** The base delay doubled `n` times. */
  function Doubled(base: real, n: nat): real {
    if n == 0 then base else 2.0 * Doubled(base, n - 1)
  }

  lemma {:induction false} DoubledIsPower(base: real, n: nat)
    ensures Doubled(base, n) == base * Pow2(n)
  {
    if n > 0 {
      DoubledIsPower(base, n - 1);
      RealDouble(base, Pow2(n - 1));
    }
  }

  /** The delay after failed call `i`, before the jitter. */
  function Backoff(base: real, cap: real, i: nat): real
    requires i >= 1
  {
    var delay := Doubled(base, i - 1);
    if delay < cap then delay else cap
  }

  /** The delay is the smaller of the cap and the doubled base. */
  lemma BackoffIsMinimum(base: real, cap: real, i: nat)
    requires i >= 1
    ensures Backoff(base, cap, i) == if base * Pow2(i - 1) < cap then base * Pow2(i - 1) else cap
  {
    DoubledIsPower(base, i - 1);
  }

  /** Call `c` is the last one: all earlier ones were retryable, and it was not, or it was the limit. */
  ghost predicate StopsAt<T>(func: nat -> Attempt<T>, attempts: int, c: nat) {
    && 1 <= c <= attempts
    && (forall i: nat :: 1 <= i < c ==> func(i).Retryable?)
    && (c < attempts ==> !func(c).Retryable?)
  }

  /** What the caller gets when this call was the last one. */
  function Final<T>(attempt: Attempt<T>): Result<T> {
    match attempt
    case Ok(v) => Success(v)
    case Retryable(e) => Raised(e)
    case Fatal(e) => Raised(e)
  }

  /** There is exactly one stopping call. */
  lemma StopsOnce<T>(func: nat -> Attempt<T>, attempts: int)
    requires attempts >= 1
    ensures exists c: nat :: StopsAt(func, attempts, c)
    ensures forall c: nat, d: nat :: StopsAt(func, attempts, c) && StopsAt(func, attempts, d) ==> c == d
  {
    var c: nat := 1;
    while c < attempts && func(c).Retryable?
      invariant 1 <= c <= attempts
      invariant forall i: nat :: 1 <= i < c ==> func(i).Retryable?
    {
      c := c + 1;
    }
    assert StopsAt(func, attempts, c);
  }

  function Asleep(sleeps: seq<real>): real {
    if sleeps == [] then 0.0 else Asleep(sleeps[..|sleeps| - 1]) + sleeps[|sleeps| - 1]
  }

  /** The backoff after the first `n` failed calls, without jitter. */
  function BackoffSum(base: real, cap: real, n: nat): real {
    if n == 0 then 0.0 else BackoffSum(base, cap, n - 1) + Backoff(base, cap, n)
  }

  ghost predicate SleepsOf(base: real, cap: real, jitter: nat -> real, sleeps: seq<real>) {
    forall i: nat :: 1 <= i <= |sleeps| ==> sleeps[i - 1] == Backoff(base, cap, i) + jitter(i)
  }

  /** The jitter is drawn between 0 and the base delay. */
  ghost predicate JitterIn(jitter: nat -> real, base: real) {
    forall i: nat :: 0.0 <= jitter(i) <= base
  }

  /**
   The time slept lies between the plain backoff and that plus `base` per sleep, and under
   both the linear and the exponential ceiling.
   */
  ghost predicate SleepBounded(base: real, cap: real, sleeps: seq<real>) {
    var n, slept := |sleeps|, Asleep(sleeps);
    && BackoffSum(base, cap, n) <= slept <= BackoffSum(base, cap, n) + n as real * base
    && slept <= n as real * cap + n as real * base
    && slept <= Doubled(base, n) - base + n as real * base
  }

  /** `x` added up `n` times. */
  function Times(n: nat, x: real): real {
    if n == 0 then 0.0 else Times(n - 1, x) + x
  }

  lemma {:induction false} TimesIsProduct(n: nat, x: real)
    ensures Times(n, x) == n as real * x
  {
    if n > 0 {
      TimesIsProduct(n - 1, x);
      RealTimesPred(n, x);
    }
  }

  /** The jitter adds at most `base` per sleep. */
  lemma {:induction false} JitterBounds(base: real, cap: real, jitter: nat -> real, sleeps: seq<real>)
    requires SleepsOf(base, cap, jitter, sleeps) && JitterIn(jitter, base)
    ensures var plain := BackoffSum(base, cap, |sleeps|);
            plain <= Asleep(sleeps) <= plain + Times(|sleeps|, base)
    decreases |sleeps|
  {
    var n := |sleeps|;
    if n > 0 {
      JitterBounds(base, cap, jitter, sleeps[..n - 1]);
      assert sleeps[n - 1] == Backoff(base, cap, n) + jitter(n);
    }
  }

  lemma {:induction false} BackoffAtMostCap(base: real, cap: real, n: nat)
    ensures BackoffSum(base, cap, n) <= Times(n, cap)
  {
    if n > 0 {
      BackoffAtMostCap(base, cap, n - 1);
    }
  }

  lemma {:induction false} BackoffAtMostGeometric(base: real, cap: real, n: nat)
    ensures BackoffSum(base, cap, n) <= Doubled(base, n) - base
  {
    if n > 0 {
      BackoffAtMostGeometric(base, cap, n - 1);
    }
  }

  /** The bounds on the time slept, as sums. */
  lemma SleepSums(base: real, cap: real, jitter: nat -> real, sleeps: seq<real>)
    requires SleepsOf(base, cap, jitter, sleeps) && JitterIn(jitter, base)
    ensures var n, slept := |sleeps|, Asleep(sleeps);
            && BackoffSum(base, cap, n) <= slept <= BackoffSum(base, cap, n) + Times(n, base)
            && slept <= Times(n, cap) + Times(n, base)
            && slept <= Doubled(base, n) - base + Times(n, base)
  {
    JitterBounds(base, cap, jitter, sleeps);
    BackoffAtMostCap(base, cap, |sleeps|);
    BackoffAtMostGeometric(base, cap, |sleeps|);
  }

  lemma SleepBounds(base: real, cap: real, jitter: nat -> real, sleeps: seq<real>)
    requires SleepsOf(base, cap, jitter, sleeps) && JitterIn(jitter, base)
    ensures SleepBounded(base, cap, sleeps)
  {
    var n := |sleeps|;
    SleepSums(base, cap, jitter, sleeps);
    TimesIsProduct(n, base);
    TimesIsProduct(n, cap);
  }

  lemma {:induction false} DoubledGrows(base: real, n: nat)
    requires base >= 0.0
    ensures 0.0 <= Doubled(base, n) <= Doubled(base, n + 1)
  {
    if n > 0 {
      DoubledGrows(base, n - 1);
    }
  }

  lemma {:induction false} UncappedSum(base: real, cap: real, n: nat)
    requires base >= 0.0
    requires n >= 1 ==> Doubled(base, n - 1) <= cap
    ensures BackoffSum(base, cap, n) == Doubled(base, n) - base
  {
    if n >= 1 {
      if n >= 2 {
        DoubledGrows(base, n - 2);
      }
      UncappedSum(base, cap, n - 1);
    }
  }

  /** Without reaching the cap the exponential ceiling less the jitter is exact. */
  lemma UncappedBackoff(base: real, cap: real, n: nat)
    requires base >= 0.0
    requires n >= 1 ==> base * Pow2(n - 1) <= cap
    ensures BackoffSum(base, cap, n) == base * Pow2(n) - base
  {
    if n >= 1 {
      DoubledIsPower(base, n - 1);
    }
    UncappedSum(base, cap, n);
    DoubledIsPower(base, n);
  }

  lemma {:induction false} CappedSum(base: real, cap: real, m: nat, n: nat)
    requires base >= 0.0 && m <= n
    requires (m >= 1 ==> Doubled(base, m - 1) <= cap) && Doubled(base, m) >= cap
    ensures BackoffSum(base, cap, n) == Doubled(base, m) - base + Times(n - m, cap)
    ensures Doubled(base, n) >= cap
  {
    if n == m {
      UncappedSum(base, cap, m);
    } else {
      CappedSum(base, cap, m, n - 1);
      DoubledGrows(base, n - 1);
    }
  }

  /** Where the cap is reached after `m` sleeps, each further one adds exactly the cap. */
  lemma CappedBackoff(base: real, cap: real, m: nat, n: nat)
    requires base >= 0.0 && m <= n
    requires (m >= 1 ==> base * Pow2(m - 1) <= cap) && base * Pow2(m) >= cap
    ensures BackoffSum(base, cap, n) == base * Pow2(m) - base + (n - m) as real * cap
  {
    if m >= 1 {
      DoubledIsPower(base, m - 1);
    }
    DoubledIsPower(base, m);
    CappedSum(base, cap, m, n);
    TimesIsProduct(n - m, cap);
  }

  /**
   The loop. `func(i)` is the outcome of call `i` and `jitter(i)` the random addition to the
   delay after it. There is one sleep fewer than calls, and the raise after the loop is
   unreachable.
   */
  method RetryAsync<T>(attempts: int, base: real, cap: real, func: nat -> Attempt<T>, jitter: nat -> real)
    returns (result: Result<T>, calls: nat, sleeps: seq<real>)
    ensures attempts < 1 ==> result.ValueError? && calls == 0 && sleeps == []
    ensures attempts >= 1 ==> StopsAt(func, attempts, calls)
    ensures attempts >= 1 ==>
              match func(calls)
              case Ok(v) => result == Success(v)
              case Retryable(e) => result == Raised(e) && calls == attempts
              case Fatal(e) => result == Raised(e)
    ensures attempts >= 1 ==> |sleeps| == calls - 1
    ensures SleepsOf(base, cap, jitter, sleeps)
    ensures JitterIn(jitter, base) ==> SleepBounded(base, cap, sleeps)
  {
    sleeps := [];
    ghost var bounded := JitterIn(jitter, base);
    if bounded {
      SleepBounds(base, cap, jitter, sleeps);
    }
    if attempts < 1 {
      return ValueError, 0, sleeps;
    }
    for attempt := 1 to attempts + 1
      invariant attempt <= attempts
      invariant |sleeps| == attempt - 1
      invariant forall i: nat :: 1 <= i < attempt ==> func(i).Retryable?
      invariant SleepsOf(base, cap, jitter, sleeps)
      invariant bounded ==> SleepBounded(base, cap, sleeps)
    {
      match func(attempt) {
        case Ok(v) => return Success(v), attempt, sleeps;
        case Fatal(e) => return Raised(e), attempt, sleeps;
        case Retryable(e) =>
          if attempt == attempts {
            return Raised(e), attempt, sleeps;
          }
          var delay := Backoff(base, cap, attempt) + jitter(attempt);
          sleeps := sleeps + [delay];
          if bounded {
            SleepBounds(base, cap, jitter, sleeps);
          }
      }
    }
    assert false;
  }
}
