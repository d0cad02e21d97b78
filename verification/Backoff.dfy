/** The retry schedule: a capped doubling loop and the jitter applied to it (internal/delivery/policy.go).
    Floating point is taken as exact real arithmetic; the integers are 64 bits wide. */
module Backoff {
  import opened Prelude

  newtype int64 = x: int | -0x8000_0000_0000_0000 <= x <= 0x7fff_ffff_ffff_ffff

  datatype RetryPolicy = RetryPolicy(base: Duration, max: Duration, jitter: real)

  function NewRetryPolicy(base: Duration, max: Duration, jitter: real): Result<RetryPolicy, string> {
    if base <= 0 then Err("base delay must be positive")
    else if max < base then Err("max delay must not be less than base delay")
    else if jitter < 0.0 || jitter > 1.0 then Err("jitter must be between 0 and 1")
    else Ok(RetryPolicy(base, max, jitter))
  }

  /** A policy that came out of NewRetryPolicy. */
  predicate Valid(p: RetryPolicy) {
    NewRetryPolicy(p.base, p.max, p.jitter) == Ok(p) && p.max <= MAX_INT64
  }

  // ---------------------------------------------------------------- the doubling loop

  function Pow2(n: nat): nat {
    if n == 0 then 1 else 2 * Pow2(n - 1)
  }

  /** The attempt with numbers below 1 taken as 1. */
  function Nth(attempt: int): nat {
    if attempt < 1 then 1 else attempt
  }

  /** The base delay doubled once for each attempt after the first, without a cap. */
  function Uncapped(p: RetryPolicy, attempt: int): int {
    p.base * Pow2(Nth(attempt) - 1)
  }

  /** The loop reaches the cap one nanosecond early: exactly when doubling lands on max - 1. */
  predicate RoundsUp(p: RetryPolicy, attempt: int) {
    attempt >= 2 && Uncapped(p, attempt) == p.max - 1
  }

  /** The delay before jitter, in closed form. */
  function Capped(p: RetryPolicy, attempt: int): Duration {
    if RoundsUp(p, attempt) then p.max else Min(p.max, Uncapped(p, attempt))
  }

  lemma {:induction false} Pow2Grows(m: nat, n: nat)
    requires m <= n
    ensures 1 <= Pow2(m) <= Pow2(n)
    ensures m < n ==> 2 * Pow2(m) <= Pow2(n)
  {
    if n == 0 {
    } else if m < n {
      Pow2Grows(m, n - 1);
    } else {
      Pow2Grows(m - 1, n - 1);
    }
  }

  lemma MultipleGrows(k: int, x: int, y: int)
    requires k > 0 && 1 <= x <= y
    ensures k <= k * x <= k * y
  {
    assert k * y == k * x + k * (y - x);
    assert k * x == k + k * (x - 1);
  }

  lemma UncappedGrows(p: RetryPolicy, a: int, b: int)
    requires p.base > 0 && a <= b
    ensures p.base <= Uncapped(p, a) <= Uncapped(p, b)
    ensures Nth(a) < Nth(b) ==> 2 * Uncapped(p, a) <= Uncapped(p, b)
  {
    var x, y := Pow2(Nth(a) - 1), Pow2(Nth(b) - 1);
    Pow2Grows(Nth(a) - 1, Nth(b) - 1);
    MultipleGrows(p.base, x, y);
    if Nth(a) < Nth(b) {
      MultipleGrows(p.base, 2 * x, y);
      assert p.base * (2 * x) == 2 * (p.base * x);
    }
  }

  lemma UncappedDoubles(p: RetryPolicy, n: int)
    requires n >= 1
    ensures Uncapped(p, n + 1) == 2 * Uncapped(p, n)
  {
    var x := Pow2(n - 1);
    assert Pow2(n) == 2 * x;
    assert p.base * (2 * x) == 2 * (p.base * x);
  }

  /** The loop computes the closed form for every attempt number. Its integers are 64 bits wide, so
      no doubling overflows. */
  method Doubled(p: RetryPolicy, attempt: int64) returns (delay: int64)
    requires Valid(p)
    ensures delay as int == Capped(p, attempt as int)
  {
    var n: int64 := if attempt < 1 then 1 else attempt;
    var max := p.max as int64;
    delay := p.base as int64;
    var current: int64 := 1;
    assert Pow2(0) == 1;
    while current < n
      invariant 1 <= current <= n
      invariant 1 <= delay <= max
      invariant delay as int == Uncapped(p, current as int)
      invariant current > 1 ==> delay < max - 1
    {
      if delay >= max / 2 {
        UncappedGrows(p, current as int, n as int);
        delay := max;
        break;
      }
      UncappedDoubles(p, current as int);
      delay := delay * 2;
      current := current + 1;
    }
    if delay > max {
      delay := max;
    }
  }

  /** The closed form is the capped exponential, or one nanosecond more at the one attempt where
      doubling lands just below the cap; it never exceeds the cap. */
  lemma CappedIsNearlyExponential(p: RetryPolicy, attempt: int)
    requires Valid(p)
    ensures Capped(p, attempt) == Min(p.max, Uncapped(p, attempt)) + if RoundsUp(p, attempt) then 1 else 0
    ensures p.base <= Capped(p, attempt) <= p.max
  {
    UncappedGrows(p, attempt, attempt);
  }

  /** With an even cap the exponential is exact. */
  lemma EvenCapIsExact(p: RetryPolicy, attempt: int)
    requires Valid(p) && p.max % 2 == 0
    ensures Capped(p, attempt) == Min(p.max, Uncapped(p, attempt))
  {
    if attempt >= 2 {
      UncappedDoubles(p, attempt - 1);
    }
  }

  /** The off-by-one: base 2ns and cap 5ns give 5ns at the second attempt, not 4ns. */
  lemma OddCapRoundsUp()
    ensures Capped(RetryPolicy(2, 5, 0.0), 2) == 5 && Uncapped(RetryPolicy(2, 5, 0.0), 2) == 4
  {
    assert Pow2(1) == 2 * Pow2(0) == 2;
  }

  /** Later attempts never wait less, before jitter. */
  lemma CappedGrows(p: RetryPolicy, a: int, b: int)
    requires Valid(p) && a <= b
    ensures Capped(p, a) <= Capped(p, b)
  {
    UncappedGrows(p, a, b);
  }

  // ---------------------------------------------------------------- jitter

  function Clamp(sample: real): real {
    if sample < 0.0 then 0.0 else if sample > 1.0 then 1.0 else sample
  }

  function Factor(jitter: real, sample: real): real {
    1.0 + (Clamp(sample) * 2.0 - 1.0) * jitter
  }

  const TWO_63: real := 9223372036854775808.0

  /** Conversion to a duration truncates; outside 64 bits the result depends on the machine, and
      comes in as an argument. */
  function ToDuration(x: real, outside: Duration): Duration {
    if 0.0 <= x < TWO_63 then x.Floor else if -TWO_63 <= x < 0.0 then -((-x).Floor) else outside
  }

  function NextDelay(p: RetryPolicy, attempt: int, sample: real, outside: Duration): Duration {
    Min(p.max, ToDuration(Jittered(p, attempt, sample), outside))
  }

  lemma TimesAtMost(x: real, y: real, k: real)
    requires x <= y && 0.0 <= k
    ensures x * k <= y * k
  {}

  lemma TimesBelow(x: real, y: real, k: real)
    requires x < y && 0.0 < k
    ensures x * k < y * k
  {}

  lemma WithinJitter(w: real, jitter: real)
    requires -1.0 <= w <= 1.0 && 0.0 <= jitter
    ensures -jitter <= w * jitter <= jitter
  {
    TimesAtMost(w, 1.0, jitter);
    TimesAtMost(-1.0, w, jitter);
    assert (-1.0) * jitter == -jitter && 1.0 * jitter == jitter;
  }

  lemma FactorBounds(p: RetryPolicy, sample: real)
    requires Valid(p)
    ensures 0.0 <= 1.0 - p.jitter <= Factor(p.jitter, sample) <= 1.0 + p.jitter
  {
    var w := Clamp(sample) * 2.0 - 1.0;
    var shift := w * p.jitter;
    WithinJitter(w, p.jitter);
    assert -p.jitter <= shift <= p.jitter;
    assert Factor(p.jitter, sample) == 1.0 + shift;
  }

  lemma FactorGrows(p: RetryPolicy, x: real, y: real)
    requires Valid(p) && x <= y
    ensures Factor(p.jitter, x) <= Factor(p.jitter, y)
  {
    TimesAtMost(Clamp(x) * 2.0 - 1.0, Clamp(y) * 2.0 - 1.0, p.jitter);
  }

  /** Products of non-negative numbers keep the order. */
  lemma ProductAtMost(a: real, b: real, c: real, d: real)
    requires 0.0 <= a <= c && 0.0 <= b <= d
    ensures 0.0 <= a * b <= c * d
  {
    TimesAtMost(a, c, b);
    TimesAtMost(b, d, c);
    TimesAtMost(0.0, a, b);
    assert c * b == b * c && d * c == c * d;
  }

  /** Conversion and cap keep the order of numbers in range. */
  lemma ConversionKeepsOrder(max: Duration, x: real, y: real, outside: Duration)
    requires 0.0 <= x <= y < TWO_63 && 0 <= max
    ensures 0 <= Min(max, ToDuration(x, outside)) <= Min(max, ToDuration(y, outside))
    ensures x.Floor <= y.Floor && ToDuration(y, outside) == y.Floor && y.Floor as real <= y
  {}

  function Scaled(delay: Duration, factor: real): real {
    delay as real * factor
  }

  lemma ScaledGrows(a: Duration, b: Duration, f: real, g: real)
    requires 0 <= a <= b && 0.0 <= f <= g
    ensures 0.0 <= Scaled(a, f) <= Scaled(b, g)
  {
    ProductAtMost(a as real, f, b as real, g);
  }

  function Jittered(p: RetryPolicy, attempt: int, sample: real): real {
    Scaled(Capped(p, attempt), Factor(p.jitter, sample))
  }

  /** The delay shortened and lengthened by the whole jitter. */
  function Shortest(p: RetryPolicy, attempt: int): real {
    Scaled(Capped(p, attempt), 1.0 - p.jitter)
  }

  function Longest(p: RetryPolicy, attempt: int): real {
    Scaled(Capped(p, attempt), 1.0 + p.jitter)
  }

  /** Even the longest jittered delay fits in 64 bits. */
  predicate Representable(p: RetryPolicy) {
    Scaled(p.max, 1.0 + p.jitter) < TWO_63
  }

  lemma LongestFits(p: RetryPolicy, attempt: int)
    requires Valid(p) && Representable(p)
    ensures Longest(p, attempt) < TWO_63
  {
    CappedIsNearlyExponential(p, attempt);
    ScaledGrows(Capped(p, attempt), p.max, 1.0 + p.jitter, 1.0 + p.jitter);
  }

  lemma ShortestBelow(p: RetryPolicy, attempt: int, sample: real)
    requires Valid(p)
    ensures 0.0 <= Shortest(p, attempt) <= Jittered(p, attempt, sample)
  {
    CappedIsNearlyExponential(p, attempt);
    FactorBounds(p, sample);
    ScaledGrows(Capped(p, attempt), Capped(p, attempt), 1.0 - p.jitter, Factor(p.jitter, sample));
  }

  lemma LongestAbove(p: RetryPolicy, attempt: int, sample: real)
    requires Valid(p)
    ensures Jittered(p, attempt, sample) <= Longest(p, attempt)
  {
    CappedIsNearlyExponential(p, attempt);
    FactorBounds(p, sample);
    ScaledGrows(Capped(p, attempt), Capped(p, attempt), Factor(p.jitter, sample), 1.0 + p.jitter);
  }

  lemma JitteredFits(p: RetryPolicy, attempt: int, sample: real)
    requires Valid(p) && Representable(p)
    ensures 0.0 <= Shortest(p, attempt) <= Jittered(p, attempt, sample) <= Longest(p, attempt) < TWO_63
  {
    LongestFits(p, attempt);
    ShortestBelow(p, attempt, sample);
    LongestAbove(p, attempt, sample);
  }

  lemma ShortestWithinCap(p: RetryPolicy, attempt: int)
    requires Valid(p)
    ensures Shortest(p, attempt) <= p.max as real
  {
    CappedIsNearlyExponential(p, attempt);
    ScaledGrows(Capped(p, attempt), p.max, 1.0 - p.jitter, 1.0);
  }

  /** The jittered delay lies between the delay shortened and the delay lengthened by the jitter,
      and within the cap. */
  lemma DelayBounds(p: RetryPolicy, attempt: int, sample: real, outside: Duration)
    requires Valid(p) && Representable(p)
    ensures 0 <= Shortest(p, attempt).Floor <= NextDelay(p, attempt, sample, outside) <= p.max
    ensures NextDelay(p, attempt, sample, outside) as real <= Longest(p, attempt)
  {
    JitteredFits(p, attempt, sample);
    ShortestWithinCap(p, attempt);
    ConversionKeepsOrder(p.max, Shortest(p, attempt), Jittered(p, attempt, sample), outside);
  }

  /** The exact delay: a sample between 0 and 1 shifts it in proportion, rounded down and capped; a
      sample outside counts as the nearer end. */
  lemma DelayIsExactly(p: RetryPolicy, attempt: int, sample: real, outside: Duration)
    requires Valid(p) && Representable(p)
    ensures 0.0 <= sample <= 1.0 ==>
              NextDelay(p, attempt, sample, outside)
              == Min(p.max, (Capped(p, attempt) as real * (1.0 + (sample * 2.0 - 1.0) * p.jitter)).Floor)
    ensures sample < 0.0 ==> NextDelay(p, attempt, sample, outside) == NextDelay(p, attempt, 0.0, outside)
    ensures sample > 1.0 ==> NextDelay(p, attempt, sample, outside) == NextDelay(p, attempt, 1.0, outside)
  {
    JitteredFits(p, attempt, sample);
    if 0.0 <= sample <= 1.0 {
      assert Jittered(p, attempt, sample)
          == Capped(p, attempt) as real * (1.0 + (sample * 2.0 - 1.0) * p.jitter);
    }
  }

  /** The delay is within 0 and the cap for all attempts, samples and machines if and only if the
      longest jittered delay fits in 64 bits. */
  lemma DelayIsSafeIffRepresentable(p: RetryPolicy)
    requires Valid(p)
    ensures Representable(p)
       <==> forall attempt: int, sample: real, outside: int :: 0 <= NextDelay(p, attempt, sample, outside) <= p.max
  {
    if Representable(p) {
      forall attempt: int, sample: real, outside: int
        ensures 0 <= NextDelay(p, attempt, sample, outside) <= p.max
      {
        DelayBounds(p, attempt, sample, outside);
      }
    } else {
      UnrepresentableEscapes(p, -1);
    }
  }

  lemma Pow2Cubes(n: nat)
    ensures Pow2(n + 3) == 8 * Pow2(n)
  {
    assert Pow2(n + 3) == 2 * Pow2(n + 2) == 4 * Pow2(n + 1);
  }

  lemma Pow2Skips(n: nat)
    ensures Pow2(n + 9) == 512 * Pow2(n)
  {
    Pow2Cubes(n);
    Pow2Cubes(n + 3);
    Pow2Cubes(n + 6);
  }

  lemma Pow2Of63()
    ensures Pow2(63) == 0x8000_0000_0000_0000
  {
    Pow2Skips(0);
    Pow2Skips(9);
    Pow2Skips(18);
    Pow2Skips(27);
    Pow2Skips(36);
    Pow2Skips(45);
    Pow2Skips(54);
  }

  /** Every policy has reached its cap by attempt 64. */
  lemma ReachesCap(p: RetryPolicy)
    requires Valid(p)
    ensures Capped(p, 64) == p.max
  {
    Pow2Of63();
    MultipleGrows(Pow2(63), 1, p.base);
    assert Uncapped(p, 64) == p.base * Pow2(63) == Pow2(63) * p.base;
  }

  /** At the cap and with sample 1 the machine decides. */
  lemma UnrepresentableEscapes(p: RetryPolicy, outside: Duration)
    requires Valid(p) && !Representable(p)
    ensures NextDelay(p, 64, 1.0, outside) == Min(p.max, outside)
  {
    ReachesCap(p);
    assert Factor(p.jitter, 1.0) == 1.0 + p.jitter;
  }

  /** The longest cap and full jitter pass the policy's checks and do not fit. */
  lemma ValidPolicyMayOverflow()
    ensures var p := RetryPolicy(1, MAX_INT64, 1.0); Valid(p) && !Representable(p)
  {}

  lemma RatioBelowOne(x: real, y: real)
    requires 0.0 <= x < y
    ensures 0.0 <= x / y < 1.0 && x / y * y == x
  {
    var w := x / y;
    assert w * y == x;
    if w < 0.0 {
      TimesBelow(w, 0.0, y);
    } else if w >= 1.0 {
      TimesAtMost(1.0, w, y);
    }
  }

  /** Below the longest factor, a sample below 1 stretches a delay by any factor. */
  lemma SampleFor(jitter: real, factor: real) returns (sample: real)
    requires jitter > 0.0 && 1.0 <= factor < 1.0 + jitter
    ensures 0.0 <= sample < 1.0 && Factor(jitter, sample) == factor
  {
    RatioBelowOne(factor - 1.0, jitter);
    var w := (factor - 1.0) / jitter;
    sample := (w + 1.0) / 2.0;
    assert Clamp(sample) * 2.0 - 1.0 == w;
  }

  /** A factor below the longest one that already leaves 64 bits. */
  lemma LeavesRange(p: RetryPolicy) returns (factor: real)
    requires Valid(p) && Scaled(p.max, 1.0 + p.jitter) > TWO_63
    ensures 1.0 <= factor < 1.0 + p.jitter && Scaled(p.max, factor) == TWO_63
  {
    var max := p.max as real;
    factor := TWO_63 / max;
    assert max * factor == TWO_63;
    if factor >= 1.0 + p.jitter {
      TimesAtMost(1.0 + p.jitter, factor, max);
    }
  }

  lemma FactorBelow(jitter: real, sample: real)
    requires jitter > 0.0 && 0.0 <= sample < 1.0
    ensures Factor(jitter, sample) < 1.0 + jitter
  {
    TimesBelow(sample * 2.0 - 1.0, 1.0, jitter);
  }

  /** A sample below 1 stays below the longest delay, unless there is no jitter at all. */
  lemma ScaledBelow(p: RetryPolicy, sample: real)
    requires Valid(p) && 0.0 <= sample < 1.0 && Scaled(p.max, 1.0 + p.jitter) <= TWO_63
    ensures Scaled(p.max, Factor(p.jitter, sample)) < TWO_63
  {
    if p.jitter > 0.0 {
      FactorBelow(p.jitter, sample);
      TimesBelow(Factor(p.jitter, sample), 1.0 + p.jitter, p.max as real);
    }
  }

  lemma SampleBelowOne(p: RetryPolicy, attempt: int, sample: real)
    requires Valid(p) && 0.0 <= sample < 1.0 && Scaled(p.max, 1.0 + p.jitter) <= TWO_63
    ensures Jittered(p, attempt, sample) < TWO_63
  {
    CappedIsNearlyExponential(p, attempt);
    FactorBounds(p, sample);
    ScaledBelow(p, sample);
    ScaledGrows(Capped(p, attempt), p.max, Factor(p.jitter, sample), Factor(p.jitter, sample));
  }

  /** The worker's sampler never returns 1. For its samples the exact condition is one that the
      longest delay may just reach. */
  lemma SampledDelayIsSafeIff(p: RetryPolicy)
    requires Valid(p)
    ensures Scaled(p.max, 1.0 + p.jitter) <= TWO_63
       <==> forall attempt: int, sample: real, outside: int | 0.0 <= sample < 1.0 ::
              0 <= NextDelay(p, attempt, sample, outside) <= p.max
  {
    if Scaled(p.max, 1.0 + p.jitter) <= TWO_63 {
      forall attempt: int, sample: real, outside: int | 0.0 <= sample < 1.0
        ensures 0 <= NextDelay(p, attempt, sample, outside) <= p.max
      {
        SampleBelowOne(p, attempt, sample);
        ShortestBelow(p, attempt, sample);
      }
    } else {
      ReachesCap(p);
      var factor := LeavesRange(p);
      var sample := SampleFor(p.jitter, factor);
      assert NextDelay(p, 64, sample, -1) == -1;
    }
  }

  lemma JitteredGrows(p: RetryPolicy, a: int, b: int, x: real, y: real)
    requires Valid(p) && a <= b && x <= y
    ensures Jittered(p, a, x) <= Jittered(p, b, y)
  {
    CappedGrows(p, a, b);
    CappedIsNearlyExponential(p, a);
    FactorBounds(p, x);
    FactorGrows(p, x, y);
    ScaledGrows(Capped(p, a), Capped(p, b), Factor(p.jitter, x), Factor(p.jitter, y));
  }

  /** Later attempts and larger samples never wait less. */
  lemma DelayIsMonotone(p: RetryPolicy, a: int, b: int, x: real, y: real, outside: Duration)
    requires Valid(p) && Representable(p) && a <= b && x <= y
    ensures NextDelay(p, a, x, outside) <= NextDelay(p, b, y, outside)
  {
    JitteredGrows(p, a, b, x, y);
    JitteredFits(p, a, x);
    JitteredFits(p, b, y);
    ConversionKeepsOrder(p.max, Jittered(p, a, x), Jittered(p, b, y), outside);
  }

  lemma ShortestGrows(p: RetryPolicy, attempt: int)
    requires Valid(p)
    ensures Shortest(p, 1) <= Shortest(p, attempt)
    ensures Shortest(p, 1).Floor <= Shortest(p, attempt).Floor
  {
    CappedIsFirstBase(p);
    CappedIsNearlyExponential(p, attempt);
    ScaledGrows(p.base, Capped(p, attempt), 1.0 - p.jitter, 1.0 - p.jitter);
  }

  lemma SmallestSample(p: RetryPolicy)
    ensures Jittered(p, 1, 0.0) == Shortest(p, 1)
  {
    assert Factor(p.jitter, 0.0) == 1.0 - p.jitter;
  }

  /** With sample 0 the first delay is the base shortened by the whole jitter. */
  lemma FirstDelayIs(p: RetryPolicy, outside: Duration)
    requires Valid(p) && Representable(p)
    ensures NextDelay(p, 1, 0.0, outside) == Min(p.max, (p.base as real * (1.0 - p.jitter)).Floor)
    ensures Shortest(p, 1) == p.base as real * (1.0 - p.jitter)
  {
    CappedIsFirstBase(p);
    SmallestSample(p);
    JitteredFits(p, 1, 0.0);
    ConversionKeepsOrder(p.max, Shortest(p, 1), Shortest(p, 1), outside);
  }

  /** Every delay is positive if and only if the base shortened by the whole jitter still is a
      nanosecond. */
  lemma DelayIsPositiveIff(p: RetryPolicy, outside: Duration)
    requires Valid(p) && Representable(p)
    ensures (forall attempt: int, sample: real :: NextDelay(p, attempt, sample, outside) > 0)
       <==> (p.base as real * (1.0 - p.jitter)).Floor >= 1
  {
    FirstDelayIs(p, outside);
    if Shortest(p, 1).Floor >= 1 {
      forall attempt: int, sample: real
        ensures NextDelay(p, attempt, sample, outside) > 0
      {
        DelayBounds(p, attempt, sample, outside);
        ShortestGrows(p, attempt);
      }
    }
  }

  lemma CappedIsFirstBase(p: RetryPolicy)
    requires Valid(p)
    ensures Capped(p, 1) == p.base
  {
    assert Pow2(0) == 1;
  }

  /** The whole computation: the loop, the clamped sample, the jitter and the cap. */
  method ComputeNextDelay(p: RetryPolicy, attempt: int64, sample: real, outside: Duration) returns (result: Duration)
    requires Valid(p)
    ensures result == NextDelay(p, attempt as int, sample, outside)
    ensures Representable(p) ==> 0 <= result <= p.max
  {
    var delay := Doubled(p, attempt);
    var clamped := sample;
    if clamped < 0.0 {
      clamped := 0.0;
    }
    if clamped > 1.0 {
      clamped := 1.0;
    }
    assert clamped == Clamp(sample);
    var factor := 1.0 + (clamped * 2.0 - 1.0) * p.jitter;
    assert factor == Factor(p.jitter, sample);
    assert Scaled(delay as int, factor) == Jittered(p, attempt as int, sample);
    result := ToDuration(Scaled(delay as int, factor), outside);
    if result > p.max {
      result := p.max;
    }
    assert result == NextDelay(p, attempt as int, sample, outside);
    if Representable(p) {
      DelayBounds(p, attempt as int, sample, outside);
    }
  }
}
