/** Timing API fuzzing: `Date.now()` is reduced to 100 ms precision and shifted by
    a small deterministic jitter, and timer delays are raised to the browser
    minimum and jittered. The hasher that makes the jitter is a parameter: any
    function of the seed and the input. */
module Timing {
  import opened Ints

  /** The hasher: `DefaultHasher` fed the seed and then the input. */
  type Hasher = (u64, u64) -> u64

  datatype TimingDefense = TimingDefense(
    datePrecisionMs: u64, perfPrecisionMs: u64, maxJitterMs: u64, jitterSeed: u64)

  /** The fields are private and set only by `new`: both precisions and the jitter
      bound are positive, so no division or remainder is by zero. */
  predicate Valid(d: TimingDefense)
  {
    d.datePrecisionMs > 0 && d.perfPrecisionMs > 0 && d.maxJitterMs > 0
  }

  /** `TimingDefense::new`: 100 ms precision for both clocks, jitter below 10 ms. */
  function New(jitterSeed: u64): (d: TimingDefense)
    ensures Valid(d)
    ensures d.datePrecisionMs == d.perfPrecisionMs == 100
    ensures d.maxJitterMs == 10 && d.jitterSeed == jitterSeed
  {
    TimingDefense(100, 100, 10, jitterSeed)
  }

  /** `deterministic_jitter`: the hash of seed and input, reduced below the bound. */
  function Jitter(d: TimingDefense, input: u64, hash: Hasher): (j: u64)
    requires Valid(d)
    ensures j < d.maxJitterMs
  {
    hash(d.jitterSeed, input) % d.maxJitterMs
  }

  /** The jitter depends on nothing but the seed, the bound and the input: two
      defenses that agree on seed and bound agree on every jitter. */
  lemma JitterDeterministic(d1: TimingDefense, d2: TimingDefense, input: u64, hash: Hasher)
    requires Valid(d1) && Valid(d2)
    requires d1.jitterSeed == d2.jitterSeed && d1.maxJitterMs == d2.maxJitterMs
    ensures Jitter(d1, input, hash) == Jitter(d2, input, hash)
  {
  }

  /** Rounding down to a multiple of the precision: the result is a multiple, at
      most the input, and less than one precision below it. */
  function RoundDown(a: u64, p: u64): (r: u64)
    requires p > 0
    ensures r <= a < r + p
    ensures r % p == 0
  {
    var q := a / p;
    assert q * p == a - a % p;
    MultipleMod(q, p);
    q * p
  }

  lemma MultipleMod(q: nat, p: nat)
    requires p > 0
    ensures (q * p) % p == 0
  {
    var k, m := (q * p) / p, (q * p) % p;
    assert p * (q - k) == m;
    if q - k >= 1 {
      assert false;
    } else if q - k <= -1 {
      assert false;
    }
  }

  /** `u64::saturating_add`. */
  function SaturatingAdd(x: u64, y: u64): (r: u64)
    ensures r == if x + y <= U64_MAX then x + y else U64_MAX
  {
    if x + y <= U64_MAX then x + y else U64_MAX
  }

  /** `fuzz_date_now`: the time rounded down to the date precision plus the jitter,
      saturating at the largest `u64`. */
  function FuzzDateNow(d: TimingDefense, actualMs: u64, hash: Hasher): (r: u64)
    requires Valid(d)
    ensures RoundDown(actualMs, d.datePrecisionMs) <= r
    ensures r < RoundDown(actualMs, d.datePrecisionMs) + d.maxJitterMs
    ensures r - RoundDown(actualMs, d.datePrecisionMs) == Jitter(d, actualMs, hash) || r == U64_MAX
  {
    SaturatingAdd(RoundDown(actualMs, d.datePrecisionMs), Jitter(d, actualMs, hash))
  }

  /** The example of the source's tests: with seed 42 the fuzzed time lies within
      the jitter bound above the time rounded to 100 ms. */
  lemma FuzzDateNowExample(hash: Hasher)
    ensures var r := FuzzDateNow(New(42), 1703412345678, hash);
      1703412345600 <= r < 1703412345610
  {
    var d := New(42);
    var reduced := RoundDown(1703412345678, 100);
    assert reduced == 1703412345600 by {
      assert 1703412345600 % 100 == 0;
    }
  }

  /** `minimum_timer_delay`: the browser standard minimum, 4 ms. */
  const MINIMUM_TIMER_DELAY: u64 := 4

  function MinimumTimerDelay(d: TimingDefense): u64
  {
    MINIMUM_TIMER_DELAY
  }

  function Max(x: u64, y: u64): u64
  {
    if x < y then y else x
  }

  /** `fuzz_timer_delay` as written: `delay + jitter` in `u64`, which panics on
      overflow in a debug build and wraps in a release build. The model follows
      the release build. */
  function FuzzTimerDelayWrapping(d: TimingDefense, requestedMs: u64, hash: Hasher): (r: u64)
    requires Valid(d)
  {
    var delay := Max(requestedMs, MinimumTimerDelay(d));
    (delay + Jitter(d, delay, hash)) % (U64_MAX + 1)
  }

  /** With a hash that makes a jitter of 1, the largest request wraps to a delay of
      0: below both the request and the minimum delay. */
  lemma FuzzTimerDelayWrapsToZero()
    ensures FuzzTimerDelayWrapping(New(0), U64_MAX as u64, (s: u64, i: u64) => 1) == 0
  {
    var hash: Hasher := (s: u64, i: u64) => 1;
    assert Jitter(New(0), U64_MAX as u64, hash) == 1;
  }

  /** `fuzz_timer_delay` with the sum saturating, as `fuzz_date_now` does: the delay
      is at least the request and the minimum, and below their maximum plus the
      jitter bound. */
  function FuzzTimerDelay(d: TimingDefense, requestedMs: u64, hash: Hasher): (r: u64)
    requires Valid(d)
    ensures r >= requestedMs && r >= MinimumTimerDelay(d)
    ensures r < Max(requestedMs, MinimumTimerDelay(d)) + d.maxJitterMs
  {
    var delay := Max(requestedMs, MinimumTimerDelay(d));
    SaturatingAdd(delay, Jitter(d, delay, hash))
  }

  /** Wherever the sum does not overflow, the saturating delay is the delay as
      written. */
  lemma FuzzTimerDelayAgrees(d: TimingDefense, requestedMs: u64, hash: Hasher)
    requires Valid(d)
    requires Max(requestedMs, MinimumTimerDelay(d)) + d.maxJitterMs <= U64_MAX + 1
    ensures FuzzTimerDelay(d, requestedMs, hash) == FuzzTimerDelayWrapping(d, requestedMs, hash)
  {
  }
}
