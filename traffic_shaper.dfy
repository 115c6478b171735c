/** Traffic shaping: size buckets for packets, padding up to a cell size, and the
    random padding size and jitter delay drawn per request. A draw of
    `rng.gen_range(a..=b)` is a choice of any value in `a .. b`; the draw panics
    when `a > b`, which the callers must rule out. */
module TrafficShaping {
  import opened Ints
  import opened Bytes
  import opened Wrappers

  // ---------------------------------------------------------------- size buckets

  const BUCKETS: seq<nat> := [512, 1024, 2048, 4096, 8192, 16384, 32768, 65536]
  const LARGE_UNIT: nat := 65536

  predicate Ascending(s: seq<nat>)
  {
    forall i, j :: 0 <= i < j < |s| ==> s[i] < s[j]
  }

  /** The first bucket of `bs` that holds `n` bytes. */
  function FirstFitting(bs: seq<nat>, n: nat): (r: nat)
    requires |bs| > 0 && n <= bs[|bs| - 1]
    ensures r in bs && n <= r
  {
    if n <= bs[0] then bs[0] else FirstFitting(bs[1..], n)
  }

  /** The size `normalize_size` aims at: the first bucket that fits, and above the
      largest bucket the size rounded up to a multiple of 64 KiB. */
  function NormalizedSize(n: nat): (r: nat)
    ensures n <= r
  {
    if n <= LARGE_UNIT then FirstFitting(BUCKETS, n) else ((n + LARGE_UNIT - 1) / LARGE_UNIT) * LARGE_UNIT
  }

  /** `normalize_size`: the loop over the buckets with its early return, then the
      rounding. The result is unbounded here; see `NormalizeSizeWrapping` for the
      machine-width arithmetic. */
  method NormalizeSize(size: usize) returns (r: nat)
    ensures r == NormalizedSize(size)
  {
    var i := 0;
    while i < |BUCKETS|
      invariant 0 <= i <= |BUCKETS|
      invariant forall k :: 0 <= k < i ==> BUCKETS[k] < size
      invariant i < |BUCKETS| ==> FirstFittingFrom(size, i)
    {
      if size <= BUCKETS[i] {
        FirstFittingHere(size, i);
        return BUCKETS[i];
      }
      FirstFittingNext(size, i);
      i := i + 1;
    }
    assert BUCKETS[|BUCKETS| - 1] < size;
    r := ((size + 65535) / 65536) * 65536;
  }

  /** The search from bucket `i` on gives the same answer as from the start. */
  predicate FirstFittingFrom(n: nat, i: nat)
    requires i < |BUCKETS|
  {
    n <= LARGE_UNIT ==> FirstFitting(BUCKETS, n) == FirstFitting(BUCKETS[i..], n)
  }

  lemma FirstFittingHere(n: nat, i: nat)
    requires i < |BUCKETS| && FirstFittingFrom(n, i) && n <= BUCKETS[i]
    ensures NormalizedSize(n) == BUCKETS[i]
  {
  }

  lemma FirstFittingNext(n: nat, i: nat)
    requires i < |BUCKETS| && FirstFittingFrom(n, i) && BUCKETS[i] < n
    ensures i + 1 < |BUCKETS| ==> FirstFittingFrom(n, i + 1)
  {
    if i + 1 < |BUCKETS| && n <= LARGE_UNIT {
      assert BUCKETS[i..][1..] == BUCKETS[i + 1..];
    }
  }

  lemma BucketsAscending()
    ensures Ascending(BUCKETS)
  {
  }

  /** The first fitting bucket of an ascending list is the least bucket that fits. */
  lemma {:induction false} FirstFittingIsLeast(bs: seq<nat>, n: nat, b: nat)
    requires |bs| > 0 && n <= bs[|bs| - 1] && Ascending(bs)
    requires b in bs && n <= b
    ensures FirstFitting(bs, n) <= b
  {
    if n > bs[0] {
      if b == bs[0] {
      } else {
        assert b in bs[1..];
        FirstFittingIsLeast(bs[1..], n, b);
      }
    } else {
      var k :| 0 <= k < |bs| && bs[k] == b;
      assert k == 0 || bs[0] < bs[k];
    }
  }

  /** A size is never made smaller; up to 64 KiB it becomes the least bucket that
      holds it; above, the least multiple of 64 KiB that holds it. */
  lemma NormalizedSizeBounds(n: nat)
    ensures NormalizedSize(n) >= n
    ensures n <= LARGE_UNIT ==>
      NormalizedSize(n) in BUCKETS && forall b :: b in BUCKETS && n <= b ==> NormalizedSize(n) <= b
    ensures n > LARGE_UNIT ==>
      NormalizedSize(n) % LARGE_UNIT == 0 && NormalizedSize(n) < n + LARGE_UNIT
  {
    if n <= LARGE_UNIT {
      BucketsAscending();
      forall b | b in BUCKETS && n <= b
        ensures NormalizedSize(n) <= b
      {
        FirstFittingIsLeast(BUCKETS, n, b);
      }
    } else {
      RoundUp(n);
    }
  }

  lemma RoundUp(n: nat)
    ensures var r := ((n + LARGE_UNIT - 1) / LARGE_UNIT) * LARGE_UNIT;
      r >= n && r < n + LARGE_UNIT && r % LARGE_UNIT == 0
  {
  }

  /** Normalizing a normalized size changes nothing. */
  lemma NormalizedSizeIdempotent(n: nat)
    ensures NormalizedSize(NormalizedSize(n)) == NormalizedSize(n)
  {
    var r := NormalizedSize(n);
    NormalizedSizeBounds(n);
    if n <= LARGE_UNIT {
      NormalizedSizeBounds(r);
      BucketsAscending();
      FirstFittingIsLeast(BUCKETS, r, r);
    } else {
      var q := r / LARGE_UNIT;
      assert r == q * LARGE_UNIT;
      assert (r + LARGE_UNIT - 1) / LARGE_UNIT == q;
    }
  }

  /** A larger size never gets a smaller bucket. */
  lemma NormalizedSizeMonotone(a: nat, b: nat)
    requires a <= b
    ensures NormalizedSize(a) <= NormalizedSize(b)
  {
    NormalizedSizeBounds(a);
    NormalizedSizeBounds(b);
    if b <= LARGE_UNIT {
      assert NormalizedSize(b) in BUCKETS;
    } else if a > LARGE_UNIT {
      assert (a + LARGE_UNIT - 1) / LARGE_UNIT <= (b + LARGE_UNIT - 1) / LARGE_UNIT;
    }
  }

  /** The examples of the source's tests: sizes up to a bucket, ... */
  lemma NormalizedSizeSmallExamples()
    ensures NormalizedSize(100) == 512 && NormalizedSize(512) == 512
    ensures NormalizedSize(513) == 1024 && NormalizedSize(1000) == 1024
    ensures NormalizedSize(1025) == 2048
  {
    assert BUCKETS[1..][1..] == [2048, 4096, 8192, 16384, 32768, 65536];
  }

  /** ... and one past the largest bucket. */
  lemma NormalizedSizeLargeExample()
    ensures NormalizedSize(100000) == 131072
  {
  }

  /** `normalize_size` as compiled in a release build: `size + 65535` wraps modulo
      2^64. */
  function NormalizeSizeWrapping(size: usize): (r: usize)
    ensures size <= USIZE_MAX - 65535 ==> r == NormalizedSize(size)
  {
    if size <= LARGE_UNIT then FirstFitting(BUCKETS, size)
    else (((size + 65535) % (U64_MAX + 1)) / 65536) * 65536
  }

  /** The largest sizes wrap around to 0, smaller than the size itself. */
  lemma NormalizeSizeWrapsToZero()
    ensures NormalizeSizeWrapping(USIZE_MAX) == 0 < USIZE_MAX
  {
  }

  // ---------------------------------------------------------------- padding

  /** `PaddingGenerator`: pads data up to a target size. */
  datatype PaddingGenerator = PaddingGenerator(targetSize: usize)

  /** `PaddingGenerator::default`: one Tor cell payload. */
  function DefaultPaddingGenerator(): (g: PaddingGenerator)
    ensures g.targetSize == 512
  {
    PaddingGenerator(512)
  }

  /** `PaddingGenerator::generate`: random bytes that make up the difference to the
      target, none when the target is reached. */
  method Generate(g: PaddingGenerator, currentSize: usize) returns (padding: seq<byte>)
    ensures currentSize >= g.targetSize ==> padding == []
    ensures currentSize < g.targetSize ==> currentSize + |padding| == g.targetSize
  {
    if currentSize >= g.targetSize {
      return [];
    }
    var needed := g.targetSize - currentSize;
    assert |seq(needed, _ => 0 as byte)| == needed;
    padding :| |padding| == needed;
  }

  /** `PaddingGenerator::pad`: the data, followed by the generated padding. */
  method Pad(g: PaddingGenerator, data: seq<byte>) returns (result: seq<byte>)
    requires |data| <= USIZE_MAX
    ensures |result| == if |data| < g.targetSize then g.targetSize else |data|
    ensures result[..|data|] == data
  {
    var padding := Generate(g, |data|);
    result := data + padding;
  }

  // ---------------------------------------------------------------- shaper

  /** `TrafficShaper`: the padding and jitter ranges. */
  datatype TrafficShaper = TrafficShaper(minPadding: usize, maxPadding: usize, minJitterMs: u64, maxJitterMs: u64)

  /** `pad_request`: draws a padding size in the configured range, which is only
      logged; the body is returned as it is. */
  method PadRequest(t: TrafficShaper, body: seq<byte>) returns (padded: seq<byte>, drawn: nat)
    requires t.minPadding <= t.maxPadding
    ensures padded == body
    ensures t.minPadding <= drawn <= t.maxPadding
  {
    drawn :| t.minPadding <= drawn <= t.maxPadding;
    padded := body;
  }

  /** What a jitter step may do: nothing when the maximum is 0; otherwise sleep for a
      drawn delay in the range, unless the draw is 0. */
  predicate JitterAllowed(t: TrafficShaper, sleep: Option<nat>)
  {
    && (t.maxJitterMs == 0 ==> sleep.None?)
    && (sleep.Some? ==> 0 < sleep.value && t.minJitterMs <= sleep.value <= t.maxJitterMs)
    && (t.maxJitterMs != 0 && t.minJitterMs > 0 ==> sleep.Some?)
  }

  /** `apply_jitter` (and `apply_jitter_sync`, which differs only in how it sleeps):
      the sleep performed, if any. */
  method ApplyJitter(t: TrafficShaper) returns (sleep: Option<nat>)
    requires t.maxJitterMs != 0 ==> t.minJitterMs <= t.maxJitterMs
    ensures JitterAllowed(t, sleep)
  {
    if t.maxJitterMs == 0 {
      return None;
    }
    var jitter :| t.minJitterMs <= jitter <= t.maxJitterMs;
    if jitter > 0 {
      sleep := Some(jitter);
    } else {
      sleep := None;
    }
  }
}
