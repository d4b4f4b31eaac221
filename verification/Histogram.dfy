/**
 The load generator's latency histogram: exact buckets below 64 microseconds, then four buckets per
 power of two up to the full 64-bit range, and order statistics read off the cumulative counts.
 */
module Histogram {
  import opened Sequences

  type u64 = n: int | 0 <= n < 0x1_0000_0000_0000_0000

  const BUCKETS := 64 + 4 * 58

  function Pow2(k: nat): (p: nat)
    ensures p >= 1
  {
    if k == 0 then 1 else 2 * Pow2(k - 1)
  }

  /** 64 minus the number of leading zeros. */
  function BitLength(us: nat): nat {
    if us == 0 then 0 else 1 + BitLength(us / 2)
  }

  /** Four buckets per bit length, chosen by the two bits after the leading one. */
  function RawBucket(us: nat): nat
    requires us >= 64
  {
    BitLengthAtLeast(us);
    var il := BitLength(us);
    64 + (il - 7) * 4 + us / Pow2(il - 3) % 4
  }

  function BucketOf(us: u64): nat {
    if us < 64 then us
    else if RawBucket(us) < BUCKETS then RawBucket(us)
    else BUCKETS - 1
  }

  function BucketLower(idx: nat): nat {
    if idx < 64 then idx
    else
      var rel := idx - 64;
      var il := 7 + rel / 4;
      Pow2(il - 1) + rel % 4 * Pow2(il - 3)
  }

  // ---------------------------------------------------------------------------------------------
  // Bit lengths
  // ---------------------------------------------------------------------------------------------

  lemma {:induction false} BitLengthBounds(us: nat)
    requires us > 0
    ensures BitLength(us) >= 1
    ensures Pow2(BitLength(us) - 1) <= us < Pow2(BitLength(us))
    decreases us
  {
    if us > 1 { BitLengthBounds(us / 2); }
  }

  lemma {:induction false} BitLengthMonotone(a: nat, b: nat)
    requires a <= b
    ensures BitLength(a) <= BitLength(b)
    decreases b
  {
    if a > 0 { BitLengthMonotone(a / 2, b / 2); }
  }

  lemma BitLengthAtLeast(us: nat)
    requires us >= 64
    ensures BitLength(us) >= 7
  {
    BitLengthMonotone(64, us);
    assert BitLength(64) == 7;
  }

  lemma BitLengthAtMost(us: u64)
    ensures BitLength(us) <= 64
  {
    if us > 0 {
      BitLengthBounds(us);
      if BitLength(us) > 64 { Pow2Monotone(64, BitLength(us) - 1); Pow2Is64(); }
    }
  }

  lemma {:induction false} Pow2Monotone(a: nat, b: nat)
    requires a <= b
    ensures Pow2(a) <= Pow2(b)
    decreases b
  {
    if a < b { Pow2Monotone(a, b - 1); }
  }

  lemma {:induction false} Pow2Adds(a: nat, b: nat)
    ensures Pow2(a + b) == Pow2(a) * Pow2(b)
    decreases b
  {
    if b > 0 {
      Pow2Adds(a, b - 1);
      assert Pow2(a + b) == 2 * Pow2(a + (b - 1));
    }
  }

  lemma Pow2Is16()
    ensures Pow2(4) == 16
  {
    assert Pow2(2) == 4;
  }

  lemma Pow2Is64()
    ensures Pow2(64) == 0x1_0000_0000_0000_0000
  {
    Pow2Is16();
    hide Pow2;
    Pow2Adds(4, 4);
    Pow2Adds(8, 8);
    Pow2Adds(16, 16);
    Pow2Adds(32, 32);
  }

  // ---------------------------------------------------------------------------------------------
  // Buckets
  // ---------------------------------------------------------------------------------------------

  lemma MulMonotone(a: nat, b: nat, w: nat)
    requires a <= b
    ensures a * w <= b * w
  {
  }

  lemma DivBounds(us: nat, width: nat)
    requires width >= 1 && 4 * width <= us < 8 * width
    ensures var q := us / width; 4 <= q < 8 && q * width <= us < (q + 1) * width
  {
    var q := us / width;
    assert us == q * width + us % width;
    assert (q + 1) * width == q * width + width;
    if q < 4 { MulMonotone(q + 1, 4, width); }
    if q >= 8 { MulMonotone(8, q, width); }
  }

  lemma Pow2Thrice(il: nat)
    requires il >= 3
    ensures Pow2(il - 1) == 4 * Pow2(il - 3) && Pow2(il) == 8 * Pow2(il - 3)
  {
    assert Pow2(il - 1) == 2 * Pow2(il - 2);
  }

  /** The bucket of a large value: its bit length and the two bits after the leading one. */
  lemma LargeBucket(us: u64) returns (il: nat, sub: nat, width: nat)
    requires us >= 64
    ensures 7 <= il <= 64 && il == BitLength(us) && sub <= 3 && width == Pow2(il - 3)
    ensures BucketOf(us) == RawBucket(us) == 64 + (il - 7) * 4 + sub
    ensures (4 + sub) * width <= us < (5 + sub) * width
    ensures Pow2(il - 1) == 4 * width
  {
    hide Pow2; hide BitLength;
    BitLengthAtLeast(us);
    BitLengthAtMost(us);
    BitLengthBounds(us);
    il := BitLength(us);
    width := Pow2(il - 3);
    Pow2Thrice(il);
    DivBounds(us, width);
    var q := us / width;
    sub := q % 4;
    assert q == 4 + sub;
  }

  /** The clamp to the last bucket is never active. */
  lemma ClampIsDead(us: u64)
    ensures BucketOf(us) < BUCKETS
    ensures us >= 64 ==> BucketOf(us) == RawBucket(us)
  {
    if us >= 64 { var il, sub, width := LargeBucket(us); }
  }

  /** `r` is exact below 64, and otherwise at most `us`, by less than a quarter of itself. */
  predicate CloseBelow(r: nat, us: u64) {
    if us < 64 then r == us else r <= us && 4 * (us - r) < r
  }

  /** A bucket's lower bound never exceeds its values and is below them by less than a quarter of itself. */
  lemma LowerIsClose(us: u64)
    ensures CloseBelow(BucketLower(BucketOf(us)), us)
  {
    hide Pow2; hide BitLength; hide RawBucket;
    if us >= 64 {
      var il, sub, width := LargeBucket(us);
      var rel := (il - 7) * 4 + sub;
      assert rel / 4 == il - 7 && rel % 4 == sub;
      assert BucketLower(BucketOf(us)) == 4 * width + sub * width == (4 + sub) * width;
      assert (5 + sub) * width == (4 + sub) * width + width;
    }
  }

  lemma Distributes(sub: nat, width: nat)
    ensures (4 + sub) * width == 4 * width + sub * width
  {
  }

  lemma LowerParts(rel: nat, e: nat, sub: nat)
    requires rel == 4 * e + sub && sub < 4
    ensures BucketLower(64 + rel) == Pow2(e + 6) + sub * Pow2(e + 4)
  {
    hide Pow2;
    assert rel / 4 == e && rel % 4 == sub;
    assert 7 + e - 1 == e + 6 && 7 + e - 3 == e + 4;
  }

  /** Each power of two from 64 on is cut into four equal buckets. */
  lemma LowerIs(e: nat, sub: nat)
    requires sub < 4
    ensures BucketLower(64 + 4 * e + sub) == (4 + sub) * Pow2(e + 4)
  {
    hide Pow2;
    hide BucketLower;
    var rel, width := 4 * e + sub, Pow2(e + 4);
    Pow2Thrice(7 + e);
    LowerParts(rel, e, sub);
    Distributes(sub, width);
  }

  lemma LowerNext(b: nat)
    ensures BucketLower(b) < BucketLower(b + 1)
  {
    if b >= 64 {
      hide Pow2; hide BucketLower;
      var e, sub := (b - 64) / 4, (b - 64) % 4;
      LowerIs(e, sub);
      if sub < 3 {
        LowerIs(e, sub + 1);
      } else {
        LowerIs(e + 1, 0);
        Pow2Thrice(e + 5);
        Pow2Thrice(e + 4);
      }
    } else if b == 63 {
      LowerIs(0, 0);
    }
  }

  lemma {:induction false} LowerMonotone(a: nat, b: nat)
    requires a <= b
    ensures BucketLower(a) <= BucketLower(b)
    decreases b
  {
    hide BucketLower;
    if a < b {
      LowerNext(b - 1);
      LowerMonotone(a, b - 1);
    }
  }

  lemma BelowNext(us: u64)
    ensures us < BucketLower(BucketOf(us) + 1)
  {
    if us < 64 {
      LowerNext(us);
    } else {
      hide Pow2; hide BitLength; hide RawBucket; hide BucketLower;
      var il, sub, width := LargeBucket(us);
      if sub < 3 {
        LowerIs(il - 7, sub + 1);
      } else {
        LowerIs(il - 6, 0);
        Pow2Thrice(il);
        Pow2Thrice(il + 1);
      }
    }
  }

  /** A bucket holds exactly the values from its lower bound up to the next one's. */
  lemma BucketIff(us: u64, b: nat)
    ensures BucketOf(us) == b <==> BucketLower(b) <= us < BucketLower(b + 1)
  {
    hide BucketOf; hide BucketLower;
    var c := BucketOf(us);
    BelowNext(us);
    LowerIsClose(us);
    if c < b { LowerMonotone(c + 1, b); }
    if b < c { LowerMonotone(b + 1, c); }
  }

  lemma SmallBucket(us: u64)
    requires us < 64
    ensures BucketOf(us) == us
  {
  }

  /** Larger latencies never fall into smaller buckets. */
  lemma BucketMonotone(a: u64, b: u64)
    requires a <= b
    ensures BucketOf(a) <= BucketOf(b)
  {
    hide Pow2; hide BitLength; hide RawBucket; hide BucketOf;
    if a < 64 <= b {
      var il, sub, width := LargeBucket(b);
      SmallBucket(a);
    } else if a >= 64 {
      var ilA, subA, widthA := LargeBucket(a);
      var ilB, subB, widthB := LargeBucket(b);
      BitLengthMonotone(a, b);
      if ilA == ilB && subB < subA { MulMonotone(5 + subB, 4 + subA, widthA); }
    } else {
      SmallBucket(a);
      SmallBucket(b);
    }
  }

  // ---------------------------------------------------------------------------------------------
  // Counts
  // ---------------------------------------------------------------------------------------------

  function InBucket(b: nat): u64 -> seq<u64> { (x: u64) => if BucketOf(x) == b then [x] else [] }

  function UpToBucket(b: int): u64 -> seq<u64> { (x: u64) => if BucketOf(x) <= b then [x] else [] }

  /** Samples in bucket `b`. */
  function Tally(s: seq<u64>, b: nat): nat { |FlatMap(InBucket(b), s)| }

  /** Samples in buckets up to `b`. */
  function Cumulative(s: seq<u64>, b: int): nat { |FlatMap(UpToBucket(b), s)| }

  lemma TallyMore(s: seq<u64>, us: u64, b: nat)
    ensures Tally(s + [us], b) == Tally(s, b) + if BucketOf(us) == b then 1 else 0
  {
    hide BucketOf; hide FlatMap;
    FlatMapAppend(InBucket(b), s, us);
  }

  lemma {:induction false} CumulativeStep(s: seq<u64>, b: nat)
    ensures Cumulative(s, b) == Cumulative(s, b - 1) + Tally(s, b)
    decreases |s|
  {
    hide BucketOf;
    if s != [] { CumulativeStep(s[..|s| - 1], b); }
  }

  lemma {:induction false} CumulativeBounds(s: seq<u64>)
    ensures Cumulative(s, -1) == 0 && Cumulative(s, BUCKETS - 1) == |s|
    decreases |s|
  {
    hide BucketOf;
    if s != [] {
      var k := |s| - 1;
      CumulativeBounds(s[..k]);
      ClampIsDead(s[k]);
    }
  }

  predicate Ascending(s: seq<u64>) { forall i, j :: 0 <= i < j < |s| ==> s[i] <= s[j] }

  /** All of the first `k` samples lie at or below bucket `b`. */
  lemma {:induction false} AtLeast(s: seq<u64>, k: nat, b: int)
    requires k <= |s| && forall i :: 0 <= i < k ==> BucketOf(s[i]) <= b
    ensures Cumulative(s, b) >= k
    decreases |s|
  {
    hide BucketOf;
    if s != [] { AtLeast(s[..|s| - 1], if k == |s| then k - 1 else k, b); }
  }

  /** All samples from position `k` on lie above bucket `b`. */
  lemma {:induction false} AtMost(s: seq<u64>, k: nat, b: int)
    requires k <= |s| && forall i :: k <= i < |s| ==> BucketOf(s[i]) > b
    ensures Cumulative(s, b) <= k
    decreases |s|
  {
    hide BucketOf;
    if |s| > k { AtMost(s[..|s| - 1], k, b); } else if s != [] { Everything(s, b); }
  }

  lemma {:induction false} Everything(s: seq<u64>, b: int)
    ensures Cumulative(s, b) <= |s|
    decreases |s|
  {
    hide BucketOf;
    if s != [] { Everything(s[..|s| - 1], b); }
  }

  predicate SortedForm(sorted: seq<u64>, samples: seq<u64>) {
    |sorted| == |samples| && Ascending(sorted) && multiset(sorted) == multiset(samples)
  }

  lemma CumulativePermuted(a: seq<u64>, b: seq<u64>, bucket: int)
    requires multiset(a) == multiset(b)
    ensures Cumulative(a, bucket) == Cumulative(b, bucket)
  {
    var f := UpToBucket(bucket);
    FlatMapPermuted(f, a, b);
    hide FlatMap; hide UpToBucket;
    assert |FlatMap(f, a)| == |multiset(FlatMap(f, a))| == |multiset(FlatMap(f, b))| == |FlatMap(f, b)|;
  }

  /** The bucket where the cumulative count reaches `rank` is that of the `rank`-th smallest sample. */
  lemma RankBucket(samples: seq<u64>, sorted: seq<u64>, rank: nat, b: nat)
    requires SortedForm(sorted, samples) && 1 <= rank <= |sorted|
    requires Cumulative(samples, b - 1) < rank <= Cumulative(samples, b)
    ensures BucketOf(sorted[rank - 1]) == b
  {
    hide BucketOf; hide Cumulative;
    CumulativePermuted(samples, sorted, b);
    CumulativePermuted(samples, sorted, b - 1);
    forall i | 0 <= i < rank ensures BucketOf(sorted[i]) <= BucketOf(sorted[rank - 1]) {
      BucketMonotone(sorted[i], sorted[rank - 1]);
    }
    forall i | rank - 1 <= i < |sorted| ensures BucketOf(sorted[rank - 1]) <= BucketOf(sorted[i]) {
      BucketMonotone(sorted[rank - 1], sorted[i]);
    }
    if BucketOf(sorted[rank - 1]) < b { AtLeast(sorted, rank, b - 1); }
    if BucketOf(sorted[rank - 1]) > b { AtMost(sorted, rank - 1, b); }
  }

  lemma RankLower(samples: seq<u64>, rank: nat, b: nat)
    requires 1 <= rank <= |samples| && Cumulative(samples, b - 1) < rank <= Cumulative(samples, b)
    ensures forall sorted :: SortedForm(sorted, samples) ==>
      BucketOf(sorted[rank - 1]) == b && CloseBelow(BucketLower(b), sorted[rank - 1])
  {
    hide BucketOf; hide BucketLower; hide Cumulative;
    forall sorted | SortedForm(sorted, samples)
      ensures BucketOf(sorted[rank - 1]) == b && CloseBelow(BucketLower(b), sorted[rank - 1])
    {
      RankBucket(samples, sorted, rank, b);
      LowerIsClose(sorted[rank - 1]);
    }
  }

  // ---------------------------------------------------------------------------------------------
  // The object
  // ---------------------------------------------------------------------------------------------

  class LatencyStats {
    const latency: array<nat>
    var count: nat
    var sum: u64
    var max: u64
    ghost var samples: seq<u64>

    ghost predicate Valid() reads this, latency {
      && latency.Length == BUCKETS && count == |samples|
      && (forall b :: 0 <= b < BUCKETS ==> latency[b] == Tally(samples, b))
      && (forall i :: 0 <= i < |samples| ==> samples[i] <= max)
      && (if samples == [] then max == 0 else max in samples)
      && sum == Total(samples) % 0x1_0000_0000_0000_0000
    }

    constructor ()
      ensures Valid() && fresh(latency) && samples == []
    {
      latency := new nat[BUCKETS](_ => 0);
      count, sum, max, samples := 0, 0, 0, [];
    }

    method RecordLatency(us: u64)
      requires Valid()
      modifies this, latency
      ensures Valid() && samples == old(samples) + [us]
    {
      hide BucketOf; hide Tally; hide Total; hide Wrapped;
      ClampIsDead(us);
      var b := BucketOf(us);
      forall c: nat | c < BUCKETS ensures Tally(samples + [us], c) == Tally(samples, c) + if c == b then 1 else 0 {
        TallyMore(samples, us, c);
      }
      latency[b] := latency[b] + 1;
      count := count + 1;
      WrappedTotal(samples, us);
      sum := Wrapped(sum, us);
      if us > max { max := us; }
      samples := samples + [us];
    }

    /**
     Latency at a percentage: the lower bound of the bucket of the first sample, in ascending order,
     such that at least that percentage of the samples are no later; the maximum beyond 100.
     */
    method PercentileOf(p: real) returns (r: nat)
      requires Valid()
      ensures samples == [] ==> r == 0
      ensures samples != [] && p > 100.0 && RankOf(|samples|, p) > |samples| ==> r == max
      ensures samples != [] && RankOf(|samples|, p) <= |samples| ==> forall sorted :: SortedForm(sorted, samples) ==>
        var s := sorted[RankOf(|samples|, p) - 1]; r == BucketLower(BucketOf(s)) && CloseBelow(r, s)
      ensures samples != [] && p <= 100.0 ==> RankOf(|samples|, p) <= |samples|
    {
      hide BucketOf; hide BucketLower; hide FlatMap; hide Cumulative; hide Tally;
      hide Total; hide CloseBelow; hide SortedForm;
      if count == 0 { return 0; }
      r := Percentile(RankOf(count, p));
    }

    /**
     Latency at a rank counted from 1: the lower bound of the bucket of the `rank`-th smallest
     sample, whatever the order in which the samples arrived; 0 without samples.
     */
    method Percentile(rank: nat) returns (r: nat)
      requires Valid() && rank >= 1
      ensures samples == [] ==> r == 0
      ensures samples != [] && rank > |samples| ==> r == max
      ensures rank <= |samples| ==> forall sorted :: SortedForm(sorted, samples) ==>
        r == BucketLower(BucketOf(sorted[rank - 1])) && CloseBelow(r, sorted[rank - 1])
    {
      hide BucketOf; hide BucketLower; hide FlatMap; hide Cumulative; hide Tally;
      hide Total; hide CloseBelow; hide SortedForm;
      if count == 0 { return 0; }
      CumulativeBounds(samples);
      var acc := 0;
      for idx := 0 to latency.Length
        invariant acc == Cumulative(samples, idx - 1) && acc < rank
      {
        CumulativeStep(samples, idx);
        acc := acc + latency[idx];
        if acc >= rank {
          Everything(samples, idx);
          RankLower(samples, rank, idx);
          return BucketLower(idx);
        }
      }
      return max;
    }
  }

  /** The least whole number that is at least `x`. */
  function Ceiling(x: real): (n: int)
    ensures n as real - 1.0 < x <= n as real
  {
    -((-x).Floor)
  }

  /** The rank of percentage `p` among `n` samples: the first one with at least that share of them, at least 1. */
  function RankOf(n: nat, p: real): (k: nat)
    ensures k >= 1
    ensures k as real * 100.0 >= n as real * p
    ensures k > 1 ==> (k - 1) as real * 100.0 < n as real * p
    ensures n >= 1 && p <= 100.0 ==> k <= n
  {
    var c := Ceiling(n as real * p / 100.0);
    RankBounds(n, p, c);
    if c > 1 then c else 1
  }

  lemma RankBounds(n: nat, p: real, c: int)
    requires c as real - 1.0 < n as real * p / 100.0 <= c as real
    ensures c as real * 100.0 >= n as real * p > (c - 1) as real * 100.0
    ensures n >= 1 && p <= 100.0 ==> c <= n
  {
    var x := n as real * p;
    assert x / 100.0 * 100.0 == x;
    if p <= 100.0 { assert n as real * p <= n as real * 100.0; }
  }

  function Total(s: seq<u64>): nat {
    if s == [] then 0 else Total(s[..|s| - 1]) + s[|s| - 1]
  }

  /** The 64-bit counter holds the true total modulo its width. */
  lemma WrappedTotal(s: seq<u64>, us: u64)
    ensures Total(s + [us]) % 0x1_0000_0000_0000_0000 == Wrapped(Total(s) % 0x1_0000_0000_0000_0000, us)
  {
    assert (s + [us])[..|s|] == s;
  }

  function Wrapped(a: u64, b: u64): u64 {
    var x: int, y: int := a, b;
    (x + y) % 0x1_0000_0000_0000_0000
  }
}
