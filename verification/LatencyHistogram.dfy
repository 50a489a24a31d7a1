/** Matching latencies in power-of-two buckets, and what a reported percentile says of the exact one. */
module LatencyHistograms {
  import opened ExchangeTypes
  import opened RingPositions

  const BUCKETS: nat := 64
  // The most samples for which a target rank can be worked out without overflow.
  const MAXIMUM_SAMPLES: nat := (WORD - 100) / 100

  type Samples = seq<nat>

  // ---- Buckets ------------------------------------------------------------------------------------

  function BitWidth(v: nat): nat {
    if v == 0 then 0 else 1 + BitWidth(v / 2)
  }

  function Bucket(v: nat): nat {
    if v == 0 then 0
    else if BitWidth(v) - 1 < BUCKETS - 1 then BitWidth(v) - 1 else BUCKETS - 1
  }

  function UpperBound(bucket: nat): nat {
    if bucket >= 63 then WORD - 1 else Pow2(bucket + 1) - 1
  }

  lemma {:induction false} WidthMeans(v: nat)
    requires v > 0
    ensures BitWidth(v) > 0 && Pow2(BitWidth(v) - 1) <= v < Pow2(BitWidth(v))
  {
    if v > 1 {
      WidthMeans(v / 2);
    }
  }

  lemma {:induction false} WidthFits(v: nat)
    requires 0 < v < WORD
    ensures BitWidth(v) <= 64 && Bucket(v) == BitWidth(v) - 1
  {
    WidthMeans(v);
    WordIsPow2();
    if BitWidth(v) > 64 {
      Pow2Grows(64, BitWidth(v) - 1);
    }
  }

  /** A bucket's bound is not below its values, and less than twice any of them. */
  lemma {:induction false} BoundIsWithinTwo(v: nat)
    requires v < WORD
    ensures v <= UpperBound(Bucket(v)) <= if v == 0 then 1 else 2 * v - 1
  {
    if v > 0 {
      WidthMeans(v);
      WidthFits(v);
      WordIsPow2();
      assert Pow2(BitWidth(v)) == 2 * Pow2(BitWidth(v) - 1);
    }
  }

  lemma {:induction false} BucketGrows(u: nat, v: nat)
    requires u <= v < WORD
    ensures Bucket(u) <= Bucket(v) < BUCKETS
  {
    if u > 0 {
      WidthMeans(u);
      WidthMeans(v);
      WidthFits(u);
      WidthFits(v);
      if BitWidth(u) > BitWidth(v) {
        Pow2Grows(BitWidth(v), BitWidth(u) - 1);
      }
    } else if v > 0 {
      WidthFits(v);
    }
  }

  lemma {:induction false} BoundGrows(a: nat, b: nat)
    requires a <= b
    ensures UpperBound(a) <= UpperBound(b)
  {
    WordIsPow2();
    if b < 63 {
      Pow2Grows(a + 1, b + 1);
    } else if a < 63 {
      Pow2Grows(a + 1, 64);
    }
  }

  // ---- Counting -----------------------------------------------------------------------------------

  // How many samples are at most v, and how many are in buckets up to b.
  function AtMost(samples: Samples, v: int): nat {
    if samples == [] then 0 else (if samples[0] <= v then 1 else 0) + AtMost(samples[1..], v)
  }

  function InBucket(samples: Samples, b: nat): nat {
    if samples == [] then 0 else (if Bucket(samples[0]) == b then 1 else 0) + InBucket(samples[1..], b)
  }

  function UpTo(samples: Samples, b: int): nat {
    if samples == [] then 0 else (if Bucket(samples[0]) <= b then 1 else 0) + UpTo(samples[1..], b)
  }

  predicate Words(samples: Samples) {
    forall i :: 0 <= i < |samples| ==> samples[i] < WORD
  }

  lemma {:induction false} AtMostGrows(samples: Samples, u: int, v: int)
    requires u <= v
    ensures AtMost(samples, u) <= AtMost(samples, v) <= |samples|
  {
    if samples != [] {
      AtMostGrows(samples[1..], u, v);
    }
  }

  lemma {:induction false} UpToNext(samples: Samples, b: nat)
    ensures UpTo(samples, b) == UpTo(samples, b - 1) + InBucket(samples, b)
  {
    if samples != [] {
      UpToNext(samples[1..], b);
    }
  }

  lemma {:induction false} UpToNothing(samples: Samples)
    ensures UpTo(samples, -1) == 0
  {
    if samples != [] {
      UpToNothing(samples[1..]);
    }
  }

  lemma {:induction false} UpToEverything(samples: Samples)
    ensures UpTo(samples, BUCKETS - 1) == |samples|
  {
    if samples != [] {
      UpToEverything(samples[1..]);
    }
  }

  // A bucket's samples are at most v if v is in a later one, and v's bucket holds all up to v.
  lemma {:induction false} BucketsAndValues(samples: Samples, v: nat, b: nat)
    requires Words(samples) && v < WORD
    ensures b < Bucket(v) ==> UpTo(samples, b) <= AtMost(samples, v - 1)
    ensures AtMost(samples, v) <= UpTo(samples, Bucket(v))
  {
    if samples != [] {
      BucketsAndValues(samples[1..], v, b);
      var u := samples[0];
      if u <= v {
        BucketGrows(u, v);
      } else {
        BucketGrows(v, u);
      }
      if u == v {
        assert Bucket(u) == Bucket(v);
      }
    }
  }

  // ---- The exact order statistic --------------------------------------------------------------------

  // v is the k-th smallest sample: a sample with fewer than k below it and at least k up to it.
  predicate IsRank(samples: Samples, k: nat, v: nat) {
    v in samples && AtMost(samples, v - 1) < k <= AtMost(samples, v)
  }

  lemma {:induction false} RankIsUnique(samples: Samples, j: nat, u: nat, k: nat, v: nat)
    requires IsRank(samples, j, u) && IsRank(samples, k, v) && j <= k
    ensures u <= v && (j == k ==> u == v)
  {
    if u > v {
      AtMostGrows(samples, v, u - 1);
    }
    if j == k && v > u {
      AtMostGrows(samples, u, v - 1);
    }
  }

  lemma {:induction false} RankBelow(samples: Samples, k: nat, bound: nat) returns (v: nat)
    requires 1 <= k <= AtMost(samples, bound)
    ensures IsRank(samples, k, v)
  {
    if AtMost(samples, bound - 1) < k {
      v := bound;
      SomeSampleIs(samples, v);
    } else {
      if bound == 0 {
        NoneNegative(samples);
      }
      v := RankBelow(samples, k, bound - 1);
    }
  }

  lemma {:induction false} NoneNegative(samples: Samples)
    ensures AtMost(samples, -1) == 0
  {
    if samples != [] {
      NoneNegative(samples[1..]);
    }
  }

  lemma {:induction false} SomeSampleIs(samples: Samples, v: nat)
    requires AtMost(samples, v - 1) < AtMost(samples, v)
    ensures v in samples
  {
    if samples[0] != v {
      SomeSampleIs(samples[1..], v);
    }
  }

  function TotalOf(samples: Samples): nat {
    if samples == [] then 0 else samples[0] + TotalOf(samples[1..])
  }

  // Adding to what is left of a total is adding to the total.
  lemma TotalWraps(left: nat, total: nat, more: nat)
    requires left == total % WORD
    ensures (left + more) % WORD == (more + total) % WORD
  {
    var rounds := total / WORD;
    assert more + total == (left + more) + rounds * WORD;
  }

  predicate IsMaximum(samples: Samples, m: nat) {
    if samples == [] then m == 0 else m in samples && forall i :: 0 <= i < |samples| ==> samples[i] <= m
  }

  lemma {:induction false} AllAtMost(samples: Samples, m: nat)
    requires forall i :: 0 <= i < |samples| ==> samples[i] <= m
    ensures AtMost(samples, m) == |samples|
  {
    if samples != [] {
      AllAtMost(samples[1..], m);
    }
  }

  // ---- The reported percentile ----------------------------------------------------------------------

  // The rank looked for: the nearest above the fraction, and at least the first.
  function Target(total: nat, numerator: nat, denominator: nat): nat
    requires denominator > 0
  {
    var ranked := (total * numerator + denominator - 1) / denominator;
    if ranked < 1 then 1 else ranked
  }

  // k is the nearest rank: the least number of samples, and at least one, that is p per cent of n.
  predicate IsNearestRank(k: nat, n: nat, p: nat) {
    1 <= k && k * 100 >= n * p && (k > 1 ==> (k - 1) * 100 < n * p)
  }

  /** The target is the nearest rank, and there is only one. */
  lemma {:induction false} TargetIsNearest(n: nat, p: nat, k: nat)
    ensures IsNearestRank(k, n, p) <==> k == Target(n, p, 100)
  {
    var all := n * p + 99;
    assert all == (all / 100) * 100 + all % 100;
  }

  lemma TargetInRange(total: nat, numerator: nat, denominator: nat)
    requires 0 < total && numerator <= denominator && denominator > 0
    ensures 1 <= Target(total, numerator, denominator) <= total
  {
    assert total * numerator <= total * denominator;
    DivisionGrows(total * numerator + denominator - 1, total * denominator + denominator - 1, denominator);
    assert (total * denominator + denominator - 1) / denominator == total by { QuotientIs(total, denominator); }
  }

  lemma QuotientIs(q: nat, d: nat)
    requires d > 0
    ensures (q * d + d - 1) / d == q
  {
    var n := q * d + d - 1;
    assert n == (n / d) * d + n % d;
    OneMoreTime(q, n / d, d);
    OneMoreTime(n / d, q, d);
  }

  lemma TargetGrows(total: nat, a: nat, b: nat, denominator: nat)
    requires a <= b && denominator > 0
    ensures Target(total, a, denominator) <= Target(total, b, denominator)
  {
    assert total * a <= total * b;
    DivisionGrows(total * a + denominator - 1, total * b + denominator - 1, denominator);
  }

  lemma DivisionGrows(x: nat, y: nat, d: nat)
    requires x <= y && d > 0
    ensures x / d <= y / d
  {
    assert x == (x / d) * d + x % d && y == (y / d) * d + y % d;
    OneMoreTime(y / d, x / d, d);
  }

  // The bound of the first bucket to reach the target, capped by the maximum, is that of the exact
  // sample's own bucket.
  lemma {:induction false} FirstBucketIsTheSamples(samples: Samples, k: nat, v: nat, b: nat)
    requires Words(samples) && IsRank(samples, k, v)
    requires k <= UpTo(samples, b) && UpTo(samples, b - 1) < k
    ensures b == Bucket(v)
  {
    assert v < WORD;
    BucketsAndValues(samples, v, b);
    if b > Bucket(v) {
      UpToGrows(samples, Bucket(v), b - 1);
    }
  }

  lemma {:induction false} UpToGrows(samples: Samples, a: int, b: int)
    requires a <= b
    ensures UpTo(samples, a) <= UpTo(samples, b)
  {
    if samples != [] {
      UpToGrows(samples[1..], a, b);
    }
  }

  // What is reported for a rank, told by the exact sample.
  function ReportedValue(v: nat, maximum: nat): nat {
    if UpperBound(Bucket(v)) < maximum then UpperBound(Bucket(v)) else maximum
  }

  /** The report is never below the exact sample, less than twice it, and never above the maximum. */
  lemma {:induction false} ReportIsWithinTwo(samples: Samples, k: nat, v: nat, maximum: nat)
    requires Words(samples) && IsRank(samples, k, v) && IsMaximum(samples, maximum)
    ensures v <= ReportedValue(v, maximum) <= maximum
    ensures ReportedValue(v, maximum) <= if v == 0 then 1 else 2 * v - 1
  {
    BoundIsWithinTwo(v);
  }

  lemma {:induction false} ReportsAreOrdered(u: nat, v: nat, maximum: nat)
    requires u <= v < WORD
    ensures ReportedValue(u, maximum) <= ReportedValue(v, maximum)
  {
    BucketGrows(u, v);
    BoundGrows(Bucket(u), Bucket(v));
  }

  class PerformanceMetrics {
    const latencyHistogram: array<nat>
    var latencySamples: nat
    var latencySum: nat
    var latencyMaximum: nat
    ghost var history: Samples

    ghost predicate Valid()
      reads this, latencyHistogram
    {
      && latencyHistogram.Length == BUCKETS
      && Words(history) && |history| < WORD
      && latencySamples == |history|
      && latencySum == TotalOf(history) % WORD
      && IsMaximum(history, latencyMaximum)
      && forall b :: 0 <= b < BUCKETS ==> latencyHistogram[b] == InBucket(history, b)
    }

    constructor ()
      ensures Valid() && fresh(latencyHistogram) && history == []
    {
      latencyHistogram := new nat[BUCKETS](_ => 0);
      latencySamples, latencySum, latencyMaximum := 0, 0, 0;
      history := [];
    }

    method RecordMatchingLatency(nanoseconds: nat)
      requires Valid() && nanoseconds < WORD && |history| + 1 < WORD
      modifies this, latencyHistogram
      ensures Valid() && history == [nanoseconds] + old(history)
    {
      var bucket := Bucket(nanoseconds);
      latencyHistogram[bucket] := latencyHistogram[bucket] + 1;
      latencySamples := latencySamples + 1;
      TotalWraps(latencySum, TotalOf(history), nanoseconds);
      latencySum := (latencySum + nanoseconds) % WORD;
      if latencyMaximum < nanoseconds {
        latencyMaximum := nanoseconds;
      }
      history := [nanoseconds] + history;
      assert history[1..] == old(history);
    }

    // The scan over the buckets; the maximum is reported when no bucket reaches the target.
    method Percentile(numerator: nat, denominator: nat) returns (reported: nat)
      requires Valid() && |history| * numerator + denominator <= WORD
      ensures history == [] || denominator == 0 ==> reported == 0
      ensures history != [] && denominator > 0 ==>
        var target := Target(|history|, numerator, denominator);
        && (target > |history| ==> reported == latencyMaximum)
        && forall v: nat :: IsRank(history, target, v) ==> reported == ReportedValue(v, latencyMaximum)
    {
      if latencySamples == 0 || denominator == 0 {
        return 0;
      }
      var target := Target(latencySamples, numerator, denominator);
      var cumulative := 0;
      UpToNothing(history);
      UpToEverything(history);
      for bucket := 0 to BUCKETS
        invariant cumulative == UpTo(history, bucket - 1) < target
      {
        UpToNext(history, bucket);
        UpToGrows(history, bucket, BUCKETS - 1);
        cumulative := cumulative + latencyHistogram[bucket];
        if cumulative >= target {
          forall v: nat | IsRank(history, target, v)
            ensures Bucket(v) == bucket
          {
            FirstBucketIsTheSamples(history, target, v, bucket);
          }
          return if UpperBound(bucket) < latencyMaximum then UpperBound(bucket) else latencyMaximum;
        }
      }
      forall v: nat | IsRank(history, target, v)
        ensures false
      {
        AtMostGrows(history, v, v);
      }
      return latencyMaximum;
    }

    /** The three percentiles of a snapshot, against the exact ones. */
    method Snapshot() returns (p50: nat, p95: nat, p99: nat, maximum: nat)
      requires Valid() && |history| <= MAXIMUM_SAMPLES
      ensures p50 <= p95 <= p99 <= maximum && IsMaximum(history, maximum)
      ensures Bounds(history, 50, p50) && Bounds(history, 95, p95) && Bounds(history, 99, p99)
    {
      p50 := Percentile(50, 100);
      p95 := Percentile(95, 100);
      p99 := Percentile(99, 100);
      maximum := latencyMaximum;
      if latencySamples > 0 {
        ghost var a := ExactPercentile(50);
        ghost var b := ExactPercentile(95);
        ghost var c := ExactPercentile(99);
        TargetGrows(|history|, 50, 95, 100);
        TargetGrows(|history|, 95, 99, 100);
        RankIsUnique(history, Target(|history|, 50, 100), a, Target(|history|, 95, 100), b);
        RankIsUnique(history, Target(|history|, 95, 100), b, Target(|history|, 99, 100), c);
        ReportsAreOrdered(a, b, maximum);
        ReportsAreOrdered(b, c, maximum);
        ReportBounds(50, a, p50);
        ReportBounds(95, b, p95);
        ReportBounds(99, c, p99);
      }
    }

    // The exact percentile of the recorded samples, which always exists.
    lemma {:induction false} ExactPercentile(numerator: nat) returns (v: nat)
      requires Valid() && history != [] && numerator <= 100
      ensures IsRank(history, Target(|history|, numerator, 100), v) && v < WORD
    {
      TargetInRange(|history|, numerator, 100);
      AllAtMost(history, latencyMaximum);
      v := RankBelow(history, Target(|history|, numerator, 100), latencyMaximum);
    }

    lemma {:induction false} ReportBounds(numerator: nat, v: nat, reported: nat)
      requires Valid() && history != [] && numerator <= 100
      requires IsRank(history, Target(|history|, numerator, 100), v) && reported == ReportedValue(v, latencyMaximum)
      ensures Bounds(history, numerator, reported)
    {
      forall k: nat, w: nat | IsNearestRank(k, |history|, numerator) && IsRank(history, k, w)
        ensures w == v
      {
        TargetIsNearest(|history|, numerator, k);
        RankIsUnique(history, k, w, k, v);
      }
      ReportIsWithinTwo(history, Target(|history|, numerator, 100), v, latencyMaximum);
    }
  }

  // A report against the exact nearest-rank percentile: at least it, and less than twice it.
  ghost predicate Bounds(samples: Samples, numerator: nat, reported: nat) {
    forall k: nat, v: nat :: IsNearestRank(k, |samples|, numerator) && IsRank(samples, k, v) ==>
      v <= reported <= if v == 0 then 1 else 2 * v - 1
  }
}
