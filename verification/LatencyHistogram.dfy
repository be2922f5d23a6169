/** The fixed-bucket latency histogram, against the samples it has forgotten. */
module LatencyHistogram {
  import opened Prelude
  import Sorting

  const BUCKETS := 25

  const BOUNDS: seq<real> := [
    0.05, 0.1, 0.25, 0.5, 1.0, 2.0, 4.0, 8.0, 16.0, 32.0, 64.0, 125.0, 250.0, 500.0, 1000.0, 2000.0, 4000.0, 8000.0,
    16000.0, 32000.0, 64000.0, 128000.0, 256000.0, 512000.0, 1024000.0]

  /** A JavaScript number as `record` sees it. */
  datatype Number = NotFinite | Finite(ms: real)

  predicate Counted(x: Number) {
    x.Finite? && x.ms >= 0.0
  }

  lemma BoundsAscend()
    ensures |BOUNDS| == BUCKETS && forall i, j :: 0 <= i < j < BUCKETS ==> BOUNDS[i] < BOUNDS[j]
  {
    StepsAscend(BOUNDS);
  }

  lemma {:induction false} StepsAscend(xs: seq<real>)
    requires forall i :: 0 < i < |xs| ==> xs[i - 1] < xs[i]
    ensures forall i, j :: 0 <= i < j < |xs| ==> xs[i] < xs[j]
  {
    if |xs| > 1 {
      var front := xs[..|xs| - 1];
      StepsAscend(front);
      forall i | 0 <= i < |xs| - 1 ensures xs[i] < xs[|xs| - 1] {
        if i < |xs| - 2 { assert front[i] < front[|front| - 1]; }
      }
    }
  }

  /** How many of the samples are at most `x`. */
  function AtMost(samples: seq<real>, x: real): (n: nat)
    ensures n <= |samples|
  {
    if samples == [] then 0
    else AtMost(samples[..|samples| - 1], x) + (if samples[|samples| - 1] <= x then 1 else 0)
  }

  /** Samples accounted for by the buckets up to and including `i`; the last bucket is open. */
  function UpTo(samples: seq<real>, i: nat): nat {
    if i < |BOUNDS| then AtMost(samples, BOUNDS[i]) else |samples|
  }

  function Sum(buckets: seq<nat>): nat {
    if buckets == [] then 0 else Sum(buckets[..|buckets| - 1]) + buckets[|buckets| - 1]
  }

  /** The first bucket whose bound is not below the sample. */
  function BucketOf(x: real, from: nat): (i: nat)
    requires from <= |BOUNDS|
    ensures from <= i <= |BOUNDS|
    ensures i < |BOUNDS| ==> x <= BOUNDS[i]
    ensures forall k :: from <= k < i ==> x > BOUNDS[k]
    decreases |BOUNDS| - from
  {
    if from == |BOUNDS| || x <= BOUNDS[from] then from else BucketOf(x, from + 1)
  }

  /** The counters describe exactly these samples. */
  ghost predicate Describes(buckets: seq<nat>, count: nat, maxMs: real, samples: seq<real>) {
    |buckets| == BUCKETS + 1 && count == |samples|
    && (forall i :: 0 <= i <= BUCKETS ==> Sum(buckets[..i + 1]) == UpTo(samples, i))
    && (forall k :: 0 <= k < |samples| ==> 0.0 <= samples[k] <= maxMs)
    && (if samples == [] then maxMs == 0.0 else maxMs in samples)
  }

  lemma {:induction false} SumBump(buckets: seq<nat>, b: nat, n: nat)
    requires b < |buckets| && n <= |buckets|
    ensures Sum(buckets[b := buckets[b] + 1][..n]) == Sum(buckets[..n]) + if b < n then 1 else 0
  {
    if n == 0 {
    } else {
      SumBump(buckets, b, n - 1);
      var c := buckets[b := buckets[b] + 1];
      assert c[..n][..n - 1] == c[..n - 1] && buckets[..n][..n - 1] == buckets[..n - 1];
    }
  }

  lemma UpToSnoc(samples: seq<real>, x: real, i: nat)
    requires i <= BUCKETS
    ensures UpTo(samples + [x], i) == UpTo(samples, i) + if BucketOf(x, 0) <= i then 1 else 0
  {
    hide BOUNDS, BucketOf, AtMost;
    assert |BOUNDS| == BUCKETS by { BoundsAscend(); }
    BucketBelow(x, i);
    if i < BUCKETS { AtMostSnoc(samples, x, BOUNDS[i]); }
  }

  lemma AtMostSnoc(samples: seq<real>, x: real, y: real)
    ensures AtMost(samples + [x], y) == AtMost(samples, y) + if x <= y then 1 else 0
  {
    assert (samples + [x])[..|samples|] == samples;
  }

  /** A sample lies in a bucket up to `i` exactly when it is at most that bucket's bound. */
  lemma BucketBelow(x: real, i: nat)
    requires i <= BUCKETS
    ensures i == BUCKETS ==> BucketOf(x, 0) <= i
    ensures i < BUCKETS ==> i < |BOUNDS| && (BucketOf(x, 0) <= i <==> x <= BOUNDS[i])
  {
    hide BOUNDS;
    BoundsAscend();
    var b := BucketOf(x, 0);
    if i < BUCKETS {
      if b < i { assert BOUNDS[b] < BOUNDS[i] && x <= BOUNDS[b]; }
      else if b > i { assert x > BOUNDS[i]; }
    }
  }

  lemma RecordDescribes(buckets: seq<nat>, count: nat, maxMs: real, samples: seq<real>, x: real)
    requires Describes(buckets, count, maxMs, samples) && x >= 0.0
    ensures var b := BucketOf(x, 0);
            b < |buckets|
            && Describes(buckets[b := buckets[b] + 1], count + 1, if x > maxMs then x else maxMs, samples + [x])
  {
    hide BOUNDS, UpTo, Sum, BucketOf;
    BucketBelow(x, BUCKETS);
    var b := BucketOf(x, 0);
    var bumped := buckets[b := buckets[b] + 1];
    forall i | 0 <= i <= BUCKETS ensures Sum(bumped[..i + 1]) == UpTo(samples + [x], i) {
      SumBump(buckets, b, i + 1);
      UpToSnoc(samples, x, i);
    }
    MaxSnoc(samples, maxMs, x);
  }

  /** The greatest sample after one more. */
  lemma MaxSnoc(samples: seq<real>, maxMs: real, x: real)
    requires x >= 0.0 && (forall k :: 0 <= k < |samples| ==> 0.0 <= samples[k] <= maxMs)
    requires if samples == [] then maxMs == 0.0 else maxMs in samples
    ensures var m := if x > maxMs then x else maxMs;
            m in samples + [x] && forall k :: 0 <= k < |samples + [x]| ==> 0.0 <= (samples + [x])[k] <= m
  {
    assert (samples + [x])[|samples|] == x;
  }

  // ----- percentiles

  function Ceil(x: real): int {
    -((-x).Floor)
  }

  /**
   * The rank of a percentile, from the product of the count and the fraction as the machine computes it. Rounding to
   * nearest keeps that product above zero, at most the count, and monotone in the fraction; so does exact arithmetic.
   */
  function Rank(product: real): int {
    Ceil(product)
  }

  predicate ProductOk(count: nat, product: real) {
    0.0 < product <= count as real
  }

  lemma ExactProduct(count: nat, f: real, g: real)
    requires count > 0 && 0.0 < f <= g <= 1.0
    ensures ProductOk(count, count as real * f) && count as real * f <= count as real * g
  {
  }

  lemma RankRange(count: nat, product: real)
    requires ProductOk(count, product)
    ensures 1 <= Rank(product) <= count
  {
  }

  /** The first bucket at which the cumulative count reaches the rank. */
  ghost predicate Reaches(samples: seq<real>, rank: int, i: nat) {
    i <= BUCKETS && UpTo(samples, i) >= rank && (i > 0 ==> UpTo(samples, i - 1) < rank)
  }

  /** The value a percentile in bucket `i` is reported as. */
  function Reported(i: nat, maxMs: real): real {
    if i < |BOUNDS| then BOUNDS[i] else maxMs
  }

  class Histogram {
    const buckets: array<nat>
    var count: nat
    var totalMs: real
    var maxMs: real
    ghost var samples: seq<real>

    ghost predicate Valid()
      reads this, buckets
    {
      buckets.Length == BUCKETS + 1 && Describes(buckets[..], count, maxMs, samples)
    }

    constructor ()
      ensures Valid() && samples == [] && totalMs == 0.0 && fresh(buckets)
    {
      buckets := new nat[BUCKETS + 1](_ => 0);
      count, totalMs, maxMs := 0, 0.0, 0.0;
      samples := [];
      new;
      forall i | 0 <= i <= BUCKETS ensures Sum(buckets[..][..i + 1]) == UpTo([], i) { ZeroSum(buckets[..][..i + 1]); }
    }

    method Record(elapsed: Number)
      requires Valid()
      modifies this, buckets
      ensures Valid()
      ensures samples == if Counted(elapsed) then old(samples) + [elapsed.ms] else old(samples)
      ensures totalMs == if Counted(elapsed) then old(totalMs) + elapsed.ms else old(totalMs)
    {
      hide BOUNDS, Describes, BucketOf;
      if !elapsed.Finite? || elapsed.ms < 0.0 { return; }
      var x := elapsed.ms;
      var index := BucketOf(x, 0);
      ghost var before := buckets[..];
      RecordDescribes(before, count, maxMs, samples, x);
      buckets[index] := buckets[index] + 1;
      assert buckets[..] == before[index := before[index] + 1];
      count := count + 1;
      totalMs := totalMs + x;
      if x > maxMs { maxMs := x; }
      samples := samples + [x];
    }

    /** The cumulative loop; its final fall-through return is never taken. */
    method Percentile(product: real) returns (r: Option<real>, ghost bucket: nat)
      requires Valid() && (count > 0 ==> ProductOk(count, product))
      ensures count == 0 <==> r.None?
      ensures count > 0 ==> Reaches(samples, Rank(product), bucket) && r == Some(Reported(bucket, maxMs))
    {
      r, bucket := None, 0;
      if count == 0 { return; }
      hide BOUNDS, UpTo;
      RankRange(count, product);
      assert |BOUNDS| == BUCKETS by { BoundsAscend(); }
      var rank := Rank(product);
      var cumulative := 0;
      var index := 0;
      assert buckets[..][..0] == [];
      while index < buckets.Length
        invariant 0 <= index <= buckets.Length
        invariant cumulative == Sum(buckets[..][..index])
        invariant index > 0 ==> UpTo(samples, index - 1) == cumulative < rank
      {
        assert buckets[..][..index + 1][..index] == buckets[..][..index];
        cumulative := cumulative + buckets[index];
        assert cumulative == Sum(buckets[..][..index + 1]) == UpTo(samples, index);
        if cumulative >= rank { return Some(if index < BUCKETS then BOUNDS[index] else maxMs), index; }
        index := index + 1;
      }
      LastBucket(samples);
      assert false;
    }

    /** The three percentiles of a snapshot, in exact arithmetic: each reports its order statistic, and they ascend. */
    method Snapshot() returns (p50: Option<real>, p95: Option<real>, p99: Option<real>)
      requires Valid()
      ensures (p50.None? <==> count == 0) && (p95.None? <==> count == 0) && (p99.None? <==> count == 0)
      ensures count > 0 ==>
                Reports(samples, maxMs, 0.5, p50.value) && Reports(samples, maxMs, 0.95, p95.value)
                && Reports(samples, maxMs, 0.99, p99.value) && p50.value <= p95.value <= p99.value
    {
      hide BOUNDS, Sum, UpTo, Reaches, Reported, Rank;
      var n := count as real;
      if count > 0 {
        ExactProduct(count, 0.5, 0.95);
        ExactProduct(count, 0.95, 0.99);
        ExactProduct(count, 0.99, 0.99);
      }
      ghost var i, j, k;
      p50, i := Percentile(n * 0.5);
      p95, j := Percentile(n * 0.95);
      p99, k := Percentile(n * 0.99);
      if count > 0 {
        PercentilesMonotone(samples, maxMs, n * 0.5, n * 0.95, i, j);
        PercentilesMonotone(samples, maxMs, n * 0.95, n * 0.99, j, k);
      }
    }
  }

  /** The value is what the histogram reports as the percentile of this fraction. */
  ghost predicate Reports(samples: seq<real>, maxMs: real, f: real, r: real) {
    exists i: nat :: Reaches(samples, Rank(|samples| as real * f), i) && r == Reported(i, maxMs)
  }

  /**
   * What is reported for the fraction `f` of `n` samples brackets the exact order statistic: the ceil(f * n)-th
   * smallest sample is at most the reported value, and above every bucket bound below that value.
   */
  lemma PercentileIsOrderStatistic(samples: seq<real>, sorted: seq<real>, maxMs: real, f: real, r: real)
    requires |samples| > 0 && 0.0 < f <= 1.0 && Reports(samples, maxMs, f, r)
    requires multiset(sorted) == multiset(samples) && Ascending(sorted)
    requires forall k :: 0 <= k < |samples| ==> samples[k] <= maxMs
    ensures var k := Ceil(|samples| as real * f);
            1 <= k <= |sorted| && sorted[k - 1] <= r && forall b :: b in BOUNDS && b < r ==> b < sorted[k - 1]
    ensures r in BOUNDS || r == maxMs
  {
    hide BOUNDS, UpTo;
    var rank := Rank(|samples| as real * f);
    ExactProduct(|samples|, f, f);
    RankRange(|samples|, |samples| as real * f);
    var i: nat :| Reaches(samples, rank, i) && r == Reported(i, maxMs);
    PercentileBrackets(samples, sorted, rank, i, maxMs);
    BoundsAscend();
    forall b | b in BOUNDS && b < r ensures b < sorted[rank - 1] {
      var k :| 0 <= k < |BOUNDS| && BOUNDS[k] == b;
      assert k < i;
      assert k <= i - 1 ==> BOUNDS[k] <= BOUNDS[i - 1];
    }
  }

  lemma LastBucket(samples: seq<real>)
    ensures UpTo(samples, BUCKETS) == |samples|
  {
    BoundsAscend();
  }

  lemma {:induction false} ZeroSum(buckets: seq<nat>)
    requires forall i :: 0 <= i < |buckets| ==> buckets[i] == 0
    ensures Sum(buckets) == 0
  {
    if buckets == [] {
    } else {
      ZeroSum(buckets[..|buckets| - 1]);
    }
  }

  /** Bucket counts always add up to the number of samples. */
  lemma CountsAddUp(buckets: seq<nat>, count: nat, maxMs: real, samples: seq<real>)
    requires Describes(buckets, count, maxMs, samples)
    ensures Sum(buckets) == count
  {
    LastBucket(samples);
    assert buckets[..BUCKETS + 1] == buckets;
  }

  // ----- against the exact order statistic

  predicate Ascending(xs: seq<real>) {
    forall i, j :: 0 <= i < j < |xs| ==> xs[i] <= xs[j]
  }

  lemma {:induction false} AtMostWithout(xs: seq<real>, j: nat, x: real)
    requires j < |xs|
    ensures AtMost(xs, x) == AtMost(xs[..j] + xs[j + 1..], x) + if xs[j] <= x then 1 else 0
  {
    var ys := xs[..j] + xs[j + 1..];
    if j == |xs| - 1 {
      assert ys == xs[..j];
    } else {
      var front := xs[..|xs| - 1];
      AtMostWithout(front, j, x);
      assert ys[..|ys| - 1] == front[..j] + front[j + 1..];
    }
  }

  lemma {:induction false} AtMostPermutation(a: seq<real>, b: seq<real>, x: real)
    requires multiset(a) == multiset(b)
    ensures AtMost(a, x) == AtMost(b, x)
    decreases |a|
  {
    assert |a| == |multiset(a)| == |multiset(b)| == |b|;
    if a == [] {
    } else {
      var y := a[|a| - 1];
      assert y in multiset(b) by { assert y in multiset(a); }
      var j :| 0 <= j < |b| && b[j] == y;
      AtMostWithout(b, j, x);
      Sorting.RemoveSame(a, |a| - 1, b, j);
      assert a[..|a| - 1] + a[|a|..] == a[..|a| - 1];
      AtMostPermutation(a[..|a| - 1], b[..j] + b[j + 1..], x);
    }
  }

  /** In ascending order, at least `r` values are at most `x` exactly when the `r`-th is. */
  lemma {:induction false} AtMostSorted(s: seq<real>, x: real, r: int)
    requires Ascending(s) && 1 <= r <= |s|
    ensures AtMost(s, x) >= r <==> s[r - 1] <= x
  {
    var front := s[..|s| - 1];
    if r < |s| {
      AtMostSorted(front, x, r);
    } else if s[r - 1] <= x {
      AllAtMost(s, x);
    }
  }

  lemma {:induction false} AllAtMost(s: seq<real>, x: real)
    requires forall i :: 0 <= i < |s| ==> s[i] <= x
    ensures AtMost(s, x) == |s|
  {
    if s == [] {
    } else {
      AllAtMost(s[..|s| - 1], x);
    }
  }

  /**
   * A reported percentile brackets the exact order statistic: the rank-th smallest sample is at most the reported
   * value, and above the bound of the bucket before it.
   */
  lemma PercentileBrackets(samples: seq<real>, sorted: seq<real>, rank: int, i: nat, maxMs: real)
    requires multiset(sorted) == multiset(samples) && Ascending(sorted) && 1 <= rank <= |samples|
    requires Reaches(samples, rank, i) && forall k :: 0 <= k < |samples| ==> samples[k] <= maxMs
    ensures |sorted| == |samples| && sorted[rank - 1] <= Reported(i, maxMs)
    ensures 0 < i ==> i - 1 < |BOUNDS| && sorted[rank - 1] > BOUNDS[i - 1]
  {
    hide BOUNDS;
    assert |sorted| == |multiset(sorted)| == |multiset(samples)| == |samples|;
    BoundsAscend();
    if i < BUCKETS {
      AtMostPermutation(samples, sorted, BOUNDS[i]);
      AtMostSorted(sorted, BOUNDS[i], rank);
    } else {
      assert sorted[rank - 1] in multiset(samples) by { assert sorted[rank - 1] in multiset(sorted); }
    }
    if i > 0 {
      AtMostPermutation(samples, sorted, BOUNDS[i - 1]);
      AtMostSorted(sorted, BOUNDS[i - 1], rank);
    }
  }

  /** The bounds start at a twentieth of a millisecond, end beyond a quarter of an hour, and grow at most 2.5-fold. */
  lemma BoundsGrow()
    ensures |BOUNDS| == 25 && BOUNDS[0] == 0.05 && BOUNDS[24] == 1024000.0
    ensures forall i :: 0 < i < 25 ==> BOUNDS[i - 1] < BOUNDS[i] <= 2.5 * BOUNDS[i - 1]
  {
  }

  /** So within the bounds a percentile is reported at most 2.5 times too high. */
  lemma PercentileIsClose(samples: seq<real>, sorted: seq<real>, rank: int, i: nat, maxMs: real)
    requires multiset(sorted) == multiset(samples) && Ascending(sorted) && 1 <= rank <= |samples|
    requires Reaches(samples, rank, i) && 0 < i < BUCKETS && forall k :: 0 <= k < |samples| ==> samples[k] <= maxMs
    ensures |sorted| == |samples| && sorted[rank - 1] <= Reported(i, maxMs) < 2.5 * sorted[rank - 1]
  {
    hide BOUNDS, UpTo;
    PercentileBrackets(samples, sorted, rank, i, maxMs);
    BoundsGrow();
  }

  lemma {:induction false} AtMostMonotone(samples: seq<real>, x: real, y: real)
    requires x <= y
    ensures AtMost(samples, x) <= AtMost(samples, y)
  {
    if samples == [] {
    } else {
      AtMostMonotone(samples[..|samples| - 1], x, y);
    }
  }

  lemma {:induction false} OverflowAbove(samples: seq<real>, x: real)
    requires AtMost(samples, x) < |samples|
    ensures exists k :: 0 <= k < |samples| && samples[k] > x
  {
    if !(exists k :: 0 <= k < |samples| && samples[k] > x) { AllAtMost(samples, x); }
  }

  /** Higher percentiles are never reported lower: p50 <= p95 <= p99. */
  lemma PercentilesMonotone(samples: seq<real>, maxMs: real, p: real, q: real, i: nat, j: nat)
    requires ProductOk(|samples|, p) && ProductOk(|samples|, q) && p <= q
    requires forall k :: 0 <= k < |samples| ==> samples[k] <= maxMs
    requires Reaches(samples, Rank(p), i) && Reaches(samples, Rank(q), j)
    ensures i <= j && Reported(i, maxMs) <= Reported(j, maxMs)
  {
    hide BOUNDS;
    BoundsAscend();
    if j < i {
      UpToMonotone(samples, j, i - 1);
    }
    if i < BUCKETS && j == BUCKETS {
      RankRange(|samples|, q);
      OverflowAbove(samples, BOUNDS[BUCKETS - 1]);
      var k :| 0 <= k < |samples| && samples[k] > BOUNDS[BUCKETS - 1];
      assert BOUNDS[i] <= BOUNDS[BUCKETS - 1];
    }
  }

  lemma UpToMonotone(samples: seq<real>, i: nat, j: nat)
    requires i <= j <= BUCKETS
    ensures UpTo(samples, i) <= UpTo(samples, j)
  {
    hide BOUNDS;
    BoundsAscend();
    if i < j && j < BUCKETS { AtMostMonotone(samples, BOUNDS[i], BOUNDS[j]); }
  }
}
