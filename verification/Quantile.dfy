/** Latency histogram quantiles by interpolation inside a bucket. */
module Quantile {

  /** Upper bucket bounds in milliseconds; an eleventh bucket is unbounded. */
  const BOUNDS: seq<real> := [1.0, 2.0, 5.0, 10.0, 20.0, 50.0, 100.0, 200.0, 500.0, 1000.0]

  const BUCKETS := 11

  function HistIndexFrom(ms: real, i: nat): (r: nat)
    requires i <= |BOUNDS|
    ensures i <= r <= |BOUNDS|
    ensures r < |BOUNDS| ==> ms <= BOUNDS[r]
    ensures forall k :: i <= k < r ==> BOUNDS[k] < ms
    decreases |BOUNDS| - i
  {
    if i == |BOUNDS| || ms <= BOUNDS[i] then i else HistIndexFrom(ms, i + 1)
  }

  function HistIndex(ms: real): nat {
    HistIndexFrom(ms, 0)
  }

  function Lower(i: nat): real
    requires i < BUCKETS
  {
    if i == 0 then 0.0 else BOUNDS[i - 1]
  }

  /** The value a bucket can report at most; the unbounded one reports its lower bound. */
  function Upper(i: nat): real
    requires i < BUCKETS
  {
    if i < |BOUNDS| then BOUNDS[i] else BOUNDS[|BOUNDS| - 1]
  }

  lemma BoundsIncrease(i: nat, j: nat)
    requires i < BUCKETS && j < BUCKETS
    ensures 0.0 <= Lower(i) <= Upper(i) <= 1000.0
    ensures i < j ==> Upper(i) <= Lower(j)
  {
  }

  function Sum(hist: seq<nat>): nat {
    if hist == [] then 0 else Sum(hist[..|hist| - 1]) + hist[|hist| - 1]
  }

  /** Linear interpolation at `target` in a bucket of `c` samples that starts at rank `cum`. */
  function Interpolate(i: nat, cum: nat, c: nat, target: real): real
    requires i < BUCKETS && c > 0
  {
    if i == |BOUNDS| then Lower(i)
    else Lower(i) + (Upper(i) - Lower(i)) * ((target - cum as real) / c as real)
  }

  /** The loop from bucket `i` on, `cum` samples having been passed. */
  function QuantileFrom(hist: seq<nat>, i: nat, cum: nat, target: real): real
    requires i <= |hist| <= BUCKETS
    decreases |hist| - i
  {
    if i == |hist| then 1000.0
    else if hist[i] > 0 && (cum + hist[i]) as real >= target then Interpolate(i, cum, hist[i], target)
    else QuantileFrom(hist, i + 1, cum + hist[i], target)
  }

  /** The sample rank a quantile asks for. */
  function Rank(q: real, total: nat): real {
    q * total as real
  }

  function QuantileOf(hist: seq<nat>, total: nat, q: real): real
    requires |hist| <= BUCKETS
  {
    if total == 0 then 0.0 else QuantileFrom(hist, 0, 0, Rank(q, total))
  }

  method ComputeQuantile(hist: seq<nat>, total: nat, q: real) returns (r: real)
    requires |hist| <= BUCKETS
    ensures r == QuantileOf(hist, total, q)
  {
    if total == 0 {
      return 0.0;
    }
    var target := Rank(q, total);
    var cum: nat := 0;
    var i := 0;
    while i < |hist|
      invariant 0 <= i <= |hist|
      invariant QuantileFrom(hist, i, cum, target) == QuantileFrom(hist, 0, 0, target)
    {
      var c := hist[i];
      if c != 0 {
        if (cum + c) as real >= target {
          return Interpolate(i, cum, c, target);
        }
        cum := cum + c;
      }
      i := i + 1;
    }
    return BOUNDS[|BOUNDS| - 1];
  }

  // ---- order and range ----

  lemma FractionBounds(x: real, c: real)
    requires 0.0 <= x <= c && 0.0 < c
    ensures 0.0 <= x / c <= 1.0
  {
  }

  lemma FractionMonotone(x: real, y: real, c: real)
    requires x <= y && 0.0 < c
    ensures x / c <= y / c
  {
    assert y / c - x / c == (y - x) / c;
  }

  lemma ScaleMonotone(w: real, x: real, y: real)
    requires 0.0 <= w && x <= y
    ensures w * x <= w * y
  {
    assert w * y - w * x == w * (y - x);
  }

  lemma InterpolateInBucket(i: nat, cum: nat, c: nat, target: real)
    requires i < BUCKETS && c > 0 && cum as real <= target <= (cum + c) as real
    ensures Lower(i) <= Interpolate(i, cum, c, target) <= Upper(i)
  {
    var x := target - cum as real;
    FractionBounds(x, c as real);
    BoundsIncrease(i, i);
    ScaleMonotone(Upper(i) - Lower(i), 0.0, x / c as real);
    ScaleMonotone(Upper(i) - Lower(i), x / c as real, 1.0);
  }

  lemma InterpolateMonotone(i: nat, cum: nat, c: nat, t: real, u: real)
    requires i < BUCKETS && c > 0 && t <= u
    ensures Interpolate(i, cum, c, t) <= Interpolate(i, cum, c, u)
  {
    BoundsIncrease(i, i);
    FractionMonotone(t - cum as real, u - cum as real, c as real);
    ScaleMonotone(Upper(i) - Lower(i), (t - cum as real) / c as real, (u - cum as real) / c as real);
  }

  lemma {:induction false} QuantileAtLeast(hist: seq<nat>, i: nat, cum: nat, target: real)
    requires i <= |hist| <= BUCKETS && cum as real <= target
    ensures (if i < BUCKETS then Lower(i) else 1000.0) <= QuantileFrom(hist, i, cum, target) <= 1000.0
    decreases |hist| - i
  {
    if i == |hist| {
      if i < BUCKETS {
        BoundsIncrease(i, i);
      }
    } else {
      BoundsIncrease(i, i);
      if hist[i] > 0 && (cum + hist[i]) as real >= target {
        InterpolateInBucket(i, cum, hist[i], target);
      } else {
        QuantileAtLeast(hist, i + 1, cum + hist[i], target);
        if i + 1 < BUCKETS {
          BoundsIncrease(i, i + 1);
        }
      }
    }
  }

  lemma {:induction false} QuantileFromMonotone(hist: seq<nat>, i: nat, cum: nat, t: real, u: real)
    requires i <= |hist| <= BUCKETS && cum as real <= t <= u
    ensures QuantileFrom(hist, i, cum, t) <= QuantileFrom(hist, i, cum, u)
    decreases |hist| - i
  {
    if i < |hist| {
      var c := hist[i];
      var stopT, stopU := c > 0 && (cum + c) as real >= t, c > 0 && (cum + c) as real >= u;
      if stopT && stopU {
        InterpolateMonotone(i, cum, c, t, u);
      } else if stopT {
        InterpolateInBucket(i, cum, c, t);
        QuantileAtLeast(hist, i + 1, cum + c, u);
        if i + 1 < BUCKETS {
          BoundsIncrease(i, i + 1);
        }
      } else {
        QuantileFromMonotone(hist, i + 1, cum + c, t, u);
      }
    }
  }

  function Prefix(hist: seq<nat>, i: nat): nat
    requires i <= |hist|
  {
    Sum(hist[..i])
  }

  /** The bucket that holds the target rank, and a value inside it. */
  ghost predicate FallsIn(hist: seq<nat>, i: nat, target: real, r: real) {
    && i < |hist| <= BUCKETS && hist[i] > 0
    && Prefix(hist, i) as real <= target <= Prefix(hist, i + 1) as real
    && Lower(i) <= r <= Upper(i)
  }

  lemma PrefixStep(hist: seq<nat>, i: nat)
    requires i < |hist|
    ensures Prefix(hist, i + 1) == Prefix(hist, i) + hist[i]
  {
    assert hist[..i + 1][..i] == hist[..i];
  }

  lemma {:induction false} QuantileFallsIn(hist: seq<nat>, i: nat, target: real) returns (k: nat)
    requires i <= |hist| <= BUCKETS && Prefix(hist, i) as real <= target <= Prefix(hist, |hist|) as real
    requires Prefix(hist, i) < Prefix(hist, |hist|)
    ensures FallsIn(hist, k, target, QuantileFrom(hist, i, Prefix(hist, i), target))
    decreases |hist| - i
  {
    assert i < |hist|;
    PrefixStep(hist, i);
    var cum := Prefix(hist, i);
    if hist[i] > 0 && (cum + hist[i]) as real >= target {
      k := i;
      InterpolateInBucket(i, cum, hist[i], target);
    } else {
      k := QuantileFallsIn(hist, i + 1, target);
    }
  }

  lemma PrefixEnds(hist: seq<nat>)
    ensures Prefix(hist, 0) == 0 && Prefix(hist, |hist|) == Sum(hist)
  {
    assert hist[..0] == [] && hist[..|hist|] == hist;
  }

  lemma RankOfAll(total: nat)
    ensures Rank(1.0, total) == total as real
  {
  }

  lemma RankMonotone(p: real, q: real, total: nat)
    requires p <= q
    ensures Rank(p, total) <= Rank(q, total)
  {
    ScaleMonotone(total as real, p, q);
  }

  lemma RankOfNone(total: nat)
    ensures Rank(0.0, total) == 0.0
  {
  }

  lemma RankInRange(p: real, q: real, total: nat)
    requires 0.0 <= p <= q
    ensures 0.0 <= Rank(p, total) <= Rank(q, total)
    ensures q <= 1.0 ==> Rank(q, total) <= total as real
  {
    RankOfNone(total);
    RankMonotone(0.0, p, total);
    RankMonotone(p, q, total);
    if q <= 1.0 {
      RankMonotone(q, 1.0, total);
      RankOfAll(total);
    }
  }

  lemma BucketValues(hist: seq<nat>, k: nat, target: real, r: real)
    requires FallsIn(hist, k, target, r)
    ensures 0.0 <= r <= 1000.0
  {
    BoundsIncrease(k, k);
  }

  /** The reported quantile lies in the bucket that contains the target rank, between 0 and 1000 ms. */
  lemma QuantileInBucket(hist: seq<nat>, total: nat, q: real) returns (k: nat)
    requires |hist| <= BUCKETS && total == Sum(hist) > 0 && 0.0 <= q <= 1.0
    ensures FallsIn(hist, k, Rank(q, total), QuantileOf(hist, total, q))
    ensures 0.0 <= QuantileOf(hist, total, q) <= 1000.0
  {
    RankInRange(q, q, total);
    PrefixEnds(hist);
    k := QuantileFallsIn(hist, 0, Rank(q, total));
    BucketValues(hist, k, Rank(q, total), QuantileOf(hist, total, q));
  }

  lemma QuantileMonotone(hist: seq<nat>, total: nat, p: real, q: real)
    requires |hist| <= BUCKETS && 0.0 <= p <= q
    ensures QuantileOf(hist, total, p) <= QuantileOf(hist, total, q)
  {
    if total > 0 {
      RankInRange(p, q, total);
      QuantileFromMonotone(hist, 0, 0, Rank(p, total), Rank(q, total));
    }
  }

  datatype Percentiles = Percentiles(p50: real, p90: real, p99: real)

  function PercentilesOf(hist: seq<nat>): (r: Percentiles)
    requires |hist| <= BUCKETS
    ensures r.p50 <= r.p90 <= r.p99
  {
    var n := Sum(hist);
    QuantileMonotone(hist, n, 0.50, 0.90);
    QuantileMonotone(hist, n, 0.90, 0.99);
    Percentiles(QuantileOf(hist, n, 0.50), QuantileOf(hist, n, 0.90), QuantileOf(hist, n, 0.99))
  }
}
