/** The geometric bucket grid: how it is generated, and when it is the grid the swap needs. */
module Grid {
  import opened Arithmetic
  import opened FixedPoint
  import opened Swap
  import opened Backing

  /** The lower bound of bucket `id`: the first bound grown `id` times, floored each time. */
  function LowerOf(pMin: nat, growth: nat, id: nat): (r: nat) {
    if id == 0 then pMin
    else
      FloorNonNeg(LowerOf(pMin, growth, id - 1) * growth, SCALE);
      LowerOf(pMin, growth, id - 1) * growth / SCALE
  }

  method ComputeBucketBounds(pMin: nat, growth: nat, id: nat) returns (b: Bounds)
    ensures b == Bounds(LowerOf(pMin, growth, id), LowerOf(pMin, growth, id + 1))
  {
    var lower := pMin;
    for i := 0 to id
      invariant lower == LowerOf(pMin, growth, i)
    {
      FloorNonNeg(lower * growth, SCALE);
      lower := lower * growth / SCALE;
    }
    FloorNonNeg(lower * growth, SCALE);
    b := Bounds(lower, lower * growth / SCALE);
  }

  /** The buckets carry the generated bounds, whatever their state. */
  ghost predicate Generated(pMin: nat, growth: nat, bs: seq<Bucket>) {
    forall i :: 0 <= i < |bs| ==>
      bs[i].bounds == Bounds(LowerOf(pMin, growth, i), LowerOf(pMin, growth, i + 1))
  }

  /** One step of growth gains at least one unit. */
  predicate Grows(p: nat, growth: nat) {
    p * growth >= p * SCALE + SCALE
  }

  lemma GrowsMeansRises(p: nat, growth: nat)
    ensures p < p * growth / SCALE <==> Grows(p, growth)
  {
    FloorAtLeast(p * growth, SCALE, p + 1);
  }

  lemma GrowthSpreads(p: nat, q: nat, growth: nat)
    requires Grows(p, growth) && p <= q
    ensures Grows(q, growth)
  {
    if growth <= SCALE {
      MulMono(growth, SCALE, p);
    } else {
      MulMono(p, q, growth - SCALE);
      assert p * (growth - SCALE) == p * growth - p * SCALE;
      assert q * (growth - SCALE) == q * growth - q * SCALE;
    }
  }

  lemma {:induction false} BoundsRise(pMin: nat, growth: nat, i: nat)
    requires Grows(pMin, growth)
    ensures pMin <= LowerOf(pMin, growth, i) < LowerOf(pMin, growth, i + 1)
  {
    if i > 0 {
      BoundsRise(pMin, growth, i - 1);
    }
    GrowthSpreads(pMin, LowerOf(pMin, growth, i), growth);
    GrowsMeansRises(LowerOf(pMin, growth, i), growth);
  }

  /**
   A generated grid is contiguous and rising, as the swap assumes, if and only if the
   very first bucket is not squeezed away by rounding.
   */
  lemma GridIsContiguous(pMin: nat, growth: nat, bs: seq<Bucket>)
    requires Generated(pMin, growth, bs) && |bs| > 0
    ensures Contiguous(bs) <==> Grows(pMin, growth)
  {
    GrowsMeansRises(pMin, growth);
    if Grows(pMin, growth) {
      forall i | 0 <= i < |bs|
        ensures bs[i].bounds.lower < bs[i].bounds.upper
      {
        BoundsRise(pMin, growth, i);
      }
      forall i | 0 < i < |bs|
        ensures bs[i - 1].bounds.upper == bs[i].bounds.lower
      {
        BoundsMeet(pMin, growth, bs, i - 1);
      }
    } else {
      assert bs[0].bounds == Bounds(LowerOf(pMin, growth, 0), LowerOf(pMin, growth, 1));
    }
  }

  lemma BoundsMeet(pMin: nat, growth: nat, bs: seq<Bucket>, i: nat)
    requires Generated(pMin, growth, bs) && i + 1 < |bs|
    ensures bs[i].bounds.upper == bs[i + 1].bounds.lower
  {
    var j := i + 1;
    assert bs[i].bounds == Bounds(LowerOf(pMin, growth, i), LowerOf(pMin, growth, i + 1));
    assert bs[j].bounds == Bounds(LowerOf(pMin, growth, j), LowerOf(pMin, growth, j + 1));
  }

  /** From a first bound of at least 1e9 every down-step divisor inside the grid is positive. */
  lemma DivisorsArePositive(pMin: nat, growth: nat, bs: seq<Bucket>, i: nat, sqrtP: nat)
    requires Generated(pMin, growth, bs) && Grows(pMin, growth) && i < |bs|
    requires pMin * pMin >= SCALE && sqrtP >= bs[i].bounds.lower
    ensures sqrtP * bs[i].bounds.lower / SCALE > 0
  {
    BoundsRise(pMin, growth, i);
    var lower := bs[i].bounds.lower;
    MulMono(pMin, lower, pMin);
    MulMono(pMin, sqrtP, lower);
    FloorAtLeast(sqrtP * lower, SCALE, 1);
  }
}
