/**
 Pro-rata division with a last-absorbs remainder: every share but the last is
 floored and the last takes whatever is left. The bucket tracer splits the
 withheld fee this way over the buckets it touched, and the clearing splits each
 side's total this way over the filled orders.
 */
module Apportion {
  import opened Arithmetic
  import opened Sequences

  function FloorShare(total: int, w: nat, sum: nat): int
    requires sum > 0
  {
    total * w / sum
  }

  function Floors(total: int, weights: seq<nat>, sum: nat): (r: seq<int>)
    requires sum > 0 || |weights| == 0
    ensures |r| == |weights|
  {
    if |weights| == 0 then []
    else Floors(total, weights[..|weights| - 1], sum) + [FloorShare(total, weights[|weights| - 1], sum)]
  }

  function Split(total: int, weights: seq<nat>, sum: nat): (r: seq<int>)
    requires sum > 0 || |weights| <= 1
    ensures |r| == |weights|
  {
    if |weights| == 0 then []
    else
      var floors := Floors(total, weights[..|weights| - 1], sum);
      floors + [total - SumOver(floors, Share)]
  }

  function Weight(w: nat): int {
    w
  }

  function Share(x: int): int {
    x
  }

  /** Nothing is created and nothing is lost. */
  lemma SplitIsExact(total: int, weights: seq<nat>, sum: nat)
    requires |weights| > 0 && (sum > 0 || |weights| == 1)
    ensures SumOver(Split(total, weights, sum), Share) == total
  {
    hide Floors, SumOver;
    var floors := Floors(total, weights[..|weights| - 1], sum);
    assert Split(total, weights, sum) == floors + [total - SumOver(floors, Share)];
    LastAbsorbs(floors, total);
  }

  /** A sole weight takes the whole total, whatever the sum it is measured against. */
  lemma SoleSplit(total: int, weights: seq<nat>, sum: nat)
    requires |weights| == 1
    ensures Split(total, weights, sum) == [total]
  {
    assert weights[..0] == [];
    assert Floors(total, weights[..0], sum) == [];
  }

  lemma LastAbsorbs(shares: seq<int>, total: int)
    ensures SumOver(shares + [total - SumOver(shares, Share)], Share) == total
  {
    hide SumOver;
    SumSnoc(shares, total - SumOver(shares, Share), Share);
  }

  lemma FloorsSnoc(total: int, weights: seq<nat>, w: nat, sum: nat)
    requires sum > 0
    ensures Floors(total, weights + [w], sum) == Floors(total, weights, sum) + [FloorShare(total, w, sum)]
  {
    assert (weights + [w])[..|weights|] == weights;
  }

  lemma {:induction false} FloorsAt(total: int, weights: seq<nat>, sum: nat, i: nat)
    requires sum > 0 && i < |weights|
    ensures Floors(total, weights, sum)[i] == FloorShare(total, weights[i], sum)
  {
    if i < |weights| - 1 {
      FloorsAt(total, weights[..|weights| - 1], sum, i);
    }
  }

  lemma FloorShareFits(total: nat, w: nat, sum: nat)
    requires sum > 0
    ensures 0 <= FloorShare(total, w, sum)
    ensures FloorShare(total, w, sum) * sum <= total * w
  {
    FloorBounds(total * w, sum);
    FloorNonNeg(total * w, sum);
  }

  /** The floored shares of a prefix never use more than the prefix's part. */
  lemma {:induction false} FloorsFit(total: nat, weights: seq<nat>, sum: nat)
    requires sum > 0
    ensures 0 <= SumOver(Floors(total, weights, sum), Share)
    ensures SumOver(Floors(total, weights, sum), Share) * sum <= total * SumOver(weights, Weight)
  {
    hide FloorShare;
    if |weights| > 0 {
      var init, w := weights[..|weights| - 1], weights[|weights| - 1];
      FloorsFit(total, init, sum);
      SumSnoc(Floors(total, init, sum), FloorShare(total, w, sum), Share);
      FloorShareFits(total, w, sum);
      OneMoreShare(total, sum, w, FloorShare(total, w, sum),
                   SumOver(Floors(total, init, sum), Share), SumOver(init, Weight));
    } else {
      assert total * 0 == 0;
    }
  }

  lemma OneMoreShare(total: nat, sum: nat, w: nat, share: int, used: int, weight: int)
    requires used * sum <= total * weight && share * sum <= total * w
    ensures (used + share) * sum <= total * (weight + w)
  {
    assert (used + share) * sum == used * sum + share * sum;
    assert total * (weight + w) == total * weight + total * w;
  }

  /** Every share but the last is floored; the last is what the others leave. */
  lemma SplitAt(total: int, weights: seq<nat>, sum: nat, i: nat)
    requires sum > 0 && i < |weights|
    ensures Split(total, weights, sum)[i] ==
      if i < |weights| - 1 then FloorShare(total, weights[i], sum)
      else total - SumOver(Floors(total, weights[..|weights| - 1], sum), Share)
  {
    hide FloorShare, Floors, SumOver;
    if i < |weights| - 1 {
      FloorsAt(total, weights[..|weights| - 1], sum, i);
    }
  }

  /** Every share, the last one included, is at least its floored pro-rata part. */
  lemma SplitIsFair(total: nat, weights: seq<nat>, sum: nat, i: nat)
    requires sum > 0 && SumOver(weights, Weight) <= sum && i < |weights|
    ensures Split(total, weights, sum)[i] >= FloorShare(total, weights[i], sum)
    ensures FloorShare(total, weights[i], sum) >= 0
  {
    hide FloorShare, Floors, Split, SumOver;
    var w, n := weights[i], |weights| - 1;
    FloorShareFits(total, w, sum);
    SplitAt(total, weights, sum, i);
    if i == n {
      var init := weights[..n];
      FloorsFit(total, init, sum);
      assert weights[..n + 1] == weights;
      SumTake(weights, n, Weight);
      LastShare(total, sum, w, FloorShare(total, w, sum), SumOver(Floors(total, init, sum), Share),
                SumOver(init, Weight));
    }
  }

  lemma LastShare(total: nat, sum: nat, w: nat, share: int, used: int, weight: int)
    requires sum > 0 && used * sum <= total * weight && weight + w <= sum && share * sum <= total * w
    ensures total - used >= share
  {
    MulMono(weight + w, sum, total);
    assert (weight + w) * total == total * weight + total * w;
    assert (total - used) * sum == total * sum - used * sum;
    MulCancel(share, total - used, sum);
  }
}
