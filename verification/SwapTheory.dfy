/** What every bucket walk guarantees: its inputs, its fees, its order and its prices. */
module SwapTheory {
  import opened Arithmetic
  import opened FixedPoint
  import opened Sequences
  import opened Apportion
  import opened Buckets
  import opened Swap

  // ------------------------------------------------------------ conservation

  /** Every unit of after-fee input is booked to exactly one touched bucket. */
  lemma {:induction false} WalkConsumes(bs: seq<Bucket>, up: bool, id: int, s: nat, remaining: nat)
    requires Walk(bs, up, id, s, remaining).Ok?
    ensures SumOver(Walk(bs, up, id, s, remaining).value.steps, AmountIn) == remaining
    decreases if up then |bs| - id else id + 1
  {
    hide SwapStep;
    if remaining > 0 {
      var b := bs[id];
      if b.state.liquidity == 0 {
        WalkConsumes(bs, up, Next(up, id), FarBound(up, b.bounds), remaining);
      } else {
        var st := SwapStep(up, id, b, s, remaining).value;
        WalkConsumes(bs, up, Next(up, id), st.sqrtTo, remaining - st.amountIn);
        SumCons(st, Walk(bs, up, Next(up, id), st.sqrtTo, remaining - st.amountIn).value.steps, AmountIn);
      }
    }
  }

  lemma {:induction false} SumReverse<T>(xs: seq<T>, f: T -> int)
    ensures SumOver(Reverse(xs), f) == SumOver(xs, f)
  {
    if |xs| > 0 {
      var init, last := xs[..|xs| - 1], xs[|xs| - 1];
      SumReverse(init, f);
      assert Reverse(xs) == [last] + Reverse(init);
      SumCons(last, Reverse(init), f);
    }
  }

  /** Summing a delta field is summing the matching step quantity. */
  lemma DeltaSum(up: bool, steps: seq<Step>, fees: seq<int>, f: Delta -> int, g: Step -> int)
    requires |fees| == |steps|
    requires forall i :: 0 <= i < |steps| ==> f(DeltaOf(up, steps[i], fees[i])) == g(steps[i])
    ensures SumOver(SwapDeltas(up, steps, fees), f) == SumOver(steps, g)
  {
    hide DeltaOf;
    RawDeltaSum(up, steps, fees, f, g);
    SumReverse(RawDeltas(up, steps, fees), f);
  }

  lemma {:induction false} RawDeltaSum(up: bool, steps: seq<Step>, fees: seq<int>, f: Delta -> int, g: Step -> int)
    requires |fees| == |steps|
    requires forall i :: 0 <= i < |steps| ==> f(DeltaOf(up, steps[i], fees[i])) == g(steps[i])
    ensures SumOver(RawDeltas(up, steps, fees), f) == SumOver(steps, g)
  {
    hide DeltaOf;
    if |steps| > 0 {
      var n := |steps| - 1;
      RawDeltaSum(up, steps[..n], fees[..n], f, g);
      assert RawDeltas(up, steps, fees)[..n] == RawDeltas(up, steps[..n], fees[..n]);
    }
  }

  function AAdd(d: Delta): int { d.aAdd }

  function ASub(d: Delta): int { d.aSub }

  function BAdd(d: Delta): int { d.bAdd }

  function BSub(d: Delta): int { d.bSub }

  function Nothing(st: Step): int { 0 }

  /** The four reserve-flow sums of a directed swap. */
  lemma FlowSums(up: bool, steps: seq<Step>, fees: seq<int>)
    requires |fees| == |steps|
    ensures
      var ds := SwapDeltas(up, steps, fees);
      var input, output := SumOver(steps, AmountIn), SumOver(steps, AmountOut);
      && SumOver(ds, AAdd) == (if up then 0 else input)
      && SumOver(ds, ASub) == (if up then output else 0)
      && SumOver(ds, BAdd) == (if up then input else 0)
      && SumOver(ds, BSub) == (if up then 0 else output)
  {
    hide SwapDeltas;
    SumZero(steps, Nothing);
    DeltaSum(up, steps, fees, AAdd, if up then Nothing else AmountIn);
    DeltaSum(up, steps, fees, ASub, if up then AmountOut else Nothing);
    DeltaSum(up, steps, fees, BAdd, if up then AmountIn else Nothing);
    DeltaSum(up, steps, fees, BSub, if up then Nothing else AmountOut);
  }

  lemma {:induction false} SumDifference(ds: seq<Delta>)
    ensures SumOver(ds, NetAddA) == SumOver(ds, AAdd) - SumOver(ds, ASub)
    ensures SumOver(ds, NetAddB) == SumOver(ds, BAdd) - SumOver(ds, BSub)
  {
    if |ds| > 0 {
      SumDifference(ds[..|ds| - 1]);
    }
  }

  /** The fees a trace books to its touched buckets, in walking order. */
  function StepFees(steps: seq<Step>, input: nat): (r: seq<int>)
    requires AfterFee(input) > 0 || |steps| <= 1
    ensures |r| == |steps|
  {
    Split(input - AfterFee(input), Inputs(steps), AfterFee(input))
  }

  lemma {:induction false} InputsWeigh(steps: seq<Step>)
    ensures SumOver(Inputs(steps), Weight) == SumOver(steps, AmountIn)
  {
    if |steps| > 0 {
      InputsWeigh(steps[..|steps| - 1]);
      assert Inputs(steps)[..|steps| - 1] == Inputs(steps[..|steps| - 1]);
    }
  }

  /** The per-bucket fees are non-negative and add up to the withheld fee exactly. */
  lemma FeesAddUp(pool: Pool, up: bool, input: nat)
    requires RouteSwap(pool, up, input).Ok? && AfterFee(input) > 0
    ensures
      var fees := StepFees(RouteSwap(pool, up, input).value.steps, input);
      && SumOver(fees, Share) == input - AfterFee(input)
      && forall i :: 0 <= i < |fees| ==> fees[i] >= 0
  {
    hide Walk, AfterFee, Split, FloorShare;
    var steps := RouteSwap(pool, up, input).value.steps;
    var total := AfterFee(input);
    WalkConsumes(pool.buckets, up, StartBucket(pool), pool.currentSqrtPrice, total);
    InputsWeigh(steps);
    SplitIsExact(input - total, Inputs(steps), total);
    forall i | 0 <= i < |steps|
      ensures StepFees(steps, input)[i] >= 0
    {
      SplitIsFair(input - total, Inputs(steps), total, i);
    }
  }

  // ------------------------------------------------------------ fee recovery

  /** The fee recovered from a cumulative per-share increment. */
  function Recovered(inc: int, liquidity: nat): int {
    inc * liquidity / SCALE
  }

  /** What a bucket gets back is at most its fee, and short by at most ceil(L / SCALE). */
  lemma RecoveryBound(fee: nat, L: nat)
    requires L > 0
    ensures 0 <= Recovered(fee * SCALE / L, L) <= fee
    ensures fee - Recovered(fee * SCALE / L, L) <= CeilDiv(L, SCALE)
  {
    RecoveryBoundAt(SCALE, fee, L);
  }

  lemma RecoveryBoundAt(S: nat, fee: nat, L: nat)
    requires L > 0 && S > 0
    ensures 0 <= (fee * S / L) * L / S <= fee
    ensures fee - (fee * S / L) * L / S <= CeilDiv(L, S)
  {
    var inc := fee * S / L;
    FloorBounds(fee * S, L);
    FloorNonNeg(fee * S, L);
    FloorAtLeast(inc * L, S, 0);
    FloorBounds(inc * L, S);
    MulCancel(inc * L / S, fee, S);
    CeilBounds(L, S);
    var short, c := fee - inc * L / S, CeilDiv(L, S);
    assert short * S == fee * S - (inc * L / S) * S;
    assert (c + 1) * S == c * S + S;
    if c < short {
      MulMono(c + 1, short, S);
    }
  }

  function Claim(inc: nat, share: nat): int {
    inc * share / SCALE
  }

  /** However a bucket's liquidity is divided, the floored claims fit in what was recovered. */
  lemma {:induction false} ClaimsAreCovered(inc: nat, shares: seq<nat>, L: nat)
    requires SumOver(shares, Weight) <= L
    ensures SumOver(shares, share => Claim(inc, share)) <= Recovered(inc, L)
  {
    var claim := (share: nat) => Claim(inc, share);
    ClaimsFit(inc, shares, claim);
    SumCong(shares, claim, share => Claim(inc, share));
    MulMono(SumOver(shares, Weight), L, inc);
    FloorMono(SumOver(shares, Weight) * inc, L * inc, SCALE);
    assert SumOver(shares, Weight) * inc == inc * SumOver(shares, Weight) && L * inc == inc * L;
  }

  lemma {:induction false} ClaimsFit(inc: nat, shares: seq<nat>, claim: nat -> int)
    requires forall share :: claim(share) == Claim(inc, share)
    ensures SumOver(shares, claim) <= inc * SumOver(shares, Weight) / SCALE
  {
    if |shares| > 0 {
      var init, last := shares[..|shares| - 1], shares[|shares| - 1];
      ClaimsFit(inc, init, claim);
      FloorsSubadditive(SCALE, inc, SumOver(init, Weight), last);
    }
  }

  lemma FloorsSubadditive(S: nat, inc: nat, x: int, y: int)
    requires S > 0
    ensures inc * x / S + inc * y / S <= inc * (x + y) / S
  {
    FloorBounds(inc * x, S);
    FloorBounds(inc * y, S);
    assert inc * (x + y) == inc * x + inc * y;
    assert (inc * x / S + inc * y / S) * S == (inc * x / S) * S + (inc * y / S) * S;
    FloorAtLeast(inc * (x + y), S, inc * x / S + inc * y / S);
  }

  // ------------------------------------------------------------ order theory

  /**
   Feasibility is downward closed: if an input gets through, a smaller one does
   too, over no more buckets. The one escape is an upward output divisor that
   rounds to zero, which a start price of at least one raw unit rules out.
   */
  lemma {:induction false} SmallerInputFits(bs: seq<Bucket>, up: bool, id: int, s: nat, big: nat, small: nat)
    requires small <= big && Walk(bs, up, id, s, big).Ok?
    ensures
      var w := Walk(bs, up, id, s, small);
      && (w.Err? ==> w.error == DivisionByZero && up && s * s < SCALE)
      && (w.Ok? ==> |w.value.steps| <= |Walk(bs, up, id, s, big).value.steps|)
    decreases if up then |bs| - id else id + 1
  {
    if small > 0 {
      var b := bs[id];
      if b.state.liquidity == 0 {
        SmallerInputFits(bs, up, Next(up, id), FarBound(up, b.bounds), big, small);
        PriceSquares(s, b.bounds.upper);
      } else {
        var most := StepInMax(up, b.state.liquidity, b.bounds, s).value;
        if small <= most {
          PartialStepWorks(up, id, b, s, small, most);
        } else {
          var st := SwapStep(up, id, b, s, big).value;
          assert SwapStep(up, id, b, s, small) == Ok(st);
          SmallerInputFits(bs, up, Next(up, id), st.sqrtTo, big - most, small - most);
          PriceSquares(s, b.bounds.upper);
        }
      }
    }
  }

  lemma PriceSquares(s: nat, t: nat)
    requires s <= t
    ensures s * s <= s * t <= t * t
  {
    MulMono(s, t, s);
    MulMono(s, t, t);
  }

  lemma PartialStepWorks(up: bool, id: nat, b: Bucket, s: nat, remaining: nat, most: nat)
    requires b.state.liquidity > 0 && b.bounds.lower <= s <= b.bounds.upper
    requires StepInMax(up, b.state.liquidity, b.bounds, s) == Ok(most) && 0 < remaining <= most
    ensures
      var r := SwapStep(up, id, b, s, remaining);
      && (r.Err? ==> r.error == DivisionByZero && up && s * s < SCALE)
      && (r.Ok? ==> r.value.amountIn == remaining)
  {
    if up {
      PriceSquares(s, NextSqrtPUp(b.state.liquidity, s, remaining));
      FloorAtLeast(s * NextSqrtPUp(b.state.liquidity, s, remaining), SCALE, 1);
    }
  }

  /** A partial upward step stays in its bucket. */
  lemma UpStepContained(L: nat, s: nat, upper: nat, deltaB: nat)
    requires L > 0 && s <= upper && deltaB <= L * (upper - s) / SCALE
    ensures s <= NextSqrtPUp(L, s, deltaB) <= upper
  {
    FloorAtLeast(L * (upper - s), SCALE, deltaB);
    FloorBounds(deltaB * SCALE, L);
    assert L * (upper - s) == (upper - s) * L;
    MulCancel(deltaB * SCALE / L, upper - s, L);
  }

  /** Upward, every step ends inside the bucket it touched. */
  lemma UpStepInBucket(id: nat, b: Bucket, s: nat, remaining: nat)
    requires b.state.liquidity > 0 && b.bounds.lower <= s <= b.bounds.upper && remaining > 0
    requires SwapStep(true, id, b, s, remaining).Ok?
    ensures
      var st := SwapStep(true, id, b, s, remaining).value;
      s <= st.sqrtTo <= b.bounds.upper && (st.full ==> st.sqrtTo == b.bounds.upper)
  {
    var most := StepInMax(true, b.state.liquidity, b.bounds, s).value;
    if remaining <= most {
      UpStepContained(b.state.liquidity, s, b.bounds.upper, remaining);
    }
  }

  /** An upward walk ends at or above its start, inside the last bucket it touched. */
  lemma {:induction false} UpWalkEnds(bs: seq<Bucket>, id: int, s: nat, remaining: nat)
    requires Walk(bs, true, id, s, remaining).Ok? && remaining > 0
    ensures
      var r := Walk(bs, true, id, s, remaining).value;
      var last := r.steps[|r.steps| - 1];
      && s <= r.sqrtEnd == last.sqrtTo && !last.full
      && last.id < |bs| && bs[last.id].bounds.lower <= r.sqrtEnd <= bs[last.id].bounds.upper
    decreases |bs| - id
  {
    hide SwapStep;
    var b := bs[id];
    if b.state.liquidity == 0 {
      UpWalkEnds(bs, id + 1, b.bounds.upper, remaining);
    } else {
      var st := SwapStep(true, id, b, s, remaining).value;
      UpStepInBucket(id, b, s, remaining);
      if st.amountIn < remaining {
        UpWalkEnds(bs, id + 1, st.sqrtTo, remaining - st.amountIn);
      }
    }
  }

  /** More token B in never ends at a lower price. */
  lemma {:induction false} UpPriceMonotone(bs: seq<Bucket>, id: int, s: nat, big: nat, small: nat)
    requires small <= big && Walk(bs, true, id, s, big).Ok? && Walk(bs, true, id, s, small).Ok?
    ensures Walk(bs, true, id, s, small).value.sqrtEnd <= Walk(bs, true, id, s, big).value.sqrtEnd
    decreases |bs| - id
  {
    if small == 0 {
      if big > 0 {
        UpWalkEnds(bs, id, s, big);
      }
    } else {
      var b := bs[id];
      if b.state.liquidity == 0 {
        UpPriceMonotone(bs, id + 1, b.bounds.upper, big, small);
      } else {
        var most := StepInMax(true, b.state.liquidity, b.bounds, s).value;
        if big <= most {
          FloorMono(small * SCALE, big * SCALE, b.state.liquidity);
        } else if small <= most {
          UpStepInBucket(id, b, s, small);
          UpWalkEnds(bs, id + 1, b.bounds.upper, big - most);
        } else {
          UpPriceMonotone(bs, id + 1, b.bounds.upper, big - most, small - most);
        }
      }
    }
  }

  /** A downward walk ends at or below its start, at most a rounding unit below its last bucket. */
  lemma {:induction false} DownWalkEnds(bs: seq<Bucket>, id: int, s: nat, remaining: nat)
    requires Walk(bs, false, id, s, remaining).Ok? && remaining > 0
    ensures
      var r := Walk(bs, false, id, s, remaining).value;
      var last := r.steps[|r.steps| - 1];
      && r.sqrtEnd == last.sqrtTo <= s && !last.full && last.id < |bs| && last.sqrtFrom > 0
      && r.sqrtEnd + CeilDiv(SCALE, last.sqrtFrom) >= bs[last.id].bounds.lower
    decreases id + 1
  {
    hide SwapStep;
    var b := bs[id];
    if b.state.liquidity == 0 {
      DownWalkEnds(bs, id - 1, b.bounds.lower, remaining);
    } else {
      var st := SwapStep(false, id, b, s, remaining).value;
      if st.amountIn < remaining {
        DownWalkEnds(bs, id - 1, st.sqrtTo, remaining - st.amountIn);
      } else {
        DownStepInBucket(id, b, s, remaining);
      }
    }
  }

  lemma DownStepInBucket(id: nat, b: Bucket, s: nat, remaining: nat)
    requires b.state.liquidity > 0 && b.bounds.lower <= s <= b.bounds.upper && remaining > 0
    requires SwapStep(false, id, b, s, remaining).Ok?
    ensures
      var st := SwapStep(false, id, b, s, remaining).value;
      && s > 0 && b.bounds.lower > 0 && st.sqrtTo <= s && st.sqrtTo + CeilDiv(SCALE, s) >= b.bounds.lower
      && (st.full ==> st.sqrtTo == b.bounds.lower)
  {
    assert s == 0 || b.bounds.lower == 0 ==> s * b.bounds.lower == 0;
    CeilBounds(SCALE, s);
    if remaining <= StepInMax(false, b.state.liquidity, b.bounds, s).value {
      FloorNonNeg(s * b.bounds.lower, SCALE);
      DownStepBound(b.state.liquidity, s, b.bounds.lower, remaining);
    }
  }

  /** A walk starts in the first bucket that holds the price, whenever one does. */
  lemma {:induction false} FindBucketFirst(bs: seq<Bucket>, s: nat, i: nat, k: nat)
    requires i <= k < |bs| && bs[k].bounds.lower <= s < bs[k].bounds.upper
    ensures i <= FindBucket(bs, s, i) <= k
    decreases |bs| - i
  {
    if !(bs[i].bounds.lower <= s < bs[i].bounds.upper) {
      FindBucketFirst(bs, s, i + 1, k);
    }
  }

  lemma StartsAtPrice(pool: Pool, k: nat)
    requires k < |pool.buckets|
    requires pool.buckets[k].bounds.lower <= pool.currentSqrtPrice < pool.buckets[k].bounds.upper
    ensures 0 <= StartBucket(pool) <= k
    ensures
      var b := pool.buckets[StartBucket(pool)];
      b.bounds.lower <= pool.currentSqrtPrice < b.bounds.upper
  {
    FindBucketFirst(pool.buckets, pool.currentSqrtPrice, 0, k);
  }

  lemma {:induction false} FindBucketNone(bs: seq<Bucket>, s: nat, i: nat)
    requires i <= |bs| && forall k :: i <= k < |bs| ==> !(bs[k].bounds.lower <= s < bs[k].bounds.upper)
    ensures FindBucket(bs, s, i) == -1
    decreases |bs| - i
  {
    if i < |bs| {
      FindBucketNone(bs, s, i + 1);
    }
  }

  /** A price that no bucket holds starts a walk at the end it is on: the first bucket below the grid, else the last. */
  lemma StartsAtEnd(pool: Pool)
    requires |pool.buckets| > 0
    requires forall k :: 0 <= k < |pool.buckets| ==>
      !(pool.buckets[k].bounds.lower <= pool.currentSqrtPrice < pool.buckets[k].bounds.upper)
    ensures StartBucket(pool)
         == if pool.currentSqrtPrice < pool.buckets[0].bounds.lower then 0 else |pool.buckets| - 1
  {
    FindBucketNone(pool.buckets, pool.currentSqrtPrice, 0);
  }

  // ------------------------------------------- how far two upward outputs are apart

  /** An upward step from price s pays at most its input at that price, a unit more when it crosses. */
  lemma UpStepOut(id: nat, b: Bucket, s: nat, remaining: nat, D: nat)
    requires b.state.liquidity > 0 && b.bounds.lower <= s <= b.bounds.upper && remaining > 0
    requires SwapStep(true, id, b, s, remaining).Ok? && D * SCALE <= s * s
    ensures
      var st := SwapStep(true, id, b, s, remaining).value;
      && st.amountOut * D <= b.state.liquidity * (st.sqrtTo - s)
      && b.state.liquidity * (st.sqrtTo - s) <= (st.amountIn + if st.full then 1 else 0) * SCALE
  {
    hide SwapStep;
    var st := SwapStep(true, id, b, s, remaining).value;
    UpStepShape(id, b, s, remaining);
    PriceSquares(s, st.sqrtTo);
    FloorAtLeast(s * st.sqrtTo, SCALE, D);
    FloorBounds(b.state.liquidity * (st.sqrtTo - s), s * st.sqrtTo / SCALE);
    MulMono(D, s * st.sqrtTo / SCALE, st.amountOut);
  }

  /** Which branch a step takes, and what it is made of. */
  lemma StepTaken(up: bool, id: nat, b: Bucket, s: nat, remaining: nat)
    requires b.state.liquidity > 0 && b.bounds.lower <= s <= b.bounds.upper && remaining > 0
    requires SwapStep(up, id, b, s, remaining).Ok?
    ensures
      var st, L := SwapStep(up, id, b, s, remaining).value, b.state.liquidity;
      var most := StepInMax(up, L, b.bounds, s);
      && most.Ok? && (st.full <==> remaining > most.value)
      && st.amountIn == (if st.full then most.value else remaining)
      && st.sqrtTo == (if st.full then FarBound(up, b.bounds)
                       else if up then NextSqrtPUp(L, s, remaining) else NextSqrtPDown(L, s, remaining))
      && StepOut(up, L, s, st.sqrtTo) == Ok(st.amountOut)
  {
    hide StepInMax, StepOut, NextSqrtPUp, NextSqrtPDown;
  }

  /** The output and the price move of an upward step. */
  lemma UpStepShape(id: nat, b: Bucket, s: nat, remaining: nat)
    requires b.state.liquidity > 0 && b.bounds.lower <= s <= b.bounds.upper && remaining > 0
    requires SwapStep(true, id, b, s, remaining).Ok?
    ensures
      var st, L := SwapStep(true, id, b, s, remaining).value, b.state.liquidity;
      && s <= st.sqrtTo && s * st.sqrtTo / SCALE > 0
      && st.amountOut == L * (st.sqrtTo - s) / (s * st.sqrtTo / SCALE)
      && L * (st.sqrtTo - s) <= (st.amountIn + if st.full then 1 else 0) * SCALE
      && L * (st.sqrtTo - s) + (if st.full then 0 else L) >= st.amountIn * SCALE
      && (!st.full ==> L * (st.sqrtTo - s) + L > st.amountIn * SCALE)
  {
    hide SwapStep;
    var st, L := SwapStep(true, id, b, s, remaining).value, b.state.liquidity;
    StepTaken(true, id, b, s, remaining);
    PaidUp(L, s, st.sqrtTo, st.amountOut);
    if st.full {
      FloorBounds(L * (b.bounds.upper - s), SCALE);
    } else {
      MovedUp(L, s, st.amountIn);
    }
  }

  lemma PaidUp(L: nat, s: nat, t: nat, out: nat)
    requires s <= t && StepOut(true, L, s, t) == Ok(out)
    ensures s * t / SCALE > 0 && out == L * (t - s) / (s * t / SCALE)
  {
    FloorNonNeg(s * t, SCALE);
  }

  lemma MovedUp(L: nat, s: nat, d: nat)
    requires L > 0
    ensures
      var t := NextSqrtPUp(L, s, d);
      L * (t - s) <= d * SCALE < L * (t - s) + L
  {
    FloorBounds(d * SCALE, L);
    assert L * (d * SCALE / L) == (d * SCALE / L) * L;
  }

  /** A downward step, crossing or not, pays its price move times its liquidity, rounded down. */
  lemma DownStepPays(id: nat, b: Bucket, s: nat, remaining: nat)
    requires b.state.liquidity > 0 && b.bounds.lower <= s <= b.bounds.upper && remaining > 0
    requires SwapStep(false, id, b, s, remaining).Ok?
    ensures
      var st := SwapStep(false, id, b, s, remaining).value;
      var drop := b.state.liquidity * (s - st.sqrtTo);
      st.amountOut * SCALE <= drop < (st.amountOut + 1) * SCALE
  {
    var st := SwapStep(false, id, b, s, remaining).value;
    FloorBounds(b.state.liquidity * (s - st.sqrtTo), SCALE);
  }

  /** The input and the landing of a downward step. */
  lemma DownStepShape(id: nat, b: Bucket, s: nat, remaining: nat)
    requires b.state.liquidity > 0 && b.bounds.lower <= s <= b.bounds.upper && remaining > 0
    requires SwapStep(false, id, b, s, remaining).Ok?
    ensures
      var st, L, l := SwapStep(false, id, b, s, remaining).value, b.state.liquidity, b.bounds.lower;
      && s * l / SCALE > 0
      && (st.full ==> st.sqrtTo == l && st.amountIn == L * (s - l) / (s * l / SCALE))
      && (!st.full ==> st.amountIn * s / SCALE >= 0 && st.sqrtTo == s * L / (L + st.amountIn * s / SCALE))
  {
    hide SwapStep;
    StepTaken(false, id, b, s, remaining);
    FillsBucket(b.state.liquidity, b.bounds, s);
    MovedDown(b.state.liquidity, s, SwapStep(false, id, b, s, remaining).value.amountIn);
  }

  lemma FillsBucket(L: nat, b: Bounds, s: nat)
    requires b.lower <= s <= b.upper && StepInMax(false, L, b, s).Ok?
    ensures s * b.lower / SCALE > 0
    ensures StepInMax(false, L, b, s).value == L * (s - b.lower) / (s * b.lower / SCALE)
  {
    FloorNonNeg(s * b.lower, SCALE);
  }

  lemma MovedDown(L: nat, s: nat, d: nat)
    requires L > 0
    ensures d * s / SCALE >= 0 && NextSqrtPDown(L, s, d) == s * L / (L + d * s / SCALE)
  {
    FloorNonNeg(d * s, SCALE);
  }

  /** The price moves of a downward walk, each times the liquidity of its bucket. */
  function Drop(st: Step): int { st.liquidity * (st.sqrtFrom - st.sqrtTo) }

  /** A downward walk pays its price moves times the liquidity it met, short by less than a unit per step. */
  lemma {:induction false} DownWalkPays(bs: seq<Bucket>, id: int, s: nat, remaining: nat)
    requires Walk(bs, false, id, s, remaining).Ok?
    ensures
      var steps := Walk(bs, false, id, s, remaining).value.steps;
      SumOver(steps, AmountOut) * SCALE <= SumOver(steps, Drop) <= (SumOver(steps, AmountOut) + |steps|) * SCALE
    decreases id + 1
  {
    hide SwapStep;
    if remaining > 0 {
      var b := bs[id];
      if b.state.liquidity == 0 {
        DownWalkPays(bs, id - 1, b.bounds.lower, remaining);
      } else {
        var st := SwapStep(false, id, b, s, remaining).value;
        var rest := Walk(bs, false, id - 1, st.sqrtTo, remaining - st.amountIn).value.steps;
        DownStepPays(id, b, s, remaining);
        DownWalkPays(bs, id - 1, st.sqrtTo, remaining - st.amountIn);
        SumCons(st, rest, AmountOut);
        SumCons(st, rest, Drop);
      }
    }
  }

  /** An upward walk from price s pays at most its input at that price, and a unit per step. */
  lemma {:induction false} UpOutputBound(bs: seq<Bucket>, id: int, s: nat, remaining: nat, D: nat)
    requires Walk(bs, true, id, s, remaining).Ok? && D * SCALE <= s * s
    ensures
      var steps := Walk(bs, true, id, s, remaining).value.steps;
      SumOver(steps, AmountOut) * D <= (remaining + |steps|) * SCALE
    decreases |bs| - id
  {
    hide SwapStep;
    if remaining > 0 {
      var b := bs[id];
      if b.state.liquidity == 0 {
        PriceSquares(s, b.bounds.upper);
        UpOutputBound(bs, id + 1, b.bounds.upper, remaining, D);
      } else {
        var st := SwapStep(true, id, b, s, remaining).value;
        var rest := Walk(bs, true, id + 1, st.sqrtTo, remaining - st.amountIn).value.steps;
        UpStepOut(id, b, s, remaining, D);
        PriceSquares(s, st.sqrtTo);
        UpOutputBound(bs, id + 1, st.sqrtTo, remaining - st.amountIn, D);
        SumCons(st, rest, AmountOut);
        assert (st.amountOut + SumOver(rest, AmountOut)) * D == st.amountOut * D + SumOver(rest, AmountOut) * D;
      }
    }
  }

  /** Two steps from one price in one bucket, the smaller one stopping inside it. */
  lemma UpStepGap(id: nat, b: Bucket, s: nat, big: nat, small: nat, D: nat)
    requires b.state.liquidity > 0 && b.bounds.lower <= s <= b.bounds.upper && 0 < small <= big
    requires SwapStep(true, id, b, s, big).Ok? && SwapStep(true, id, b, s, small).Ok?
    requires !SwapStep(true, id, b, s, small).value.full && D * SCALE <= s * s
    ensures
      var x, y := SwapStep(true, id, b, s, big).value, SwapStep(true, id, b, s, small).value;
      (x.amountOut - y.amountOut) * D
      <= (x.amountIn - small + if x.full then 1 else 0) * SCALE + b.state.liquidity + D
  {
    hide SwapStep;
    var x, y := SwapStep(true, id, b, s, big).value, SwapStep(true, id, b, s, small).value;
    UpStepShape(id, b, s, big);
    UpStepShape(id, b, s, small);
    SmallerStepEndsLower(id, b, s, big, small);
    StepGapAt(SCALE, b.state.liquidity, s, x.sqrtTo, y.sqrtTo, x.amountOut, y.amountOut,
              x.amountIn + (if x.full then 1 else 0), small, D);
  }

  lemma StepGapAt(S: nat, L: nat, s: nat, tx: nat, ty: nat, outX: nat, outY: nat, extra: int, small: nat, D: nat)
    requires S > 0 && s <= ty <= tx && D * S <= s * s && s * tx / S > 0 && s * ty / S > 0
    requires outX == L * (tx - s) / (s * tx / S) && outY == L * (ty - s) / (s * ty / S)
    requires L * (tx - s) <= extra * S && L * (ty - s) + L > small * S
    ensures (outX - outY) * D <= (extra - small) * S + L + D
  {
    PriceSquares(s, ty);
    Divisors(S, s, tx, ty, D);
    MoveGap(L, s, tx, ty);
    DividedGap(s * tx / S, s * ty / S, L * (tx - s), L * (ty - s), L, extra * S, small * S, D);
    assert (extra - small) * S == extra * S - small * S;
  }

  lemma Divisors(S: nat, s: nat, tx: nat, ty: nat, D: nat)
    requires S > 0 && ty <= tx && D * S <= s * ty
    ensures D <= s * ty / S <= s * tx / S
  {
    MulMono(ty, tx, s);
    FloorMono(s * ty, s * tx, S);
    FloorAtLeast(s * ty, S, D);
  }

  lemma MoveGap(L: nat, s: nat, tx: nat, ty: nat)
    requires s <= ty <= tx
    ensures 0 <= L * (ty - s) <= L * (tx - s)
  {
    MulMono(ty - s, tx - s, L);
    MulMono(0, ty - s, L);
  }

  lemma DividedGap(db: nat, ds: nat, moveB: nat, moveS: nat, L: nat, inB: int, inS: int, D: nat)
    requires 0 < ds && D <= ds <= db && moveS <= moveB <= inB && moveS + L > inS
    ensures (moveB / db - moveS / ds) * D <= inB - inS + L + D
  {
    FloorBounds(moveB, db);
    FloorBounds(moveS, ds);
    FloorNonNeg(moveB, db);
    FloorNonNeg(moveS, ds);
    OutputGap(db, ds, moveB, moveS, moveB / db, moveS / ds, L, inB, inS, D);
  }

  lemma SmallerStepEndsLower(id: nat, b: Bucket, s: nat, big: nat, small: nat)
    requires b.state.liquidity > 0 && b.bounds.lower <= s <= b.bounds.upper && 0 < small <= big
    requires SwapStep(true, id, b, s, big).Ok? && SwapStep(true, id, b, s, small).Ok?
    requires !SwapStep(true, id, b, s, small).value.full
    ensures SwapStep(true, id, b, s, small).value.sqrtTo <= SwapStep(true, id, b, s, big).value.sqrtTo
  {
    var L := b.state.liquidity;
    var most := L * (b.bounds.upper - s) / SCALE;
    if big <= most {
      FloorMono(small * SCALE, big * SCALE, L);
    } else {
      UpStepContained(L, s, b.bounds.upper, small);
    }
  }

  /** Two floored outputs against two divisors, the larger move over the larger divisor. */
  lemma OutputGap(db: nat, ds: nat, moveB: int, moveS: int, outB: nat, outS: nat, L: nat, inB: int, inS: int, D: nat)
    requires D <= ds <= db && outB * db <= moveB <= inB && moveS < outS * ds + ds
    requires moveS + L > inS && moveS <= moveB
    ensures (outB - outS) * D <= inB - inS + L + D
  {
    if outB > outS {
      MulMono(ds, db, outB);
      MulMono(D, ds, outB - outS - 1);
      assert (outB - outS - 1) * ds == outB * ds - outS * ds - ds;
      assert (outB - outS - 1) * D == (outB - outS) * D - D;
    } else {
      MulMono(outB - outS, 0, D);
    }
  }

  /**
   Two upward walks from one place: the larger input pays more by at most the extra
   input at the starting price, a unit per step of the larger walk, one unit of price
   resolution of the deepest bucket, and one unit of output.
   */
  lemma {:induction false} UpOutputGap(bs: seq<Bucket>, id: int, s: nat, big: nat, small: nat, D: nat, deepest: nat)
    requires small <= big && Walk(bs, true, id, s, big).Ok? && Walk(bs, true, id, s, small).Ok?
    requires D * SCALE <= s * s && forall b :: b in bs ==> b.state.liquidity <= deepest
    ensures
      var x, y := Walk(bs, true, id, s, big).value.steps, Walk(bs, true, id, s, small).value.steps;
      (SumOver(x, AmountOut) - SumOver(y, AmountOut)) * D
      <= (big - small + |x|) * SCALE + deepest + D
    decreases |bs| - id
  {
    hide SwapStep;
    if small == 0 {
      UpOutputBound(bs, id, s, big, D);
    } else {
      var b := bs[id];
      if b.state.liquidity == 0 {
        PriceSquares(s, b.bounds.upper);
        UpOutputGap(bs, id + 1, b.bounds.upper, big, small, D, deepest);
      } else {
        UpOutputGapHere(bs, id, s, big, small, D, deepest);
      }
    }
  }

  lemma UpOutputGapHere(bs: seq<Bucket>, id: nat, s: nat, big: nat, small: nat, D: nat, deepest: nat)
    requires 0 < small <= big && Walk(bs, true, id, s, big).Ok? && Walk(bs, true, id, s, small).Ok?
    requires id < |bs| && bs[id].state.liquidity > 0
    requires D * SCALE <= s * s && forall b :: b in bs ==> b.state.liquidity <= deepest
    ensures
      var x, y := Walk(bs, true, id, s, big).value.steps, Walk(bs, true, id, s, small).value.steps;
      (SumOver(x, AmountOut) - SumOver(y, AmountOut)) * D
      <= (big - small + |x|) * SCALE + deepest + D
    decreases |bs| - id, 0
  {
    hide SwapStep, SumOver;
    var b := bs[id];
    var x, y := SwapStep(true, id, b, s, big).value, SwapStep(true, id, b, s, small).value;
    var restX := Walk(bs, true, id + 1, x.sqrtTo, big - x.amountIn).value.steps;
    var restY := Walk(bs, true, id + 1, y.sqrtTo, small - y.amountIn).value.steps;
    SumCons(x, restX, AmountOut);
    SumCons(y, restY, AmountOut);
    PriceSquares(s, x.sqrtTo);
    if y.full {
      SameFullStep(id, b, s, big, small);
      UpOutputGap(bs, id + 1, x.sqrtTo, big - x.amountIn, small - y.amountIn, D, deepest);
    } else {
      UpStepGap(id, b, s, big, small, D);
      UpOutputBound(bs, id + 1, x.sqrtTo, big - x.amountIn, D);
      assert restY == [];
      NoOutput();
      GapAndTail(x.amountOut, y.amountOut, SumOver(restX, AmountOut), D, x.amountIn, if x.full then 1 else 0, small,
                 big - x.amountIn, |restX|, b.state.liquidity, deepest);
    }
  }

  lemma NoOutput()
    ensures SumOver([], AmountOut) == 0
  {}

  lemma GapAndTail(outX: int, outY: int, tail: int, D: nat, inX: int, crossed: int, small: int, left: int, n: int,
                   L: nat, deepest: nat)
    requires (outX - outY) * D <= (inX - small + crossed) * SCALE + L + D && tail * D <= (left + n) * SCALE
    requires crossed <= 1 && L <= deepest
    ensures (outX + tail - outY) * D <= (inX + left - small + 1 + n) * SCALE + deepest + D
  {
    assert (outX + tail - outY) * D == (outX - outY) * D + tail * D;
  }

  lemma SameFullStep(id: nat, b: Bucket, s: nat, big: nat, small: nat)
    requires b.state.liquidity > 0 && b.bounds.lower <= s <= b.bounds.upper && 0 < small <= big
    requires SwapStep(true, id, b, s, small).Ok? && SwapStep(true, id, b, s, small).value.full
    ensures SwapStep(true, id, b, s, big) == SwapStep(true, id, b, s, small)
  {}

  // ---------------------------------------------------------- whole swaps

  /** The trace of a directed swap of a gross input. */
  function DirectedTrace(pool: Pool, up: bool, input: nat): Result<TraceOutput> {
    if up then TraceSwap(pool, 0, input) else TraceSwap(pool, input, 0)
  }

  /** If a swap settles, so does every smaller one in the same direction. */
  lemma SmallerSwapSettles(pool: Pool, up: bool, big: nat, small: nat)
    requires small <= big && DirectedTrace(pool, up, big).Ok?
    ensures
      var r := DirectedTrace(pool, up, small);
      r.Err? ==> r.error == DivisionByZero && up && pool.currentSqrtPrice * pool.currentSqrtPrice < SCALE
  {
    hide Walk, SwapDeltas, Split;
    AfterFeeMono(small, big);
    SmallerInputFits(pool.buckets, up, StartBucket(pool), pool.currentSqrtPrice, AfterFee(big), AfterFee(small));
  }

  /** More token B in never leaves the pool at a lower price. */
  lemma UpSwapPriceMonotone(pool: Pool, big: nat, small: nat)
    requires small <= big && DirectedTrace(pool, true, big).Ok? && DirectedTrace(pool, true, small).Ok?
    ensures pool.currentSqrtPrice
         <= DirectedTrace(pool, true, small).value.newSqrtPrice
         <= DirectedTrace(pool, true, big).value.newSqrtPrice
  {
    hide Walk, SwapDeltas, Split;
    AfterFeeMono(small, big);
    var id, s := StartBucket(pool), pool.currentSqrtPrice;
    UpPriceMonotone(pool.buckets, id, s, AfterFee(big), AfterFee(small));
    if AfterFee(small) > 0 {
      UpWalkEnds(pool.buckets, id, s, AfterFee(small));
    } else if AfterFee(big) > 0 {
      UpWalkEnds(pool.buckets, id, s, AfterFee(big));
    }
  }
}
