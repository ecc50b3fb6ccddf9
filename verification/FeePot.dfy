/**
 Fees over many clearings: what each one credits to a bucket, what liquidity
 providers may claim on the accumulated growth, and by how much the second can
 outrun the first.
 */
module FeePot {
  import opened Arithmetic
  import opened FixedPoint
  import opened Sequences
  import opened Apportion
  import opened Swap
  import opened SwapTheory
  import opened Price
  import opened Clearing
  import opened Runs

  function FeeInc(tokenB: bool, d: Delta): int {
    if tokenB then d.feeBInc else d.feeAInc
  }

  function OnlyFee(tokenB: bool, k: nat, d: Delta): int {
    if d.id == k then FeeInc(tokenB, d) else 0
  }

  function CumFee(tokenB: bool, b: Bucket): int {
    if tokenB then b.state.cumFeeB else b.state.cumFeeA
  }

  /** How far one epoch raises a bucket's cumulative fee per share. */
  function Growth(pool: Pool, orders: seq<Order>, k: nat, tokenB: bool): int
    requires k < |pool.buckets|
  {
    EpochKeepsAggregates(pool, orders);
    CumFee(tokenB, Epoch(pool, orders).buckets[k]) - CumFee(tokenB, pool.buckets[k])
  }

  function OnlyCredit(tokenB: bool, k: nat, liquidity: nat, d: Delta): int {
    if d.id == k then Recovered(FeeInc(tokenB, d), liquidity) else 0
  }

  /** What the flows of a trace forward to one bucket's fee pot. */
  function Credit(deltas: seq<Delta>, k: nat, tokenB: bool, liquidity: nat): int {
    SumOver(deltas, d => OnlyCredit(tokenB, k, liquidity, d))
  }

  lemma {:induction false} ApplyCumFee(bs: seq<Bucket>, ds: seq<Delta>, k: nat, tokenB: bool, only: Delta -> int)
    requires AllBelow(ds, |bs|) && Ascending(ds) && k < |bs|
    requires forall d :: only(d) == OnlyFee(tokenB, k, d)
    ensures
      CumFee(tokenB, ApplyStates(bs, ds, StatesAfter(bs, ds))[k]) == CumFee(tokenB, bs[k]) + SumOver(ds, only)
  {
    if |ds| > 0 {
      var n := |ds| - 1;
      assert AllBelow(ds[..n], |bs|) && Ascending(ds[..n]);
      ApplyCumFee(bs, ds[..n], k, tokenB, only);
      assert StatesAfter(bs, ds)[..n] == StatesAfter(bs, ds[..n]);
      if ds[n].id == k {
        SumZero(ds[..n], only);
      }
    }
  }

  /** A bucket has at most one delta, so its credit is the recovery of its whole growth. */
  lemma {:induction false} OneCredit(ds: seq<Delta>, k: nat, tokenB: bool, liquidity: nat,
                                     only: Delta -> int, credited: Delta -> int)
    requires Ascending(ds)
    requires forall d :: only(d) == OnlyFee(tokenB, k, d)
    requires forall d :: credited(d) == OnlyCredit(tokenB, k, liquidity, d)
    ensures SumOver(ds, credited) == Recovered(SumOver(ds, only), liquidity)
  {
    hide Recovered;
    NothingRecovered(liquidity);
    if |ds| > 0 {
      var n := |ds| - 1;
      assert Ascending(ds[..n]);
      if ds[n].id == k {
        SumZero(ds[..n], only);
        SumZero(ds[..n], credited);
      } else {
        OneCredit(ds[..n], k, tokenB, liquidity, only, credited);
      }
    }
  }

  lemma NothingRecovered(liquidity: nat)
    ensures Recovered(0, liquidity) == 0
  {}

  lemma IncrementsAreNonNegative(up: bool, steps: seq<Step>, fees: seq<int>, i: nat)
    requires |fees| == |steps| && i < |steps| && forall j :: 0 <= j < |fees| ==> fees[j] >= 0
    ensures SwapDeltas(up, steps, fees)[i].feeAInc >= 0 && SwapDeltas(up, steps, fees)[i].feeBInc >= 0
  {
    DeltaAt(up, steps, fees, i);
    var j := Place(up, |steps|, i);
    FloorNonNeg(fees[j] * SCALE, steps[j].liquidity);
  }

  /** The increments of a swap are never negative. */
  lemma TraceIncrements(pool: Pool, up: bool, input: nat, tokenB: bool)
    requires DirectedTrace(pool, up, input).Ok?
    ensures forall i :: 0 <= i < |DirectedTrace(pool, up, input).value.deltas| ==>
      FeeInc(tokenB, DirectedTrace(pool, up, input).value.deltas[i]) >= 0
  {
    hide Walk, AfterFee, Split, SwapDeltas, RouteSwap;
    if input > 0 {
      var steps := RouteSwap(pool, up, input).value.steps;
      RouteNeedsInput(pool, up, input);
      if AfterFee(input) > 0 {
        FeesAddUp(pool, up, input);
        forall i | 0 <= i < |steps|
          ensures FeeInc(tokenB, SwapDeltas(up, steps, StepFees(steps, input))[i]) >= 0
        {
          IncrementsAreNonNegative(up, steps, StepFees(steps, input), i);
        }
      }
    }
  }

  /**
   An epoch never lowers a bucket's cumulative fee, and what its flows forward for
   the bucket is exactly the recovery of that growth.
   */
  lemma GrowthIsCredited(pool: Pool, orders: seq<Order>, k: nat, tokenB: bool)
    requires k < |pool.buckets|
    ensures Growth(pool, orders, k, tokenB) >= 0
    ensures
      var (up, input) := EpochFlow(pool, orders);
      && DirectedTrace(pool, up, input).Ok?
      && Credit(DirectedTrace(pool, up, input).value.deltas, k, tokenB, pool.buckets[k].state.liquidity)
         == Recovered(Growth(pool, orders, k, tokenB), pool.buckets[k].state.liquidity)
  {
    hide Epoch, EpochFlow, StatesAfter, AllBelow, Ascending, ApplyStates, DirectedTrace, Recovered;
    EpochIsSwap(pool, orders);
    var (up, input) := EpochFlow(pool, orders);
    var ds := DirectedTrace(pool, up, input).value.deltas;
    var liquidity := pool.buckets[k].state.liquidity;
    var only := (d: Delta) => OnlyFee(tokenB, k, d);
    ApplyCumFee(pool.buckets, ds, k, tokenB, only);
    var credited := (d: Delta) => OnlyCredit(tokenB, k, liquidity, d);
    OneCredit(ds, k, tokenB, liquidity, only, credited);
    SumCong(ds, credited, d => OnlyCredit(tokenB, k, liquidity, d));
    TraceIncrements(pool, up, input, tokenB);
    SumNonNeg(ds, only);
  }

  /** The credits of the first n buckets. */
  function Credits(bs: seq<Bucket>, deltas: seq<Delta>, tokenB: bool, n: nat): int
    requires n <= |bs|
  {
    if n == 0 then 0
    else Credits(bs, deltas, tokenB, n - 1) + Credit(deltas, n - 1, tokenB, bs[n - 1].state.liquidity)
  }

  lemma CreditSnoc(ds: seq<Delta>, d: Delta, k: nat, tokenB: bool, liquidity: nat)
    ensures Credit(ds + [d], k, tokenB, liquidity)
         == Credit(ds, k, tokenB, liquidity) + OnlyCredit(tokenB, k, liquidity, d)
  {
    hide OnlyCredit;
    var f := (d: Delta) => OnlyCredit(tokenB, k, liquidity, d);
    SumSnoc(ds, d, f);
    SumCong(ds, f, d => OnlyCredit(tokenB, k, liquidity, d));
    SumCong(ds + [d], f, d => OnlyCredit(tokenB, k, liquidity, d));
  }

  lemma {:induction false} CreditsSnoc(bs: seq<Bucket>, ds: seq<Delta>, d: Delta, tokenB: bool, n: nat)
    requires n <= |bs| && d.id < |bs|
    ensures Credits(bs, ds + [d], tokenB, n)
         == Credits(bs, ds, tokenB, n)
            + if d.id < n then Recovered(FeeInc(tokenB, d), bs[d.id].state.liquidity) else 0
  {
    hide Recovered, Credit;
    if n > 0 {
      CreditsSnoc(bs, ds, d, tokenB, n - 1);
      CreditSnoc(ds, d, n - 1, tokenB, bs[n - 1].state.liquidity);
    }
  }

  lemma {:induction false} NoCredits(bs: seq<Bucket>, tokenB: bool, n: nat)
    requires n <= |bs|
    ensures Credits(bs, [], tokenB, n) == 0
  {
    if n > 0 {
      NoCredits(bs, tokenB, n - 1);
    }
  }

  /** The fee that the gross flows forward is the sum of what they credit bucket by bucket. */
  lemma {:induction false} CreditsAreForwarded(bs: seq<Bucket>, ds: seq<Delta>, tokenB: bool)
    requires AllBelow(ds, |bs|)
    ensures
      var fees := RecoveredFees(ds, Liquidities(StatesBefore(bs, ds)));
      Credits(bs, ds, tokenB, |bs|) == if tokenB then fees.1 else fees.0
  {
    hide Recovered, Credits;
    if |ds| == 0 {
      NoCredits(bs, tokenB, |bs|);
    } else {
      var n := |ds| - 1;
      var liquidity := Liquidities(StatesBefore(bs, ds));
      assert AllBelow(ds[..n], |bs|) && ds[..n] + [ds[n]] == ds;
      CreditsAreForwarded(bs, ds[..n], tokenB);
      CreditsSnoc(bs, ds[..n], ds[n], tokenB, |bs|);
      assert liquidity[..n] == Liquidities(StatesBefore(bs, ds[..n]));
      assert liquidity[n] == bs[ds[n].id].state.liquidity;
    }
  }

  // ------------------------------------------------------- many increments

  function Value(x: nat): int {
    x
  }

  function TotalGrowth(incs: seq<nat>): (r: nat) {
    SumNonNeg(incs, Value);
    SumOver(incs, Value)
  }

  /** What the pot of a bucket receives over a list of increments. */
  function Pot(incs: seq<nat>, L: nat): int {
    SumOver(incs, inc => Recovered(inc, L))
  }

  /** What the floors of the pot leave behind, in units of 1 / SCALE. */
  function Remainders(incs: seq<nat>, L: nat): int {
    SumOver(incs, inc => inc * L % SCALE)
  }

  lemma {:induction false} PotIdentity(incs: seq<nat>, L: nat, S: nat, floor: nat -> int, rest: nat -> int)
    requires S > 0
    requires forall inc: nat :: floor(inc) * S + rest(inc) == inc * L && 0 <= rest(inc) < S
    ensures TotalGrowth(incs) * L == SumOver(incs, floor) * S + SumOver(incs, rest)
    ensures 0 <= SumOver(incs, rest) <= |incs| * (S - 1)
  {
    if |incs| > 0 {
      var init, last := incs[..|incs| - 1], incs[|incs| - 1];
      PotIdentity(init, L, S, floor, rest);
      assert floor(last) * S + rest(last) == last * L;
      OneMore(TotalGrowth(init), last, L, S, SumOver(init, floor), floor(last), |init|);
    } else {
      assert 0 * L == 0 && 0 * S == 0 && 0 * (S - 1) == 0;
    }
  }

  lemma OneMore(total: int, last: int, L: int, S: int, pot: int, floor: int, n: int)
    ensures (total + last) * L == total * L + last * L
    ensures (pot + floor) * S == pot * S + floor * S
    ensures (n + 1) * (S - 1) == n * (S - 1) + (S - 1)
  {}

  lemma RecoverAll(total: nat, L: nat, S: nat, pot: int, left: int, n: nat)
    requires S > 0 && total * L == pot * S + left && 0 <= left <= n * (S - 1)
    ensures total * L / S == pot + left / S
    ensures left / S <= if n > 0 then n - 1 else 0
  {
    FloorBounds(left, S);
    FloorBounds(total * L, S);
    FloorAtLeast(total * L, S, pot + left / S);
    assert (pot + left / S) * S == pot * S + (left / S) * S;
    assert (pot + left / S + 1) * S == pot * S + (left / S) * S + S;
    FloorAtLeast(total * L, S, pot + left / S + 1);
    if n > 0 {
      assert n * (S - 1) < n * S;
      FloorAtLeast(left, S, n);
    }
  }

  /** Recovering the accumulated growth at once yields the pot plus the whole remainders. */
  lemma AccumulatedGrowth(incs: seq<nat>, L: nat)
    ensures Recovered(TotalGrowth(incs), L) == Pot(incs, L) + Remainders(incs, L) / SCALE
    ensures 0 <= Remainders(incs, L) / SCALE <= if |incs| > 0 then |incs| - 1 else 0
  {
    var floor, rest := (inc: nat) => Recovered(inc, L), (inc: nat) => inc * L % SCALE;
    forall inc: nat
      ensures floor(inc) * SCALE + rest(inc) == inc * L && 0 <= rest(inc) < SCALE
    {
      FloorBounds(inc * L, SCALE);
    }
    PotIdentity(incs, L, SCALE, floor, rest);
    SumCong(incs, floor, inc => Recovered(inc, L));
    SumCong(incs, rest, inc => inc * L % SCALE);
    RecoverAll(TotalGrowth(incs), L, SCALE, Pot(incs, L), Remainders(incs, L), |incs|);
    FloorAtLeast(Remainders(incs, L), SCALE, 0);
  }

  function Claimed(total: nat, shares: seq<nat>): int {
    SumOver(shares, share => Claim(total, share))
  }

  /** Whoever holds the bucket's liquidity, the claims on the whole growth fit in its pot. */
  ghost predicate Solvent(incs: seq<nat>, L: nat) {
    forall shares :: SumOver(shares, Weight) <= L ==> Claimed(TotalGrowth(incs), shares) <= Pot(incs, L)
  }

  /**
   Claims on an accumulated growth exceed what was credited by less than one unit per
   increment.
   */
  lemma ClaimsNearlyCovered(incs: seq<nat>, L: nat, shares: seq<nat>)
    requires SumOver(shares, Weight) <= L
    ensures Claimed(TotalGrowth(incs), shares) <= Pot(incs, L) + if |incs| > 0 then |incs| - 1 else 0
  {
    hide Pot, Remainders, Recovered;
    AccumulatedGrowth(incs, L);
    ClaimsAreCovered(TotalGrowth(incs), shares, L);
  }

  /** The pot covers every division of the liquidity if and only if the remainders stay below one unit. */
  lemma SolventIff(incs: seq<nat>, L: nat)
    ensures Solvent(incs, L) <==> Remainders(incs, L) < SCALE
  {
    hide Pot, Remainders, Recovered, Claimed;
    AccumulatedGrowth(incs, L);
    var total := TotalGrowth(incs);
    FloorAtLeast(Remainders(incs, L), SCALE, 1);
    if Remainders(incs, L) < SCALE {
      forall shares | SumOver(shares, Weight) <= L
        ensures Claimed(total, shares) <= Pot(incs, L)
      {
        FitsAll(total, shares, L);
      }
    } else {
      SoleClaim(total, L);
    }
  }

  lemma FitsAll(total: nat, shares: seq<nat>, L: nat)
    requires SumOver(shares, Weight) <= L
    ensures Claimed(total, shares) <= Recovered(total, L)
  {
    ClaimsAreCovered(total, shares, L);
  }

  lemma SoleClaim(total: nat, L: nat)
    ensures SumOver([L], Weight) == L && Claimed(total, [L]) == Recovered(total, L)
  {
    var one: seq<nat> := [L];
    assert one[..0] == [];
    var claim := (share: nat) => Claim(total, share);
    SoleSum(one, claim);
    SumCong(one, claim, share => Claim(total, share));
  }

  // ------------------------------------------------------------------- runs

  lemma RunGrowthIsNonNegative(pool: Pool, init: seq<seq<Order>>, orders: seq<Order>, k: nat, tokenB: bool)
    requires k < |pool.buckets|
    ensures |Run(pool, init).buckets| == |pool.buckets| && Growth(Run(pool, init), orders, k, tokenB) >= 0
  {
    hide Growth, Run, EpochFlow, Credit, DirectedTrace;
    RunKeepsAggregates(pool, init);
    GrowthIsCredited(Run(pool, init), orders, k, tokenB);
  }

  /** The growth of bucket k in the epoch after the given ones. */
  function NextGrowth(pool: Pool, init: seq<seq<Order>>, orders: seq<Order>, k: nat, tokenB: bool): nat
    requires k < |pool.buckets|
  {
    RunGrowthIsNonNegative(pool, init, orders, k, tokenB);
    Growth(Run(pool, init), orders, k, tokenB)
  }

  /** Each epoch's growth of bucket k, in order. */
  function Growths(pool: Pool, epochs: seq<seq<Order>>, k: nat, tokenB: bool): (r: seq<nat>)
    requires k < |pool.buckets|
    ensures |r| == |epochs|
  {
    if |epochs| == 0 then []
    else
      var init := epochs[..|epochs| - 1];
      Growths(pool, init, k, tokenB) + [NextGrowth(pool, init, epochs[|epochs| - 1], k, tokenB)]
  }

  lemma NextGrowthIsGain(pool: Pool, init: seq<seq<Order>>, orders: seq<Order>, k: nat, tokenB: bool)
    requires k < |pool.buckets|
    ensures |Run(pool, init).buckets| == |Run(pool, init + [orders]).buckets| == |pool.buckets|
    ensures NextGrowth(pool, init, orders, k, tokenB)
         == CumFee(tokenB, Run(pool, init + [orders]).buckets[k]) - CumFee(tokenB, Run(pool, init).buckets[k])
  {
    hide Epoch;
    RunKeepsAggregates(pool, init);
    RunKeepsAggregates(pool, init + [orders]);
    assert (init + [orders])[..|init|] == init;
  }

  lemma {:induction false} GrowthsTelescope(pool: Pool, epochs: seq<seq<Order>>, k: nat, tokenB: bool)
    requires k < |pool.buckets|
    ensures |Run(pool, epochs).buckets| == |pool.buckets|
    ensures TotalGrowth(Growths(pool, epochs, k, tokenB))
         == CumFee(tokenB, Run(pool, epochs).buckets[k]) - CumFee(tokenB, pool.buckets[k])
  {
    hide Epoch, NextGrowth, CumFee;
    RunKeepsAggregates(pool, epochs);
    if |epochs| > 0 {
      var init, orders := epochs[..|epochs| - 1], epochs[|epochs| - 1];
      assert init + [orders] == epochs;
      GrowthsTelescope(pool, init, k, tokenB);
      NextGrowthIsGain(pool, init, orders, k, tokenB);
      SumSnoc<nat>(Growths(pool, init, k, tokenB), NextGrowth(pool, init, orders, k, tokenB), Value);
    }
  }

  /**
   Liquidity providers over a run. However the bucket's liquidity is divided, the
   claims on the growth of its cumulative fee stay within what the clearings forwarded
   for it, plus less than one unit per clearing.
   */
  lemma RunClaims(pool: Pool, epochs: seq<seq<Order>>, k: nat, tokenB: bool, shares: seq<nat>)
    requires k < |pool.buckets| && SumOver(shares, Weight) <= pool.buckets[k].state.liquidity
    ensures |Run(pool, epochs).buckets| == |pool.buckets|
    ensures
      var grown := CumFee(tokenB, Run(pool, epochs).buckets[k]) - CumFee(tokenB, pool.buckets[k]);
      && grown >= 0
      && Claimed(grown, shares) <= Pot(Growths(pool, epochs, k, tokenB), pool.buckets[k].state.liquidity)
                                   + (if |epochs| > 0 then |epochs| - 1 else 0)
  {
    hide Pot, Growths, Claimed, Run, CumFee;
    GrowthsTelescope(pool, epochs, k, tokenB);
    ClaimsNearlyCovered(Growths(pool, epochs, k, tokenB), pool.buckets[k].state.liquidity, shares);
  }
}
