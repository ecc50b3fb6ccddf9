/** Token conservation of one pool's clearing, down to the last unit of dust. */
module Conservation {
  import opened Arithmetic
  import opened FixedPoint
  import opened Sequences
  import opened Apportion
  import opened Swap
  import opened SwapTheory
  import opened Price
  import opened PriceTheory
  import opened Clearing

  // ------------------------------------------------------ one directed swap

  /** Direction and gross input of the AMM leg of an evaluated price. */
  function GoesUp(ev: PriceEval): bool {
    ev.netA <= 0
  }

  function GrossInput(ev: PriceEval): nat {
    if ev.netA > 0 then ev.swap.ammAIn else ev.swap.ammBIn
  }

  function Withheld(input: nat): nat {
    input - AfterFee(input)
  }

  function LiquidityAt(bs: seq<Bucket>, d: Delta): nat {
    if d.id < |bs| then bs[d.id].state.liquidity else 0
  }

  /** Rounding allowance of fee recovery over the touched buckets. */
  function DustCap(liquidity: seq<nat>): int {
    if |liquidity| == 0 then 0
    else DustCap(liquidity[..|liquidity| - 1]) + CeilDiv(liquidity[|liquidity| - 1], SCALE)
  }

  function LiquidityDust(st: Step): int {
    CeilDiv(st.liquidity, SCALE)
  }

  /** The index-aligned totals are sums of per-delta terms. */
  lemma {:induction false} AlignedSums(bs: seq<Bucket>, ds: seq<Delta>,
                                       a: Delta -> int, b: Delta -> int, c: Delta -> int)
    requires AllBelow(ds, |bs|)
    requires forall d :: a(d) == RecoveredA(d, LiquidityAt(bs, d))
    requires forall d :: b(d) == RecoveredB(d, LiquidityAt(bs, d))
    requires forall d :: c(d) == CeilDiv(LiquidityAt(bs, d), SCALE)
    ensures
      var liquidity := Liquidities(StatesBefore(bs, ds));
      && RecoveredFees(ds, liquidity) == (SumOver(ds, a), SumOver(ds, b))
      && DustCap(liquidity) == SumOver(ds, c)
  {
    hide RecoveredA, RecoveredB, CeilDiv;
    if |ds| > 0 {
      var n := |ds| - 1;
      assert AllBelow(ds[..n], |bs|);
      AlignedSums(bs, ds[..n], a, b, c);
      assert Liquidities(StatesBefore(bs, ds))[..n] == Liquidities(StatesBefore(bs, ds[..n]));
    }
  }

  /** Recovered fees of a walk: none on the output side, all but dust on the input side. */
  lemma {:induction false} StepRecovery(bs: seq<Bucket>, up: bool, steps: seq<Step>, fees: seq<int>,
                                        f: Delta -> int, off: Delta -> int)
    requires |fees| == |steps|
    requires forall i :: 0 <= i < |steps| ==> fees[i] >= 0
    requires forall i :: 0 <= i < |steps| ==>
      steps[i].id < |bs| && steps[i].liquidity == bs[steps[i].id].state.liquidity
    requires forall d :: f(d) == Recovered(if up then d.feeBInc else d.feeAInc, LiquidityAt(bs, d))
    requires forall d :: off(d) == Recovered(if up then d.feeAInc else d.feeBInc, LiquidityAt(bs, d))
    ensures SumOver(RawDeltas(up, steps, fees), off) == 0
    ensures 0 <= SumOver(RawDeltas(up, steps, fees), f) <= SumOver(fees, Share)
    ensures SumOver(fees, Share) <= SumOver(RawDeltas(up, steps, fees), f) + SumOver(steps, LiquidityDust)
  {
    if |steps| > 0 {
      var n := |steps| - 1;
      StepRecovery(bs, up, steps[..n], fees[..n], f, off);
      assert RawDeltas(up, steps, fees)[..n] == RawDeltas(up, steps[..n], fees[..n]);
      OneRecovery(bs, up, steps[n], fees[n], f, off);
    }
  }

  lemma OneRecovery(bs: seq<Bucket>, up: bool, st: Step, fee: nat, f: Delta -> int, off: Delta -> int)
    requires st.id < |bs| && st.liquidity == bs[st.id].state.liquidity
    requires forall d :: f(d) == Recovered(if up then d.feeBInc else d.feeAInc, LiquidityAt(bs, d))
    requires forall d :: off(d) == Recovered(if up then d.feeAInc else d.feeBInc, LiquidityAt(bs, d))
    ensures
      var d := DeltaOf(up, st, fee);
      off(d) == 0 && 0 <= f(d) <= fee <= f(d) + LiquidityDust(st)
  {
    RecoveryBound(fee, st.liquidity);
    assert Recovered(0, st.liquidity) == 0;
  }

  /**
   A directed swap of a gross input: what it adds and takes from the buckets, and
   how much of the withheld fee its increments can forward.
   */
  lemma SwapFlows(pool: Pool, up: bool, input: nat)
    requires DirectedTrace(pool, up, input).Ok?
    ensures
      var t := DirectedTrace(pool, up, input).value;
      var ds := t.deltas;
      AllBelow(ds, |pool.buckets|) &&
      var liquidity := Liquidities(StatesBefore(pool.buckets, ds));
      var fees := RecoveredFees(ds, liquidity);
      var kept, none := if up then fees.1 else fees.0, if up then fees.0 else fees.1;
      && SumOver(ds, if up then BAdd else AAdd) == AfterFee(input)
      && SumOver(ds, if up then AAdd else BAdd) == 0
      && SumOver(ds, if up then BSub else ASub) == 0
      && SumOver(ds, if up then ASub else BSub) >= 0
      && t.newReserveA == pool.reserveA + SumOver(ds, AAdd) - SumOver(ds, ASub)
      && t.newReserveB == pool.reserveB + SumOver(ds, BAdd) - SumOver(ds, BSub)
      && none == 0 && 0 <= kept <= Withheld(input)
      && (AfterFee(input) > 0 ==> Withheld(input) <= kept + DustCap(liquidity))
  {
    hide RouteSwap, SwapDeltas, Split, AfterFee, RecoveredFees, StatesBefore, Liquidities, AllBelow;
    if input == 0 {
      EmptySwap(pool);
    } else {
      RouteNeedsInput(pool, up, input);
      var route := RouteSwap(pool, up, input).value;
      RouteFlows(pool, up, input, route.steps);
      SumDifference(DirectedTrace(pool, up, input).value.deltas);
    }
  }

  lemma EmptySwap(pool: Pool)
    ensures AllBelow([], |pool.buckets|)
    ensures AfterFee(0) == 0 && Withheld(0) == 0
    ensures RecoveredFees([], Liquidities(StatesBefore(pool.buckets, []))) == (0, 0)
    ensures forall f: Delta -> int :: SumOver([], f) == 0
  {}

  lemma RouteFlows(pool: Pool, up: bool, input: nat, steps: seq<Step>)
    requires RouteSwap(pool, up, input).Ok? && steps == RouteSwap(pool, up, input).value.steps
    requires AfterFee(input) > 0 || |steps| <= 1
    ensures
      var ds := SwapDeltas(up, steps, StepFees(steps, input));
      AllBelow(ds, |pool.buckets|) &&
      var liquidity := Liquidities(StatesBefore(pool.buckets, ds));
      var fees := RecoveredFees(ds, liquidity);
      var kept, none := if up then fees.1 else fees.0, if up then fees.0 else fees.1;
      && SumOver(ds, if up then BAdd else AAdd) == AfterFee(input)
      && SumOver(ds, if up then AAdd else BAdd) == 0
      && SumOver(ds, if up then BSub else ASub) == 0
      && SumOver(ds, if up then ASub else BSub) >= 0
      && none == 0 && 0 <= kept <= Withheld(input)
      && (AfterFee(input) > 0 ==> Withheld(input) <= kept + DustCap(liquidity))
  {
    hide Walk, SwapDeltas, Split, AfterFee, RecoveredFees, StatesBefore, Liquidities, AllBelow,
         RecoveredA, RecoveredB, DustCap, Recovered;
    var bs, fees := pool.buckets, StepFees(steps, input);
    var ds := SwapDeltas(up, steps, fees);
    RouteDeltas(pool, up, input, steps, fees);
    FlowSums(up, steps, fees);
    RouteTotals(pool, up, input, steps);
    var a := (d: Delta) => RecoveredA(d, LiquidityAt(bs, d));
    var b := (d: Delta) => RecoveredB(d, LiquidityAt(bs, d));
    var c := (d: Delta) => CeilDiv(LiquidityAt(bs, d), SCALE);
    AlignedSums(bs, ds, a, b, c);
    RouteRecovery(pool, up, input, steps, a, b, c);
  }

  lemma RouteTotals(pool: Pool, up: bool, input: nat, steps: seq<Step>)
    requires RouteSwap(pool, up, input).Ok? && steps == RouteSwap(pool, up, input).value.steps
    ensures SumOver(steps, AmountIn) == AfterFee(input) && SumOver(steps, AmountOut) >= 0
    ensures forall i :: 0 <= i < |steps| ==>
      steps[i].id < |pool.buckets| && steps[i].liquidity == pool.buckets[steps[i].id].state.liquidity
  {
    hide Walk, AfterFee;
    WalkConsumes(pool.buckets, up, StartBucket(pool), pool.currentSqrtPrice, AfterFee(input));
    WalkIsDirected(pool.buckets, up, StartBucket(pool), pool.currentSqrtPrice, AfterFee(input));
    SumNonNeg(steps, AmountOut);
  }

  lemma RouteRecovery(pool: Pool, up: bool, input: nat, steps: seq<Step>,
                      a: Delta -> int, b: Delta -> int, c: Delta -> int)
    requires RouteSwap(pool, up, input).Ok? && steps == RouteSwap(pool, up, input).value.steps
    requires AfterFee(input) > 0 || |steps| <= 1
    requires forall d :: a(d) == RecoveredA(d, LiquidityAt(pool.buckets, d))
    requires forall d :: b(d) == RecoveredB(d, LiquidityAt(pool.buckets, d))
    requires forall d :: c(d) == CeilDiv(LiquidityAt(pool.buckets, d), SCALE)
    ensures
      var ds := SwapDeltas(up, steps, StepFees(steps, input));
      var kept := SumOver(ds, if up then b else a);
      && SumOver(ds, if up then a else b) == 0
      && 0 <= kept <= Withheld(input)
      && (AfterFee(input) > 0 ==> Withheld(input) <= kept + SumOver(ds, c))
  {
    hide Walk, Split, AfterFee, Recovered, CeilDiv, RawDeltas, StepFees, StartBucket;
    RouteNeedsInput(pool, up, input);
    RouteTotals(pool, up, input, steps);
    var fees := StepFees(steps, input);
    var raw := RawDeltas(up, steps, fees);
    if AfterFee(input) > 0 {
      FeesAddUp(pool, up, input);
      assert SumOver(fees, Share) == Withheld(input) by { StepFeesSum(pool, up, input, steps); }
    }
    StepRecovery(pool.buckets, up, steps, fees, if up then b else a, if up then a else b);
    RawDeltaSum(up, steps, fees, c, LiquidityDust);
    SumReverse(raw, a);
    SumReverse(raw, b);
    SumReverse(raw, c);
  }

  lemma StepFeesSum(pool: Pool, up: bool, input: nat, steps: seq<Step>)
    requires RouteSwap(pool, up, input).Ok? && steps == RouteSwap(pool, up, input).value.steps
    requires AfterFee(input) > 0
    ensures SumOver(StepFees(steps, input), Share) == Withheld(input)
  {
    hide RouteSwap, AfterFee, StepFees;
    FeesAddUp(pool, up, input);
  }

  // ------------------------------------------------------ one evaluated price

  /** The AMM leg of an unsaturated evaluation is one directed swap, booked on one side. */
  lemma EvalIsSwap(pool: Pool, netA: int, p: nat)
    requires RouteNet(pool, netA, p).Ok? && !RouteNet(pool, netA, p).value.saturated
    ensures
      var n := RouteNet(pool, netA, p).value;
      var up, input := netA <= 0, if netA > 0 then n.ammAIn else n.ammBIn;
      DirectedTrace(pool, up, input).Ok? &&
      var t := DirectedTrace(pool, up, input).value;
      && n.ammAIn == (if netA > 0 then netA else 0)
      && n.ammBIn == (if netA < 0 && p > 0 then -netA * SCALE / p else 0)
      && n.ammAOut == SumOver(t.deltas, ASub) && n.ammBOut == SumOver(t.deltas, BSub)
      && n.newReserveA == t.newReserveA && n.newReserveB == t.newReserveB
      && (n.trace == if netA == 0 then None else Some(t))
      && n.ammAOut >= 0 && n.ammBOut >= 0
      && (netA >= 0 ==> n.ammAOut == 0) && (netA <= 0 ==> n.ammBOut == 0)
      && (netA != 0 ==> n.realizedP == if netA > 0 then Ratio(netA, n.ammBOut) else Ratio(n.ammAOut, n.ammBIn))
  {
    hide RouteSwap, SwapDeltas, Split, AfterFee, Ratio;
    if netA > 0 {
      SwapSides(pool, false, netA);
    } else if netA < 0 {
      SwapSides(pool, true, RouteNet(pool, netA, p).value.ammBIn);
    }
  }

  lemma SwapSides(pool: Pool, up: bool, input: nat)
    requires DirectedTrace(pool, up, input).Ok?
    ensures SumOver(DirectedTrace(pool, up, input).value.deltas, if up then BSub else ASub) == 0
    ensures SumOver(DirectedTrace(pool, up, input).value.deltas, if up then ASub else BSub) >= 0
  {
    SwapFlows(pool, up, input);
  }

  /** Both side totals are non-negative, so every division in the fills is a floor. */
  lemma TotalsAreNonNegative(pool: Pool, batch: seq<Order>, p: nat)
    requires EvalAt(pool, batch, p).Ok? && !EvalAt(pool, batch, p).value.swap.saturated
    ensures XTotal(EvalAt(pool, batch, p).value) >= 0
    ensures YTotal(EvalAt(pool, batch, p).value) >= 0
    ensures EvalAt(pool, batch, p).value.swap.ammBIn <= TotalIn(Sells(batch, p))
  {
    hide RouteNet, Buys, Sells, TotalIn, DirectedTrace;
    var ev := EvalAt(pool, batch, p).value;
    EvalIsSwap(pool, ev.netA, p);
    RoutedFits(TotalIn(Buys(batch, p)), TotalIn(Sells(batch, p)), p);
  }

  /** The token B sized from a net deficit never exceeds what the sellers brought. */
  lemma RoutedFits(sumAIn: nat, sumBIn: nat, p: nat)
    ensures
      var netA := sumAIn - sumBIn * p / SCALE;
      && sumBIn * p / SCALE >= 0
      && (netA < 0 ==> p > 0)
      && (netA < 0 && p > 0 ==> 0 <= -netA * SCALE / p <= sumBIn)
  {
    var netA := sumAIn - sumBIn * p / SCALE;
    FloorNonNeg(sumBIn * p, SCALE);
    assert p == 0 ==> sumBIn * p == 0;
    if netA < 0 && p > 0 {
      FloorNonNeg(-netA * SCALE, p);
      ResizedInput(sumBIn, p);
      FloorMono(-netA * SCALE, (sumBIn * p / SCALE) * SCALE, p);
    }
  }

  // ------------------------------------------------------------- the fills

  /** A side's fills name its orders in turn and pay out its total exactly. */
  lemma SideIsExact(orders: seq<Order>, total: int)
    requires SideFills(orders, total).Ok?
    ensures
      var fills := SideFills(orders, total).value;
      && |fills| == |orders|
      && (forall i :: 0 <= i < |orders| ==>
            fills[i].orderNonce == orders[i].orderNonce && fills[i].filledIn == orders[i].amountIn)
      && SumOver(fills, Out) == if |orders| > 0 then total else 0
  {
    hide Split, TotalIn;
    if |orders| > 0 {
      var outs := Split(total, Amounts(orders), TotalIn(orders));
      SplitIsExact(total, Amounts(orders), TotalIn(orders));
      FillsSum(orders, outs);
    }
  }

  lemma {:induction false} FillsSum(orders: seq<Order>, outs: seq<int>)
    requires |outs| == |orders|
    ensures SumOver(FillsOf(orders, outs), Out) == SumOver(outs, Share)
  {
    if |orders| > 0 {
      var n := |orders| - 1;
      FillsSum(orders[..n], outs[..n]);
      assert FillsOf(orders, outs)[..n] == FillsOf(orders[..n], outs[..n]);
    }
  }

  lemma {:induction false} AmountsWeigh(orders: seq<Order>)
    ensures SumOver(Amounts(orders), Weight) == TotalIn(orders)
  {
    if |orders| > 0 {
      AmountsWeigh(orders[..|orders| - 1]);
      assert Amounts(orders)[..|orders| - 1] == Amounts(orders[..|orders| - 1]);
    }
  }

  /** Every order of a side receives at least its floored pro-rata part. */
  lemma SideIsFair(orders: seq<Order>, total: nat, i: nat)
    requires SideFills(orders, total).Ok? && i < |orders|
    ensures TotalIn(orders) > 0 ==>
      SideFills(orders, total).value[i].amountOut >= total * orders[i].amountIn / TotalIn(orders)
    ensures TotalIn(orders) == 0 ==> SideFills(orders, total).value[i].amountOut == total && orders[i].amountIn == 0
  {
    hide Split;
    AmountsWeigh(orders);
    if TotalIn(orders) > 0 {
      SplitIsFair(total, Amounts(orders), TotalIn(orders), i);
    } else {
      SumNonNeg(orders, AmountInOf);
      assert Split(total, Amounts(orders), 0) == [total] by { SoleSplit(total, Amounts(orders), 0); }
    }
  }

  // ------------------------------------------------------- the conservation law

  /** The evaluation a cleared epoch settled on. */
  function SettledEval(pool: Pool, orders: seq<Order>): (r: PriceEval)
    requires Clear(pool, orders).Ok? && Clear(pool, orders).value.Cleared?
  {
    ClearedPrice(pool, orders);
    EvalAt(pool, SelectBatch(orders), Clear(pool, orders).value.price).value
  }

  lemma ClearedPrice(pool: Pool, orders: seq<Order>)
    requires Clear(pool, orders).Ok? && Clear(pool, orders).value.Cleared?
    ensures EvalAt(pool, SelectBatch(orders), Clear(pool, orders).value.price).Ok?
  {
    hide FindPrice, EvalAt, SettleAt, SelectBatch;
    var p := FindPrice(pool, SelectBatch(orders)).value.price;
    SettlementPrice(EvalAt(pool, SelectBatch(orders), p).value, p);
  }

  lemma ClearedUnfolds(pool: Pool, orders: seq<Order>)
    requires Clear(pool, orders).Ok? && Clear(pool, orders).value.Cleared?
    ensures
      var c := Clear(pool, orders).value;
      var batch := SelectBatch(orders);
      && FindPrice(pool, batch).Ok? && FindPrice(pool, batch).value.Found?
      && FindPrice(pool, batch).value.price == c.price
      && EvalAt(pool, batch, c.price).Ok?
      && SettleAt(SettledEval(pool, orders), c.price) == Ok(c)
  {
    hide FindPrice, EvalAt, SettleAt, SelectBatch;
    var ev := EvalAt(pool, SelectBatch(orders), FindPrice(pool, SelectBatch(orders)).value.price).value;
    SettlementPrice(ev, FindPrice(pool, SelectBatch(orders)).value.price);
  }

  lemma SettlementPrice(ev: PriceEval, p: nat)
    requires SettleAt(ev, p).Ok? && SettleAt(ev, p).value.Cleared?
    ensures SettleAt(ev, p).value.price == p && !ev.swap.saturated
    ensures |ev.eligibleBuys| + |ev.eligibleSells| > 0
    ensures
      var c := SettleAt(ev, p).value;
      var n := |ev.eligibleBuys|;
      && |c.fills| == n + |ev.eligibleSells|
      && SideFills(ev.eligibleBuys, YTotal(ev)) == Ok(c.fills[..n])
      && SideFills(ev.eligibleSells, XTotal(ev)) == Ok(c.fills[n..])
      && c.newReserveA == ev.swap.newReserveA && c.newReserveB == ev.swap.newReserveB
      && c.trace == ev.swap.trace
  {
    hide Split, XTotal, YTotal;
  }

  /** A cleared epoch's pool side is one directed swap, dust and all. */
  lemma V2IsSwap(pool: Pool, orders: seq<Order>)
    requires ClearV2(pool, orders).Ok? && ClearV2(pool, orders).value.ClearedV2?
    ensures
      var r := ClearV2(pool, orders).value;
      Clear(pool, orders).Ok? && Clear(pool, orders).value.Cleared? &&
      var ev := SettledEval(pool, orders);
      && !ev.swap.saturated && r.price == Clear(pool, orders).value.price
      && r.fills == Clear(pool, orders).value.fills
      && DirectedTrace(pool, GoesUp(ev), GrossInput(ev))
         == Ok(TraceOutput(r.sqrtPriceAfter, r.deltas, r.newReserveA, r.newReserveB))
      && AllBelow(r.deltas, |pool.buckets|) && Ascending(r.deltas)
      && r.before == StatesBefore(pool.buckets, r.deltas) && r.after == StatesAfter(pool.buckets, r.deltas)
  {
    hide Clear, RouteNet, StatesBefore, StatesAfter, AllBelow, Ascending, SideFills, TraceSwap, SelectBatch,
         Buys, Sells, NetA;
    ClearedUnfolds(pool, orders);
    var ev, p := SettledEval(pool, orders), Clear(pool, orders).value.price;
    SettlementPrice(ev, p);
    EvalIsSwap(pool, ev.netA, p);
    NoDeltas(|pool.buckets|);
    TraceZero(pool);
    EmptyStates(pool.buckets);
    if Clear(pool, orders).value.trace.Some? {
      ClearTraceInRange(pool, orders);
    }
  }

  lemma TraceZero(pool: Pool)
    ensures TraceSwap(pool, 0, 0) == Ok(TraceOutput(pool.currentSqrtPrice, [], pool.reserveA, pool.reserveB))
  {}

  lemma EmptyStates(bs: seq<Bucket>)
    ensures AllBelow([], |bs|) && StatesBefore(bs, []) == [] && StatesAfter(bs, []) == []
  {}

  /**
   What the buckets pay a clearing that swaps token A: the price moves of the walk behind
   it, each times the liquidity it met, short by less than a unit for each of at most four
   buckets; the buyers receive that and what the sellers brought.
   */
  lemma BuySidePays(pool: Pool, orders: seq<Order>)
    requires Clear(pool, orders).Ok? && Clear(pool, orders).value.Cleared? && SettledEval(pool, orders).netA > 0
    ensures
      var ev := SettledEval(pool, orders);
      var route := RouteSwap(pool, false, ev.netA);
      && route.Ok? && |route.value.steps| <= 4
      && YTotal(ev) == TotalIn(ev.eligibleSells) + ev.swap.ammBOut
      && ev.swap.ammBOut * SCALE <= SumOver(route.value.steps, Drop)
      && SumOver(route.value.steps, Drop) <= (ev.swap.ammBOut + |route.value.steps|) * SCALE
      && Clear(pool, orders).value.trace.Some?
      && Clear(pool, orders).value.trace.value.newSqrtPrice == route.value.sqrtEnd
  {
    hide Clear, RouteNet, SelectBatch, Buys, Sells, TotalIn, AfterFee, Split, Walk, StartBucket, SettleAt, NetA,
         SwapDeltas, TraceSwap;
    ClearedUnfolds(pool, orders);
    var ev, p := SettledEval(pool, orders), Clear(pool, orders).value.price;
    SettlementPrice(ev, p);
    EvalIsSwap(pool, ev.netA, p);
    var steps := BuyRoute(pool, ev.netA);
    DownWalkPays(pool.buckets, StartBucket(pool), pool.currentSqrtPrice, AfterFee(ev.netA));
  }

  lemma BuyRoute(pool: Pool, input: nat) returns (steps: seq<Step>)
    requires input > 0 && TraceSwap(pool, input, 0).Ok?
    ensures RouteSwap(pool, false, input) == Ok(Route(steps, TraceSwap(pool, input, 0).value.newSqrtPrice))
    ensures |steps| <= 4 && SumOver(TraceSwap(pool, input, 0).value.deltas, BSub) == SumOver(steps, AmountOut)
  {
    hide Walk, Split, AfterFee, StartBucket, SwapDeltas;
    RouteNeedsInput(pool, false, input);
    steps := RouteSwap(pool, false, input).value.steps;
    FlowSums(false, steps, StepFees(steps, input));
  }

  /** Token B inputs that a book without buyers leaves unrouted. */
  function Unrouted(ev: PriceEval): int {
    if |ev.eligibleBuys| == 0 then TotalIn(ev.eligibleSells) - ev.swap.ammBIn else 0
  }

  /**
   Conservation of one pool's clearing. For each token: payouts, plus the gross
   flow to the pool, plus the unrecovered fee dust (plus, with no buyer, the
   unrouted input) equal the filled inputs plus the flow from the pool, exactly;
   and the dust is non-negative and at most the rounding allowance.
   */
  lemma ClearingConserves(pool: Pool, orders: seq<Order>)
    requires ClearV2(pool, orders).Ok? && ClearV2(pool, orders).value.ClearedV2?
    ensures
      var r := ClearV2(pool, orders).value;
      Clear(pool, orders).Ok? && Clear(pool, orders).value.Cleared? &&
      var ev := SettledEval(pool, orders);
      var liquidity := Liquidities(r.before);
      |r.before| == |r.deltas| &&
      var fees := RecoveredFees(r.deltas, liquidity);
      var flows := AggregateFlows(r.deltas, liquidity);
      var dustA, dustB := Withheld(ev.swap.ammAIn) - fees.0, Withheld(ev.swap.ammBIn) - fees.1;
      var n := |ev.eligibleBuys|;
      && flows.Ok? && |r.fills| == n + |ev.eligibleSells|
      && SumOver(r.fills[n..], Out) + flows.value.aToPool + dustA
         == TotalIn(ev.eligibleBuys) + flows.value.aFromPool
      && SumOver(r.fills[..n], Out) + flows.value.bToPool + dustB + Unrouted(ev)
         == TotalIn(ev.eligibleSells) + flows.value.bFromPool
      && dustA >= 0 && dustB >= 0 && Unrouted(ev) >= 0
      && (AfterFee(ev.swap.ammAIn) > 0 ==> dustA <= DustCap(liquidity))
      && (AfterFee(ev.swap.ammBIn) > 0 ==> dustB <= DustCap(liquidity))
  {
    hide RouteNet, TotalIn, RecoveredFees, SideFills, StatesBefore, StatesAfter, Liquidities, DustCap,
         AfterFee, TraceSwap, Clear, ClearV2, Buys, Sells, SelectBatch, AllBelow, Ascending, SettleAt,
         XTotal, YTotal, Unrouted, FindPrice, EvalAt;
    V2IsSwap(pool, orders);
    ClearedUnfolds(pool, orders);
    var r, ev := ClearV2(pool, orders).value, SettledEval(pool, orders);
    SettlementPrice(ev, r.price);
    SwapFlows(pool, GoesUp(ev), GrossInput(ev));
    SideIsExact(ev.eligibleBuys, YTotal(ev));
    SideIsExact(ev.eligibleSells, XTotal(ev));
    EvalBalances(pool, SelectBatch(orders), r.price);
    WithheldZero();
  }

  /** The balance of one evaluated price, before the fee is split into forwarded and dust. */
  lemma EvalBalances(pool: Pool, batch: seq<Order>, p: nat)
    requires EvalAt(pool, batch, p).Ok? && !EvalAt(pool, batch, p).value.swap.saturated
    ensures
      var ev := EvalAt(pool, batch, p).value;
      DirectedTrace(pool, GoesUp(ev), GrossInput(ev)).Ok? &&
      var ds := DirectedTrace(pool, GoesUp(ev), GrossInput(ev)).value.deltas;
      && (if |ev.eligibleSells| > 0 then XTotal(ev) else 0) + SumOver(ds, AAdd) + Withheld(ev.swap.ammAIn)
         == TotalIn(ev.eligibleBuys) + SumOver(ds, ASub)
      && (if |ev.eligibleBuys| > 0 then YTotal(ev) else 0) + SumOver(ds, BAdd) + Withheld(ev.swap.ammBIn) + Unrouted(ev)
         == TotalIn(ev.eligibleSells) + SumOver(ds, BSub)
      && Unrouted(ev) >= 0
      && (if GoesUp(ev) then ev.swap.ammAIn == 0 else ev.swap.ammBIn == 0)
  {
    hide RouteNet, TotalIn, RecoveredFees, StatesBefore, AfterFee, Buys, Sells, AllBelow, DirectedTrace;
    var ev := EvalAt(pool, batch, p).value;
    EvalIsSwap(pool, ev.netA, p);
    SwapFlows(pool, GoesUp(ev), GrossInput(ev));
    TotalsAreNonNegative(pool, batch, p);
    FloorNonNeg(TotalIn(Sells(batch, p)) * p, SCALE);
    WithheldZero();
    EmptyTotal();
    assert |ev.eligibleSells| == 0 ==> TotalIn(ev.eligibleSells) * p / SCALE == 0;
  }

  lemma WithheldZero()
    ensures Withheld(0) == 0 && AfterFee(0) == 0
  {}
}
