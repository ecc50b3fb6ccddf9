/**
 One pool, one epoch: the FIFO batch, the uniform price, the pro-rata fills and
 the bucket deltas, plus the gross flows derived from those deltas.
 */
module Clearing {
  import opened FixedPoint
  import opened Sequences
  import opened Apportion
  import opened Swap
  import opened SwapTheory
  import opened Price

  // ------------------------------------------------------------- FIFO batch

  predicate Fifo(a: Order, b: Order) {
    a.submittedAtBlock < b.submittedAtBlock
    || (a.submittedAtBlock == b.submittedAtBlock && a.orderNonce <= b.orderNonce)
  }

  function Nonce(o: Order): int { o.orderNonce }

  /** The oldest orders, at most 32 of them. */
  function SelectBatch(orders: seq<Order>): (r: seq<Order>)
    ensures |r| <= MAX_ORDERS_PER_EPOCH
  {
    var sorted := Sort(orders, Fifo);
    if |sorted| <= MAX_ORDERS_PER_EPOCH then sorted else sorted[..MAX_ORDERS_PER_EPOCH]
  }

  // ------------------------------------------------------------------ fills

  datatype Fill = Fill(orderNonce: int, filledIn: nat, amountOut: int)

  function Out(f: Fill): int { f.amountOut }

  function Amounts(orders: seq<Order>): (r: seq<nat>)
    ensures |r| == |orders|
  {
    seq(|orders|, i requires 0 <= i < |orders| => orders[i].amountIn)
  }

  function FillsOf(orders: seq<Order>, outs: seq<int>): (r: seq<Fill>)
    requires |outs| == |orders|
    ensures |r| == |orders|
  {
    seq(|orders|, i requires 0 <= i < |orders| => Fill(orders[i].orderNonce, orders[i].amountIn, outs[i]))
  }

  /** One side's total, pro-rata by input, the last order absorbing the remainder. */
  function SideFills(orders: seq<Order>, total: int): Result<seq<Fill>> {
    if |orders| > 1 && TotalIn(orders) == 0 then Err(DivisionByZero)
    else Ok(FillsOf(orders, Split(total, Amounts(orders), TotalIn(orders))))
  }

  /** Token A owed to sellers. */
  function XTotal(ev: PriceEval): int {
    TotalIn(ev.eligibleBuys) - ev.swap.ammAIn + ev.swap.ammAOut
  }

  /** Token B owed to buyers. */
  function YTotal(ev: PriceEval): int {
    TotalIn(ev.eligibleSells) - ev.swap.ammBIn + ev.swap.ammBOut
  }

  datatype ClearingResult =
    | Skipped
    | Cleared(price: nat, fills: seq<Fill>, newReserveA: int, newReserveB: int, trace: Option<TraceOutput>)

  /** Everything that follows the price evaluation: the guards, then the fills. */
  function SettleAt(ev: PriceEval, price: nat): Result<ClearingResult> {
    if |ev.eligibleBuys| == 0 && |ev.eligibleSells| == 0 then Ok(Skipped)
    else if ev.swap.saturated then Ok(Skipped)
    else
      var buyFills :- SideFills(ev.eligibleBuys, YTotal(ev));
      var sellFills :- SideFills(ev.eligibleSells, XTotal(ev));
      Ok(Cleared(price, buyFills + sellFills, ev.swap.newReserveA, ev.swap.newReserveB, ev.swap.trace))
  }

  function Clear(pool: Pool, orders: seq<Order>): Result<ClearingResult> {
    var batch := SelectBatch(orders);
    if |batch| == 0 then Ok(Skipped)
    else
      var search :- FindPrice(pool, batch);
      if !search.Found? then Ok(Skipped)
      else
        var ev :- EvalAt(pool, batch, search.price);
        SettleAt(ev, search.price)
  }

  // ------------------------------------------------------------ with buckets

  datatype ClearingV2 =
    | SkippedV2
    | ClearedV2(price: nat, fills: seq<Fill>, newReserveA: int, newReserveB: int,
                deltas: seq<Delta>, sqrtPriceAfter: nat,
                before: seq<BucketState>, after: seq<BucketState>)

  function StateAfter(s: BucketState, d: Delta): BucketState {
    BucketState(s.reserveA + d.aAdd - d.aSub, s.reserveB + d.bAdd - d.bSub, s.liquidity,
                s.cumFeeA + d.feeAInc, s.cumFeeB + d.feeBInc)
  }

  function StatesBefore(bs: seq<Bucket>, deltas: seq<Delta>): (r: seq<BucketState>)
    requires AllBelow(deltas, |bs|)
    ensures |r| == |deltas|
  {
    seq(|deltas|, i requires 0 <= i < |deltas| => bs[deltas[i].id].state)
  }

  function StatesAfter(bs: seq<Bucket>, deltas: seq<Delta>): (r: seq<BucketState>)
    requires AllBelow(deltas, |bs|)
    ensures |r| == |deltas|
  {
    seq(|deltas|, i requires 0 <= i < |deltas| => StateAfter(bs[deltas[i].id].state, deltas[i]))
  }

  /** Touched buckets exist, each once and in ascending order. */
  lemma TraceIsInRange(pool: Pool, netA: nat, netB: nat)
    requires TraceSwap(pool, netA, netB).Ok?
    ensures AllBelow(TraceSwap(pool, netA, netB).value.deltas, |pool.buckets|)
    ensures Ascending(TraceSwap(pool, netA, netB).value.deltas)
  {
    hide RouteSwap, SwapDeltas, Split, AfterFee, AllBelow, Ascending;
    if netA > 0 || netB > 0 {
      var up, input := netB > 0, if netB > 0 then netB else netA;
      var route := RouteSwap(pool, up, input).value;
      RouteNeedsInput(pool, up, input);
      assert TraceSwap(pool, netA, netB).value.deltas == SwapDeltas(up, route.steps,
        Split(input - AfterFee(input), Inputs(route.steps), AfterFee(input)));
      RouteDeltas(pool, up, input, route.steps,
                  Split(input - AfterFee(input), Inputs(route.steps), AfterFee(input)));
    } else {
      NoDeltas(|pool.buckets|);
    }
  }

  lemma NoDeltas(n: nat)
    ensures AllBelow([], n) && Ascending([])
  {
  }

  lemma RouteDeltas(pool: Pool, up: bool, input: nat, steps: seq<Step>, fees: seq<int>)
    requires |fees| == |steps|
    requires RouteSwap(pool, up, input).Ok? && RouteSwap(pool, up, input).value.steps == steps
    ensures AllBelow(SwapDeltas(up, steps, fees), |pool.buckets|) && Ascending(SwapDeltas(up, steps, fees))
  {
    hide Walk, SwapDeltas;
    WalkIsDirected(pool.buckets, up, StartBucket(pool), pool.currentSqrtPrice, AfterFee(input));
    DeltasAscend(up, steps, fees);
    RecordedInRange(up, pool, input, map[], steps, fees);
  }

  lemma EvalTraceInRange(pool: Pool, netA: int, p: nat)
    requires RouteNet(pool, netA, p).Ok? && RouteNet(pool, netA, p).value.trace.Some?
    ensures AllBelow(RouteNet(pool, netA, p).value.trace.value.deltas, |pool.buckets|)
    ensures Ascending(RouteNet(pool, netA, p).value.trace.value.deltas)
  {
    hide TraceSwap, AllBelow, Ascending;
    if netA > 0 {
      TraceIsInRange(pool, netA, 0);
    } else {
      TraceIsInRange(pool, 0, MulDiv(-netA, SCALE, p).value);
    }
  }

  lemma ClearTraceInRange(pool: Pool, orders: seq<Order>)
    requires Clear(pool, orders).Ok? && Clear(pool, orders).value.Cleared?
    requires Clear(pool, orders).value.trace.Some?
    ensures AllBelow(Clear(pool, orders).value.trace.value.deltas, |pool.buckets|)
    ensures Ascending(Clear(pool, orders).value.trace.value.deltas)
  {
    hide FindPrice, RouteNet, SideFills, SelectBatch, NetA, Buys, Sells, XTotal, YTotal;
    var batch := SelectBatch(orders);
    var p := FindPrice(pool, batch).value.price;
    EvalTraceInRange(pool, NetA(batch, p), p);
  }

  /** The clearing with its bucket deltas, taken from the one trace that priced it. */
  function ClearV2(pool: Pool, orders: seq<Order>): Result<ClearingV2> {
    var base :- Clear(pool, orders);
    match base
    case Skipped => Ok(SkippedV2)
    case Cleared(price, fills, newA, newB, None) =>
      Ok(ClearedV2(price, fills, pool.reserveA, pool.reserveB, [], pool.currentSqrtPrice, [], []))
    case Cleared(price, fills, newA, newB, Some(t)) =>
      ClearTraceInRange(pool, orders);
      Ok(ClearedV2(price, fills, t.newReserveA, t.newReserveB, t.deltas, t.newSqrtPrice,
                   StatesBefore(pool.buckets, t.deltas), StatesAfter(pool.buckets, t.deltas)))
  }

  // ------------------------------------------------------------ gross flows

  datatype Flows = Flows(aToPool: int, bToPool: int, aFromPool: int, bFromPool: int)

  function RecoveredA(d: Delta, liquidity: nat): int {
    Recovered(d.feeAInc, liquidity)
  }

  function RecoveredB(d: Delta, liquidity: nat): int {
    Recovered(d.feeBInc, liquidity)
  }

  /** The two recovered fee totals of index-aligned deltas and before-liquidities. */
  function RecoveredFees(deltas: seq<Delta>, liquidity: seq<nat>): (int, int)
    requires |deltas| == |liquidity|
  {
    if |deltas| == 0 then (0, 0)
    else
      var n := |deltas| - 1;
      var rest := RecoveredFees(deltas[..n], liquidity[..n]);
      (rest.0 + RecoveredA(deltas[n], liquidity[n]), rest.1 + RecoveredB(deltas[n], liquidity[n]))
  }

  /** To-pool flows are gross: the reserve adds plus the fee that can be forwarded. */
  function AggregateFlows(deltas: seq<Delta>, liquidity: seq<nat>): Result<Flows> {
    if |deltas| != |liquidity| then Err(LengthMismatch)
    else
      var fees := RecoveredFees(deltas, liquidity);
      Ok(Flows(SumOver(deltas, AAdd) + fees.0, SumOver(deltas, BAdd) + fees.1,
               SumOver(deltas, ASub), SumOver(deltas, BSub)))
  }

  function Liquidities(states: seq<BucketState>): (r: seq<nat>)
    ensures |r| == |states|
  {
    seq(|states|, i requires 0 <= i < |states| => states[i].liquidity)
  }

  // --------------------------------------------------------------- the loops

  lemma AmountsTake(orders: seq<Order>, i: nat)
    requires i < |orders|
    ensures Amounts(orders[..i + 1]) == Amounts(orders[..i]) + [orders[i].amountIn]
    ensures Amounts(orders)[..i] == Amounts(orders[..i])
  {}

  lemma FillsTake(orders: seq<Order>, i: nat, outs: seq<int>, out: int)
    requires i == |outs| < |orders|
    ensures FillsOf(orders[..i + 1], outs + [out])
         == FillsOf(orders[..i], outs) + [Fill(orders[i].orderNonce, orders[i].amountIn, out)]
  {}

  /** The first i fills are dealt: floored shares so far, the whole split at the end. */
  ghost predicate Dealt(orders: seq<Order>, total: int, sum: nat, i: nat, fills: seq<Fill>, acc: int)
    requires i <= |orders| && (sum > 0 || i == 0 || |orders| == 1)
  {
    exists outs :: DealtAs(orders, total, sum, i, fills, acc, outs)
  }

  ghost predicate DealtAs(orders: seq<Order>, total: int, sum: nat, i: nat, fills: seq<Fill>, acc: int,
                          outs: seq<int>)
    requires i <= |orders| && (sum > 0 || i == 0 || |orders| == 1)
  {
    && |outs| == i && fills == FillsOf(orders[..i], outs) && acc == SumOver(outs, Share)
    && outs == if i < |orders| then Floors(total, Amounts(orders[..i]), sum) else Split(total, Amounts(orders), sum)
  }

  lemma DealtNone(orders: seq<Order>, total: int, sum: nat)
    ensures Dealt(orders, total, sum, 0, [], 0)
  {
    assert DealtAs(orders, total, sum, 0, [], 0, []);
  }

  lemma DealtNext(orders: seq<Order>, total: int, sum: nat, i: nat, fills: seq<Fill>, acc: int)
    requires i < |orders| && (sum > 0 || |orders| == 1) && Dealt(orders, total, sum, i, fills, acc)
    ensures
      var out := if i == |orders| - 1 then total - acc else FloorShare(total, orders[i].amountIn, sum);
      Dealt(orders, total, sum, i + 1, fills + [Fill(orders[i].orderNonce, orders[i].amountIn, out)], acc + out)
  {
    hide FloorShare, Floors, Amounts, FillsOf;
    var outs :| DealtAs(orders, total, sum, i, fills, acc, outs);
    var out := if i == |orders| - 1 then total - acc else FloorShare(total, orders[i].amountIn, sum);
    AmountsTake(orders, i);
    SumSnoc(outs, out, Share);
    FillsTake(orders, i, outs, out);
    if i < |orders| - 1 {
      FloorsSnoc(total, Amounts(orders[..i]), orders[i].amountIn, sum);
    }
    assert DealtAs(orders, total, sum, i + 1, fills + [Fill(orders[i].orderNonce, orders[i].amountIn, out)],
                   acc + out, outs + [out]);
  }

  lemma DealtAll(orders: seq<Order>, total: int, fills: seq<Fill>, acc: int)
    requires TotalIn(orders) > 0 || |orders| <= 1
    requires Dealt(orders, total, TotalIn(orders), |orders|, fills, acc)
    ensures SideFills(orders, total) == Ok(fills)
  {
    hide Split, FillsOf, Amounts, TotalIn;
    assert orders[..|orders|] == orders;
  }

  method DistributeSide(orders: seq<Order>, total: int, sumIn: nat) returns (r: Result<seq<Fill>>)
    requires sumIn == TotalIn(orders)
    ensures r == SideFills(orders, total)
  {
    hide Dealt, FloorShare, TotalIn;
    var acc := 0;
    var fills: seq<Fill> := [];
    DealtNone(orders, total, sumIn);
    for i := 0 to |orders|
      invariant i == 0 || sumIn > 0 || |orders| == 1
      invariant Dealt(orders, total, sumIn, i, fills, acc)
    {
      var o := orders[i];
      var isLast := i == |orders| - 1;
      var amountOut;
      if isLast {
        amountOut := total - acc;
      } else {
        if sumIn == 0 {
          return Err(DivisionByZero);
        }
        amountOut := FloorShare(total, o.amountIn, sumIn);
      }
      DealtNext(orders, total, sumIn, i, fills, acc);
      acc := acc + amountOut;
      fills := fills + [Fill(o.orderNonce, o.amountIn, amountOut)];
    }
    DealtAll(orders, total, fills, acc);
    return Ok(fills);
  }

  method ComputeClearing(pool: Pool, orders: seq<Order>) returns (r: Result<ClearingResult>)
    ensures r == Clear(pool, orders)
  {
    hide FindPrice, EvalAt, SideFills, SelectBatch;
    var batch := SelectBatch(orders);
    if |batch| == 0 {
      return Ok(Skipped);
    }
    var search := FindClearingPrice(pool, batch);
    if search.Err? {
      return Err(search.error);
    }
    if !search.value.Found? {
      return Ok(Skipped);
    }
    var pStar := search.value.price;
    var eval := ClearingAt(pool, batch, pStar);
    if eval.Err? {
      return Err(eval.error);
    }
    var ev := eval.value;
    if |ev.eligibleBuys| == 0 && |ev.eligibleSells| == 0 {
      return Ok(Skipped);
    }
    if ev.swap.saturated {
      return Ok(Skipped);
    }
    var sumAIn := SumAmounts(ev.eligibleBuys);
    var sumBIn := SumAmounts(ev.eligibleSells);
    var xTotal := sumAIn - ev.swap.ammAIn + ev.swap.ammAOut;
    var yTotal := sumBIn - ev.swap.ammBIn + ev.swap.ammBOut;
    var buyFills := DistributeSide(ev.eligibleBuys, yTotal, sumAIn);
    if buyFills.Err? {
      return Err(buyFills.error);
    }
    var sellFills := DistributeSide(ev.eligibleSells, xTotal, sumBIn);
    if sellFills.Err? {
      return Err(sellFills.error);
    }
    return Ok(Cleared(pStar, buyFills.value + sellFills.value,
                      ev.swap.newReserveA, ev.swap.newReserveB, ev.swap.trace));
  }

  method ComputeClearingV2(pool: Pool, orders: seq<Order>) returns (r: Result<ClearingV2>)
    ensures r == ClearV2(pool, orders)
  {
    hide Clear;
    var base := ComputeClearing(pool, orders);
    if base.Err? {
      return Err(base.error);
    }
    match base.value {
      case Skipped =>
        return Ok(SkippedV2);
      case Cleared(price, fills, newA, newB, trace) =>
        match trace {
          case None =>
            return Ok(ClearedV2(price, fills, pool.reserveA, pool.reserveB, [], pool.currentSqrtPrice, [], []));
          case Some(t) =>
            ClearTraceInRange(pool, orders);
            return Ok(ClearedV2(price, fills, t.newReserveA, t.newReserveB, t.deltas, t.newSqrtPrice,
                                StatesBefore(pool.buckets, t.deltas), StatesAfter(pool.buckets, t.deltas)));
        }
    }
  }

  method RecoverForwardedFee(deltas: seq<Delta>, liquidity: seq<nat>) returns (r: Result<(int, int)>)
    ensures |deltas| != |liquidity| ==> r == Err(LengthMismatch)
    ensures |deltas| == |liquidity| ==> r == Ok(RecoveredFees(deltas, liquidity))
  {
    if |deltas| != |liquidity| {
      return Err(LengthMismatch);
    }
    hide RecoveredA, RecoveredB;
    var feeA, feeB := 0, 0;
    for i := 0 to |deltas|
      invariant (feeA, feeB) == RecoveredFees(deltas[..i], liquidity[..i])
    {
      feeA := feeA + RecoveredA(deltas[i], liquidity[i]);
      feeB := feeB + RecoveredB(deltas[i], liquidity[i]);
      assert deltas[..i + 1][..i] == deltas[..i] && liquidity[..i + 1][..i] == liquidity[..i];
    }
    assert deltas[..|deltas|] == deltas && liquidity[..|deltas|] == liquidity;
    return Ok((feeA, feeB));
  }

  method DeriveAggregateFlows(deltas: seq<Delta>, liquidity: seq<nat>) returns (r: Result<Flows>)
    ensures r == AggregateFlows(deltas, liquidity)
  {
    hide RecoveredFees;
    var fees := RecoverForwardedFee(deltas, liquidity);
    if fees.Err? {
      return Err(fees.error);
    }
    var aToPool, aFromPool, bToPool, bFromPool := 0, 0, 0, 0;
    for i := 0 to |deltas|
      invariant aToPool == SumOver(deltas[..i], AAdd) && aFromPool == SumOver(deltas[..i], ASub)
      invariant bToPool == SumOver(deltas[..i], BAdd) && bFromPool == SumOver(deltas[..i], BSub)
    {
      var d := deltas[i];
      SumTake(deltas, i, AAdd);
      SumTake(deltas, i, ASub);
      SumTake(deltas, i, BAdd);
      SumTake(deltas, i, BSub);
      aToPool, aFromPool := aToPool + d.aAdd, aFromPool + d.aSub;
      bToPool, bFromPool := bToPool + d.bAdd, bFromPool + d.bSub;
    }
    assert deltas[..|deltas|] == deltas;
    return Ok(Flows(aToPool + fees.value.0, bToPool + fees.value.1, aFromPool, bFromPool));
  }
}
