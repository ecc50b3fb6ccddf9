/**
 Concrete pools and epochs on which the program falls short of a promise, worked
 through the whole clearing. The pool has one generated bucket; a buy of a million
 takes its price from the top of the bucket to the bottom, a sell of two million takes
 it back. Every order is above the dust floor.
 */
module Instances {
  import opened FixedPoint
  import opened Sequences
  import opened Apportion
  import opened Buckets
  import opened Swap
  import opened SwapTheory
  import opened Price
  import opened Clearing
  import opened Conservation
  import opened Runs
  import opened FeePot
  import opened OneSidedBook
  import opened OneSidedLimits
  import Grid

  const DEPTH: nat := 1_994_000
  const HALF: nat := 500_000_000_000_000_000

  /** A buyer whose limit is exactly the price it clears at. */
  const BUY: Order := Order(false, 1_000_000, HALF, 0, 1, 1)

  const SELL: Order := Order(true, 2_000_000, HALF, 0, 2, 2)

  /** One bucket of the grid that starts at 1.0 and doubles, with the pool at price s. */
  ghost predicate OneBucket(pool: Pool, s: nat) {
    && pool.currentSqrtPrice == s && |pool.buckets| == 1
    && pool.buckets[0].bounds == Bounds(Grid.LowerOf(SCALE, 2 * SCALE, 0), Grid.LowerOf(SCALE, 2 * SCALE, 1))
    && pool.buckets[0].state.liquidity == DEPTH
  }

  lemma BucketBounds(pool: Pool, s: nat)
    requires OneBucket(pool, s)
    ensures pool.buckets[0].bounds == Bounds(SCALE, 2 * SCALE)
  {
    assert Grid.LowerOf(SCALE, 2 * SCALE, 0) == SCALE;
    assert Grid.LowerOf(SCALE, 2 * SCALE, 1) == SCALE * (2 * SCALE) / SCALE;
  }

  // ------------------------------------------------------------- one-order batches

  lemma OneOrder(o: Order, p: nat)
    ensures Buys([o], p) == if BuyEligible(o, p) then [o] else []
    ensures Sells([o], p) == if SellEligible(o, p) then [o] else []
    ensures TotalIn([]) == 0
  {
    FilterOne(o, x => BuyEligible(x, p));
    FilterOne(o, x => SellEligible(x, p));
  }

  // --------------------------------------------------------------------- the swaps

  const BUY_DELTA: Delta := Delta(0, 997_000, 0, 0, 1_994_000, 3_000 * SCALE / DEPTH, 0)

  const SELL_DELTA: Delta := Delta(0, 0, 997_000, 1_994_000, 0, 0, 6_000 * SCALE / DEPTH)

  lemma BuyStep(pool: Pool, st: Step)
    requires OneBucket(pool, 2 * SCALE)
    requires st == Step(0, DEPTH, 2 * SCALE, SCALE, 997_000, 1_994_000, false)
    ensures RouteSwap(pool, false, 1_000_000) == Ok(Route([st], SCALE))
  {
    BucketBounds(pool, 2 * SCALE);
    assert FindBucket(pool.buckets, 2 * SCALE, 0) == -1;
    BuyBucketStep(pool.buckets[0], st);
    hide SwapStep, FindBucket, Walk;
    SoleWalk(pool.buckets, false, 2 * SCALE, 997_000, st);
  }

  lemma BuyBucketStep(b: Bucket, st: Step)
    requires b.bounds == Bounds(SCALE, 2 * SCALE) && b.state.liquidity == DEPTH
    requires st == Step(0, DEPTH, 2 * SCALE, SCALE, 997_000, 1_994_000, false)
    ensures SwapStep(false, 0, b, 2 * SCALE, 997_000) == Ok(st)
  {
    hide NextSqrtPDown, StepInMax;
    assert StepInMax(false, DEPTH, b.bounds, 2 * SCALE) == Ok(997_000) by {
      LimitOfBucket(b.bounds);
    }
    BuyLanding();
  }

  lemma LimitOfBucket(b: Bounds)
    requires b == Bounds(SCALE, 2 * SCALE)
    ensures StepInMax(false, DEPTH, b, 2 * SCALE) == Ok(997_000)
  {}

  lemma BuyLanding()
    ensures NextSqrtPDown(DEPTH, 2 * SCALE, 997_000) == SCALE
  {
    var added := 997_000 * (2 * SCALE) / SCALE;
    assert added == 1_994_000;
    assert 2 * SCALE * DEPTH == SCALE * (DEPTH + added);
    assert SCALE * 3_988_000 / 3_988_000 == SCALE;
  }

  lemma SellStep(pool: Pool, st: Step)
    requires OneBucket(pool, SCALE)
    requires st == Step(0, DEPTH, SCALE, 2 * SCALE, 1_994_000, 997_000, false)
    ensures RouteSwap(pool, true, 2_000_000) == Ok(Route([st], 2 * SCALE))
  {
    BucketBounds(pool, SCALE);
    assert SwapStep(true, 0, pool.buckets[0], SCALE, 1_994_000) == Ok(st);
    SoleWalk(pool.buckets, true, SCALE, 1_994_000, st);
  }

  /** A walk that ends in its first bucket. */
  lemma SoleWalk(bs: seq<Bucket>, up: bool, s: nat, input: nat, st: Step)
    requires |bs| == 1 && AtFunded(bs, 0, s) && input > 0
    requires SwapStep(up, 0, bs[0], s, input) == Ok(st) && st.amountIn == input
    ensures Walk(bs, up, 0, s, input) == Ok(Route([st], st.sqrtTo))
  {
    hide SwapStep;
    assert [st] + [] == [st];
  }

  lemma BuyTrace(pool: Pool)
    requires OneBucket(pool, 2 * SCALE)
    ensures TraceSwap(pool, 1_000_000, 0)
         == Ok(TraceOutput(SCALE, [BUY_DELTA], pool.reserveA + 997_000, pool.reserveB - 1_994_000))
  {
    hide TraceSwap, RouteSwap;
    var st := Step(0, DEPTH, 2 * SCALE, SCALE, 997_000, 1_994_000, false);
    BuyStep(pool, st);
    OneStepTrace(pool, 1_000_000, 0, st, SCALE);
  }

  lemma SellTrace(pool: Pool)
    requires OneBucket(pool, SCALE)
    ensures TraceSwap(pool, 0, 2_000_000)
         == Ok(TraceOutput(2 * SCALE, [SELL_DELTA], pool.reserveA - 997_000, pool.reserveB + 1_994_000))
  {
    hide TraceSwap, RouteSwap;
    var st := Step(0, DEPTH, SCALE, 2 * SCALE, 1_994_000, 997_000, false);
    SellStep(pool, st);
    OneStepTrace(pool, 0, 2_000_000, st, 2 * SCALE);
  }

  lemma OneStepTrace(pool: Pool, netA: nat, netB: nat, st: Step, sqrtEnd: nat)
    requires (netA > 0 && netB == 0) || (netA == 0 && netB > 0)
    requires RouteSwap(pool, netB > 0, netA + netB) == Ok(Route([st], sqrtEnd))
    ensures
      var d := DeltaOf(netB > 0, st, netA + netB - AfterFee(netA + netB));
      TraceSwap(pool, netA, netB)
      == Ok(TraceOutput(sqrtEnd, [d], pool.reserveA + NetAddA(d), pool.reserveB + NetAddB(d)))
  {
    hide RouteSwap, DeltaOf, AfterFee, TraceSwap, Split;
    var up, total := netB > 0, AfterFee(netA + netB);
    var fee := netA + netB - total;
    var d := DeltaOf(up, st, fee);
    SoleSplit(fee, Inputs([st]), total);
    TraceSwapFrom(pool, netA, netB, [st], sqrtEnd, [fee]);
    assert SwapDeltas(up, [st], [fee]) == [d];
    SoleSum([d], NetAddA);
    SoleSum([d], NetAddB);
  }

  // ----------------------------------------------------------------- the clearings

  lemma Priced(pool: Pool, s: nat)
    requires OneBucket(pool, s)
    ensures Band(pool.buckets).Some?
  {
    assert pool.buckets[..0] == [];
  }

  /** A sole order is priced in one pass when it accepts its own realized price. */
  lemma SoleOrderPrice(pool: Pool, s: nat, o: Order, p: nat)
    requires OneBucket(pool, s) && LimitOk(o, o.side, p)
    requires RealizedPrice(pool, o.side, o.amountIn) == Ok(Some(p))
    ensures FindPrice(pool, [o]) == Ok(Found(p, FixedPointReached))
  {
    hide RealizedPrice, TotalIn, Band, OnlySide;
    Priced(pool, s);
    SoleSide(o);
    OwnPriceFound(pool, [o], o.side, p);
  }

  lemma BuyPrice(pool: Pool)
    requires OneBucket(pool, 2 * SCALE)
    ensures RealizedPrice(pool, false, 1_000_000) == Ok(Some(HALF))
    ensures RouteNet(pool, 1_000_000, HALF) == Ok(NetSwap(pool.reserveA + 997_000, pool.reserveB - 1_994_000,
      Ratio(1_000_000, 1_994_000), 1_000_000, 0, 0, 1_994_000, false,
      Some(TraceOutput(SCALE, [BUY_DELTA], pool.reserveA + 997_000, pool.reserveB - 1_994_000))))
  {
    hide TraceSwap;
    BuyTrace(pool);
    SoleSum([BUY_DELTA], BSub);
  }

  lemma SellPrice(pool: Pool)
    requires OneBucket(pool, SCALE)
    ensures RealizedPrice(pool, true, 2_000_000) == Ok(Some(HALF))
    ensures RouteNet(pool, -1_000_000, HALF) == Ok(NetSwap(pool.reserveA - 997_000, pool.reserveB + 1_994_000,
      Ratio(997_000, 2_000_000), 0, 997_000, 2_000_000, 0, false,
      Some(TraceOutput(2 * SCALE, [SELL_DELTA], pool.reserveA - 997_000, pool.reserveB + 1_994_000))))
  {
    hide TraceSwap;
    SellTrace(pool);
    SoleSum([SELL_DELTA], ASub);
  }

  lemma BuyClears(pool: Pool)
    requires OneBucket(pool, 2 * SCALE)
    ensures Clear(pool, [BUY]) == Ok(Cleared(HALF, [Fill(1, 1_000_000, 1_994_000)], pool.reserveA + 997_000,
      pool.reserveB - 1_994_000,
      Some(TraceOutput(SCALE, [BUY_DELTA], pool.reserveA + 997_000, pool.reserveB - 1_994_000))))
    ensures SettledEval(pool, [BUY]).netA == 1_000_000 && SettledEval(pool, [BUY]).swap.ammAIn == 1_000_000
    ensures SettledEval(pool, [BUY]).eligibleBuys == [BUY] && BuyBook([BUY])
  {
    hide RouteNet, RealizedPrice, FindPrice, SelectBatch, Buys, Sells, TotalIn, SideFills;
    BuyPrice(pool);
    SoleOrderPrice(pool, 2 * SCALE, BUY, HALF);
    SoleSide(BUY);
    OneOrder(BUY, HALF);
    assert NetA([BUY], HALF) == 1_000_000;
    SoleFill(BUY, 1_994_000);
    NoFill(0);
    assert [Fill(1, 1_000_000, 1_994_000)] + [] == [Fill(1, 1_000_000, 1_994_000)];
  }

  lemma SellClears(pool: Pool)
    requires OneBucket(pool, SCALE)
    ensures Clear(pool, [SELL]) == Ok(Cleared(HALF, [Fill(2, 2_000_000, 997_000)], pool.reserveA - 997_000,
      pool.reserveB + 1_994_000,
      Some(TraceOutput(2 * SCALE, [SELL_DELTA], pool.reserveA - 997_000, pool.reserveB + 1_994_000))))
    ensures SettledEval(pool, [SELL]).netA == -1_000_000 && SettledEval(pool, [SELL]).swap.ammBIn == 2_000_000
  {
    hide RouteNet, RealizedPrice, FindPrice, SelectBatch, Buys, Sells, TotalIn, SideFills;
    SellPrice(pool);
    SoleOrderPrice(pool, SCALE, SELL, HALF);
    SoleSide(SELL);
    OneOrder(SELL, HALF);
    assert NetA([SELL], HALF) == -1_000_000;
    SoleFill(SELL, 997_000);
    NoFill(0);
    assert [] + [Fill(2, 2_000_000, 997_000)] == [Fill(2, 2_000_000, 997_000)];
  }

  /**
   A buyer filled below its limit: it pays 1000000 token A with a limit of 0.5 token A per
   token B, worth 2000000 token B, clears at exactly 0.5, and receives 1994000.
   */
  lemma BuyerBelowLimit(pool: Pool)
    requires OneBucket(pool, 2 * SCALE)
    ensures
      var c := Clear(pool, [BUY]);
      && c.Ok? && c.value.Cleared? && c.value.price == BUY.limitPrice
      && c.value.fills == [Fill(BUY.orderNonce, BUY.amountIn, 1_994_000)]
      && 1_994_000 < BUY.amountIn * SCALE / BUY.limitPrice && BUY.amountIn >= MIN_FILL_AMOUNT_IN
  {
    hide Clear;
    BuyClears(pool);
  }

  /** A seller filled below its limit: its 2000000 token B are worth 1000000 token A at 0.5; it receives 997000. */
  lemma SellerBelowLimit(pool: Pool)
    requires OneBucket(pool, SCALE)
    ensures
      var c := Clear(pool, [SELL]);
      && c.Ok? && c.value.Cleared? && c.value.price == SELL.limitPrice
      && c.value.fills == [Fill(SELL.orderNonce, SELL.amountIn, 997_000)]
      && 997_000 < SELL.amountIn * SELL.limitPrice / SCALE && SELL.amountIn >= MIN_FILL_AMOUNT_IN
  {
    hide Clear;
    SellClears(pool);
  }

  // ------------------------------------------------------------------- the probes

  const DEEP_SELL: Order := Order(true, 2_000_002, HALF, 0, 3, 3)

  const LOW_BUY: Order := Order(false, 100_000, 1, 0, 4, 4)

  /** The bucket takes a gross input of 2000001 token B, and not one of 2000002. */
  lemma CapacityEdge(pool: Pool)
    requires OneBucket(pool, SCALE)
    ensures TraceSwap(pool, 0, 2_000_001).Ok? && TraceSwap(pool, 0, 2_000_002) == Err(ExceededBuckets)
  {
    BucketBounds(pool, SCALE);
    var st := Step(0, DEPTH, SCALE, 2 * SCALE, 1_994_000, 997_000, false);
    assert SwapStep(true, 0, pool.buckets[0], SCALE, 1_994_000) == Ok(st);
    SoleWalk(pool.buckets, true, SCALE, 1_994_000, st);
    assert RouteSwap(pool, true, 2_000_001) == Ok(Route([st], 2 * SCALE));
    OneStepTrace(pool, 0, 2_000_001, st, 2 * SCALE);
    OverfullWalk(pool.buckets, st.(full := true));
    assert RouteSwap(pool, true, 2_000_002) == Err(ExceededBuckets);
  }

  lemma OverfullWalk(bs: seq<Bucket>, st: Step)
    requires |bs| == 1 && bs[0].bounds == Bounds(SCALE, 2 * SCALE) && bs[0].state.liquidity == DEPTH
    requires st == Step(0, DEPTH, SCALE, 2 * SCALE, 1_994_000, 997_000, true)
    ensures Walk(bs, true, 0, SCALE, 1_994_001) == Err(ExceededBuckets)
  {
    assert SwapStep(true, 0, bs[0], SCALE, 1_994_001) == Ok(st);
    assert Walk(bs, true, 1, 2 * SCALE, 1) == Err(ExceededBuckets);
  }

  lemma DeepBatch(p: nat)
    requires p >= HALF
    ensures Buys([DEEP_SELL, LOW_BUY], p) == [] && Sells([DEEP_SELL, LOW_BUY], p) == [DEEP_SELL]
    ensures TotalIn([DEEP_SELL]) == 2_000_002 && TotalIn([]) == 0
  {
    SoleSide(DEEP_SELL);
    OneOrder(DEEP_SELL, p);
    assert [DEEP_SELL, LOW_BUY][..1] == [DEEP_SELL];
  }

  /**
   A price that is too high while a higher one is not: flooring the resized input takes
   one unit off it, and the bucket takes the rest.
   */
  lemma TooHighCanReopen(pool: Pool)
    requires OneBucket(pool, SCALE)
    ensures
      var batch := [DEEP_SELL, LOW_BUY];
      && ProbeAt(pool, batch, SCALE) == Ok(TooHigh)
      && ProbeAt(pool, batch, SCALE + 1).Ok? && ProbeAt(pool, batch, SCALE + 1).value.Residual?
      && DEEP_SELL.amountIn >= MIN_FILL_AMOUNT_IN && LOW_BUY.amountIn >= MIN_FILL_AMOUNT_IN
  {
    hide TraceSwap, Buys, Sells, TotalIn;
    CapacityEdge(pool);
    DeepBatch(SCALE);
    DeepBatch(SCALE + 1);
    assert NetA([DEEP_SELL, LOW_BUY], SCALE) == -2_000_002;
    assert NetA([DEEP_SELL, LOW_BUY], SCALE + 1) == -2_000_002;
  }

  // ---------------------------------------------------------------------- the run

  lemma OneDelta(bs: seq<Bucket>, d: Delta)
    requires |bs| == 1 && d.id == 0
    ensures AllBelow([d], |bs|)
    ensures ApplyStates(bs, [d], StatesAfter(bs, [d])) == [Bucket(bs[0].bounds, StateAfter(bs[0].state, d))]
  {
    assert [d][..0] == [];
    assert StatesAfter(bs, [d]) == [StateAfter(bs[0].state, d)];
  }

  lemma BuyEpoch(pool: Pool)
    requires OneBucket(pool, 2 * SCALE)
    ensures OneBucket(Epoch(pool, [BUY]), SCALE)
    ensures Growth(pool, [BUY], 0, false) == 3_000 * SCALE / DEPTH
  {
    hide Clear, Epoch, StatesAfter, ApplyStates, TraceSwap;
    BuyClears(pool);
    BuyTrace(pool);
    EpochIsSwap(pool, [BUY]);
    OneDelta(pool.buckets, BUY_DELTA);
  }

  lemma SellEpoch(pool: Pool)
    requires OneBucket(pool, SCALE)
    ensures OneBucket(Epoch(pool, [SELL]), 2 * SCALE)
    ensures Growth(pool, [SELL], 0, false) == 0
  {
    hide Clear, Epoch, StatesAfter, ApplyStates, TraceSwap;
    SellClears(pool);
    SellTrace(pool);
    EpochIsSwap(pool, [SELL]);
    OneDelta(pool.buckets, SELL_DELTA);
  }

  /**
   Three clearings, a buy, a sell and the buy again, after which the sole provider of
   the bucket's liquidity may claim one token A more than the clearings forwarded.
   */
  lemma RunFallsShort(pool: Pool)
    requires OneBucket(pool, 2 * SCALE)
    ensures
      var epochs := [[BUY], [SELL], [BUY]];
      var growths := Growths(pool, epochs, 0, false);
      && Pot(growths, DEPTH) == 5_998 && Claimed(TotalGrowth(growths), [DEPTH]) == 5_999 && !Solvent(growths, DEPTH)
      && BUY.amountIn >= MIN_FILL_AMOUNT_IN && SELL.amountIn >= MIN_FILL_AMOUNT_IN
  {
    hide Epoch, Growth;
    var one, two := Epoch(pool, [BUY]), Epoch(Epoch(pool, [BUY]), [SELL]);
    BuyEpoch(pool);
    SellEpoch(one);
    BuyEpoch(two);
    ThreeEpochs(pool, [BUY], [SELL], [BUY]);
    var inc: nat := 3_000 * SCALE / DEPTH;
    ThreeIncrements(inc);
  }

  lemma ThreeEpochs(pool: Pool, a: seq<Order>, b: seq<Order>, c: seq<Order>)
    requires |pool.buckets| == 1 && |Epoch(pool, a).buckets| == 1 && |Epoch(Epoch(pool, a), b).buckets| == 1
    ensures Growths(pool, [a, b, c], 0, false)
         == [Growth(pool, a, 0, false), Growth(Epoch(pool, a), b, 0, false),
             Growth(Epoch(Epoch(pool, a), b), c, 0, false)]
  {
    hide Epoch, Growth;
    NextEpoch(pool, [], a);
    NextEpoch(pool, [a], b);
    NextEpoch(pool, [a, b], c);
    assert [] + [a] == [a] && [a] + [b] == [a, b] && [a, b] + [c] == [a, b, c];
  }

  lemma NextEpoch(pool: Pool, init: seq<seq<Order>>, orders: seq<Order>)
    requires |pool.buckets| == 1 && |Run(pool, init).buckets| == 1
    ensures Run(pool, init + [orders]) == Epoch(Run(pool, init), orders)
    ensures Growths(pool, init + [orders], 0, false)
         == Growths(pool, init, 0, false) + [Growth(Run(pool, init), orders, 0, false)]
  {
    hide Epoch, Growth;
    assert (init + [orders])[..|init|] == init;
  }

  lemma SumTriple(x: nat, y: nat, z: nat, f: nat -> int)
    ensures SumOver([x, y, z], f) == f(x) + f(y) + f(z)
  {
    assert [x, y, z][..2] == [x, y] && [x, y][..1] == [x];
    SoleSum([x], f);
  }

  lemma ThreeIncrements(inc: nat)
    requires inc == 3_000 * SCALE / DEPTH
    ensures Pot([inc, 0, inc], DEPTH) == 5_998 && Claimed(TotalGrowth([inc, 0, inc]), [DEPTH]) == 5_999
    ensures !Solvent([inc, 0, inc], DEPTH)
  {
    var incs: seq<nat> := [inc, 0, inc];
    SumTriple(inc, 0, inc, Value);
    var credit := (i: nat) => Recovered(i, DEPTH);
    SumTriple(inc, 0, inc, credit);
    SumCong(incs, credit, i => Recovered(i, DEPTH));
    SoleClaim(TotalGrowth(incs), DEPTH);
    AccumulatedGrowth(incs, DEPTH);
    SolventIff(incs, DEPTH);
  }
}
