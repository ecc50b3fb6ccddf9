/**
 What a maker of a one-sided book can know before the clearing: a floor on its payout
 from its own order, and, for a sole order or a book that accepts its own price, the
 exact condition under which it gets its limit.
 */
module OneSidedLimits {
  import opened Arithmetic
  import opened FixedPoint
  import opened Sequences
  import opened Apportion
  import opened Swap
  import opened SwapTheory
  import opened Price
  import opened PriceTheory
  import opened Clearing
  import opened Conservation
  import opened Guarantees
  import opened OneSidedBook

  // ---------------------------------------------------------- floors, order by order

  lemma AfterFeeFloor(x: nat)
    ensures AfterFee(x) * 10_000 >= 9_970 * x - 9_999
  {}

  /** What fairness leaves of a total, before dividing. */
  lemma FairShare(total: nat, sum: nat, amount: nat, out: int)
    requires sum > 0 && out >= total * amount / sum
    ensures (out + 1) * sum > total * amount
  {
    FloorBounds(total * amount, sum);
    MulMono(total * amount / sum, out, sum);
    assert (out + 1) * sum == out * sum + sum;
  }

  /**
   A promise on a buyer's own order: whatever else is in the book, a filled buyer gets
   what its input less the fee is worth at its limit, up to one unit of output, of price
   and of fee.
   */
  lemma BuyerFloor(pool: Pool, orders: seq<Order>, i: nat)
    requires Clear(pool, orders).Ok? && Clear(pool, orders).value.Cleared? && BuyBook(orders)
    requires i < |SettledEval(pool, orders).eligibleBuys|
    requires SettledEval(pool, orders).eligibleBuys[i].amountIn > 0
    ensures
      var c, o := Clear(pool, orders).value, SettledEval(pool, orders).eligibleBuys[i];
      && i < |c.fills| && c.fills[i].orderNonce == o.orderNonce
      && (c.fills[i].amountOut + 1) * (o.limitPrice + 1) * 10_000 > SCALE * (9_970 * o.amountIn - 9_999)
  {
    hide RouteNet, TotalIn, SideFills, Clear, SelectBatch, YTotal, Buys, Sells, FindPrice, BuyQuote, AfterFee,
         SettledEval;
    var c, ev := Clear(pool, orders).value, SettledEval(pool, orders);
    var o, sum := ev.eligibleBuys[i], TotalIn(ev.eligibleBuys);
    BuyBookFills(pool, orders);
    SideIsExact(ev.eligibleBuys, YTotal(ev));
    BuyBookPrice(pool, orders);
    FedSide(sum);
    BuyerLimit(pool, orders, i);
    SideIsFair(ev.eligibleBuys, YTotal(ev), i);
    PartOfSide(ev.eligibleBuys, i);
    FairShare(YTotal(ev), sum, o.amountIn, c.fills[i].amountOut);
    AfterFeeFloor(sum);
    BuyerRate(SCALE, YTotal(ev), sum, o.amountIn, AfterFee(sum), c.price, o.limitPrice, c.fills[i].amountOut);
  }

  lemma BuyBookFills(pool: Pool, orders: seq<Order>)
    requires Clear(pool, orders).Ok? && Clear(pool, orders).value.Cleared? && BuyBook(orders)
    ensures
      var c, ev := Clear(pool, orders).value, SettledEval(pool, orders);
      SideFills(ev.eligibleBuys, YTotal(ev)) == Ok(c.fills)
  {
    hide RouteNet, Clear, SelectBatch, YTotal, Buys, Sells, FindPrice, BuyQuote, AfterFee, TotalIn, SideFills;
    ClearedUnfolds(pool, orders);
    var c := Clear(pool, orders).value;
    SettlementPrice(SettledEval(pool, orders), c.price);
    BuyBookPrice(pool, orders);
    assert c.fills[..|c.fills|] == c.fills;
  }

  lemma BuyerLimit(pool: Pool, orders: seq<Order>, i: nat)
    requires Clear(pool, orders).Ok? && Clear(pool, orders).value.Cleared?
    requires i < |SettledEval(pool, orders).eligibleBuys|
    ensures Clear(pool, orders).value.price <= SettledEval(pool, orders).eligibleBuys[i].limitPrice
  {
    hide RouteNet, Clear, SelectBatch, Buys;
    ClearedUnfolds(pool, orders);
    BuyLimits(SelectBatch(orders), Clear(pool, orders).value.price, i);
  }

  lemma BuyerRate(S: nat, total: nat, sum: nat, amount: nat, fed: nat, p: nat, l: nat, out: int)
    requires S > 0 && p <= l && 0 < amount <= sum && (out + 1) * sum > total * amount
    requires fed * S < (p + 1) * total && fed * 10_000 >= 9_970 * sum - 9_999
    ensures (out + 1) * (l + 1) * 10_000 > S * (9_970 * amount - 9_999)
  {
    if out + 1 < 0 {
      MulMono(out + 1, 0, sum);
    }
    var x := (out + 1) * (p + 1);
    MulStrict(total * amount, (out + 1) * sum, p + 1);
    Regroup(out + 1, sum, p + 1);
    Regroup(total, amount, p + 1);
    MulMono(fed * S, (p + 1) * total, amount);
    assert (total * (p + 1)) * amount == ((p + 1) * total) * amount;
    assert x * sum > (fed * S) * amount;
    FedRate(x * sum, S, sum, amount, fed);
    Rate(x, S, sum, amount);
    MulMono(p + 1, l + 1, out + 1);
    assert (p + 1) * (out + 1) == x && (l + 1) * (out + 1) == (out + 1) * (l + 1);
  }

  lemma FedRate(y: int, S: nat, sum: nat, amount: nat, fed: nat)
    requires y > (fed * S) * amount && fed * 10_000 >= 9_970 * sum - 9_999
    ensures y * 10_000 > (S * amount) * (9_970 * sum - 9_999)
  {
    MulMono(9_970 * sum - 9_999, fed * 10_000, S * amount);
    assert (fed * 10_000) * (S * amount) == ((fed * S) * amount) * 10_000;
    assert (9_970 * sum - 9_999) * (S * amount) == (S * amount) * (9_970 * sum - 9_999);
  }

  lemma Rate(x: int, S: nat, sum: nat, amount: nat)
    requires 0 < amount <= sum && (x * sum) * 10_000 > (S * amount) * (9_970 * sum - 9_999)
    ensures x * 10_000 > S * (9_970 * amount - 9_999)
  {
    MulMono(amount, sum, S * 9_999);
    var need := S * (9_970 * amount - 9_999);
    assert need * sum == (S * amount) * (9_970 * sum) - (S * 9_999) * sum;
    assert (S * amount) * (9_970 * sum - 9_999) == (S * amount) * (9_970 * sum) - (S * 9_999) * amount;
    assert (x * 10_000) * sum == (x * sum) * 10_000;
    if x * 10_000 <= need {
      MulMono(x * 10_000, need, sum);
    }
  }

  // ------------------------------------------------------- sellers: the re-sized input

  /** The deepest bucket's liquidity. */
  function Deepest(bs: seq<Bucket>): (r: nat)
    ensures forall b :: b in bs ==> b.state.liquidity <= r
  {
    if |bs| == 0 then 0
    else
      var rest, last := Deepest(bs[..|bs| - 1]), bs[|bs| - 1].state.liquidity;
      assert forall b :: b in bs ==> b in bs[..|bs| - 1] || b == bs[|bs| - 1];
      if last > rest then last else rest
  }

  /** The whole raw units of the pool's price: at least one for a priced pool. */
  function UnitPrice(pool: Pool): (r: nat)
  {
    FloorNonNeg(pool.currentSqrtPrice * pool.currentSqrtPrice, SCALE);
    pool.currentSqrtPrice * pool.currentSqrtPrice / SCALE
  }

  /** A quote is what the walk pays out. */
  lemma QuoteIsOutput(pool: Pool, input: nat)
    requires DirectedTrace(pool, true, input).Ok?
    ensures RouteSwap(pool, true, input).Ok? && |RouteSwap(pool, true, input).value.steps| <= MAX_BUCKET_HOPS
    ensures SellQuote(pool, input) == SumOver(RouteSwap(pool, true, input).value.steps, AmountOut)
  {
    hide Walk, Split, AfterFee, StartBucket, SwapDeltas;
    if input == 0 {
      assert AfterFee(0) == 0 by { WithheldZero(); }
      NoInputNoQuote(pool);
      assert RouteSwap(pool, true, 0) == Ok(Route([], pool.currentSqrtPrice));
    } else {
      RouteNeedsInput(pool, true, input);
      var steps := RouteSwap(pool, true, input).value.steps;
      FlowSums(true, steps, StepFees(steps, input));
    }
  }

  lemma AfterFeeSpread(x: nat, y: nat)
    requires y <= x
    ensures 0 <= AfterFee(x) - AfterFee(y) <= x - y
  {}

  /**
   Two sell quotes of one pool: the larger input is quoted more by at most the extra
   input, and a unit per bucket, at the pool's price, one unit of price resolution of the
   deepest bucket and one of output. (The smaller input can be quoted more.)
   */
  lemma QuoteGap(pool: Pool, big: nat, small: nat)
    requires small <= big && DirectedTrace(pool, true, big).Ok? && DirectedTrace(pool, true, small).Ok?
    ensures (SellQuote(pool, big) - SellQuote(pool, small)) * UnitPrice(pool)
         <= (big - small + MAX_BUCKET_HOPS) * SCALE + Deepest(pool.buckets) + UnitPrice(pool)
  {
    hide SellQuote, AfterFee, Walk, StartBucket, DirectedTrace;
    QuoteIsOutput(pool, big);
    QuoteIsOutput(pool, small);
    AfterFeeSpread(big, small);
    FloorBounds(pool.currentSqrtPrice * pool.currentSqrtPrice, SCALE);
    UpOutputGap(pool.buckets, StartBucket(pool), pool.currentSqrtPrice, AfterFee(big), AfterFee(small),
                UnitPrice(pool), Deepest(pool.buckets));
    var n := |RouteSwap(pool, true, big).value.steps|;
    MulMono(AfterFee(big) - AfterFee(small) + n, big - small + MAX_BUCKET_HOPS, SCALE);
  }

  /** The most a quote can drop when its input is re-sized through price p. */
  function ResizeGap(pool: Pool, p: nat): nat
    requires p > 0 && PricedPool(pool)
  {
    PricedUnit(pool);
    FloorNonNeg(SCALE, p);
    FloorNonNeg((SCALE / p + 5) * SCALE + Deepest(pool.buckets), UnitPrice(pool));
    ((SCALE / p + 5) * SCALE + Deepest(pool.buckets)) / UnitPrice(pool) + 1
  }

  lemma PricedUnit(pool: Pool)
    requires PricedPool(pool)
    ensures UnitPrice(pool) > 0
  {
    FloorAtLeast(pool.currentSqrtPrice * pool.currentSqrtPrice, SCALE, 1);
  }

  lemma GapFits(quote: int, x: int, D: nat, bound: nat)
    requires D > 0 && (quote - x) * D <= bound + D
    ensures quote - x <= bound / D + 1
  {
    assert (quote - x - 1) * D == (quote - x) * D - D;
    FloorAtLeast(bound, D, quote - x - 1);
  }

  lemma ShortBy(sum: nat, swapped: nat, p: nat, S: nat)
    requires p > 0 && swapped <= sum && sum * p < swapped * p + p + S
    ensures sum - swapped <= S / p + 1
  {
    assert (sum - swapped) * p == sum * p - swapped * p;
    assert (sum - swapped - 1) * p == (sum - swapped) * p - p;
    FloorAtLeast(S, p, sum - swapped - 1);
  }

  /**
   What the sellers of a sell book receive together, on every clearing: what the price
   says of their input less the fee, short by at most the re-sizing gap.
   */
  lemma SellBookTotal(pool: Pool, orders: seq<Order>)
    requires Clear(pool, orders).Ok? && Clear(pool, orders).value.Cleared? && SellBook(orders)
    requires PricedPool(pool) && Clear(pool, orders).value.price > 0
    ensures
      var p, ev := Clear(pool, orders).value.price, SettledEval(pool, orders);
      var sum := TotalIn(ev.eligibleSells);
      && SellQuote(pool, sum) - XTotal(ev) <= ResizeGap(pool, p)
      && p * AfterFee(sum) <= (XTotal(ev) + ResizeGap(pool, p)) * SCALE
  {
    hide RouteNet, TotalIn, SettleAt, Clear, SelectBatch, XTotal, Buys, Sells, FindPrice, SellQuote, AfterFee,
         DirectedTrace, Deepest, UnitPrice;
    var p, ev := Clear(pool, orders).value.price, SettledEval(pool, orders);
    var sum, swapped := TotalIn(ev.eligibleSells), ev.swap.ammBIn;
    SellBookPrice(pool, orders);
    BothQuoted(pool, orders);
    QuoteGap(pool, sum, swapped);
    PricedUnit(pool);
    FloorNonNeg(SCALE, p);
    ShortBy(sum, swapped, p, SCALE);
    MulMono(sum - swapped + MAX_BUCKET_HOPS, SCALE / p + 5, SCALE);
    GapFits(SellQuote(pool, sum), XTotal(ev), UnitPrice(pool), (SCALE / p + 5) * SCALE + Deepest(pool.buckets));
    MulMono(SellQuote(pool, sum), XTotal(ev) + ResizeGap(pool, p), SCALE);
  }

  /** Both the priced and the re-sized input of a cleared sell book go through. */
  lemma BothQuoted(pool: Pool, orders: seq<Order>)
    requires Clear(pool, orders).Ok? && Clear(pool, orders).value.Cleared? && SellBook(orders)
    ensures
      var ev := SettledEval(pool, orders);
      && DirectedTrace(pool, true, TotalIn(ev.eligibleSells)).Ok? && DirectedTrace(pool, true, ev.swap.ammBIn).Ok?
  {
    hide RouteNet, TotalIn, SettleAt, Clear, SelectBatch, XTotal, Buys, Sells, FindPrice, AfterFee, DirectedTrace,
         RealizedPrice;
    ClearedUnfolds(pool, orders);
    var p, batch, ev := Clear(pool, orders).value.price, SelectBatch(orders), SettledEval(pool, orders);
    var sum := TotalIn(Sells(batch, p));
    SettlementPrice(ev, p);
    OneSidedPrice(pool, batch, true, p);
    SellRerun(pool, batch, p);
    EvalIsSwap(pool, NetA(batch, p), p);
    QuotedInput(pool, sum);
    NoBuysNoSurplus(batch, p);
  }

  lemma QuotedInput(pool: Pool, sum: nat)
    requires SellQuote(pool, sum) > 0
    ensures DirectedTrace(pool, true, sum).Ok?
  {
    hide DirectedTrace;
  }

  /**
   A promise on a seller's own order, from its amount, its limit and the pool: what its
   input less the fee is worth at its limit, up to one unit, one of fee, and the gap.
   */
  lemma SellerFloor(pool: Pool, orders: seq<Order>, i: nat)
    requires Clear(pool, orders).Ok? && Clear(pool, orders).value.Cleared? && SellBook(orders) && PricedPool(pool)
    requires i < |SettledEval(pool, orders).eligibleSells|
    requires SettledEval(pool, orders).eligibleSells[i].limitPrice > 0
    ensures
      var c, o := Clear(pool, orders).value, SettledEval(pool, orders).eligibleSells[i];
      && i < |c.fills| && c.fills[i].orderNonce == o.orderNonce
      && (c.fills[i].amountOut + 1 + ResizeGap(pool, o.limitPrice)) * SCALE * 10_000
         >= o.limitPrice * (9_970 * o.amountIn - 9_999)
  {
    hide RouteNet, TotalIn, SideFills, Clear, SelectBatch, XTotal, Buys, Sells, FindPrice, SellQuote, AfterFee,
         ResizeGap, SettledEval;
    var c, ev := Clear(pool, orders).value, SettledEval(pool, orders);
    var o, sum := ev.eligibleSells[i], TotalIn(ev.eligibleSells);
    SellBookFills(pool, orders);
    SideIsExact(ev.eligibleSells, XTotal(ev));
    SellBookPrice(pool, orders);
    FedSide(sum);
    SellerLimit(pool, orders, i);
    SellBookTotal(pool, orders);
    SideIsFair(ev.eligibleSells, XTotal(ev), i);
    PartOfSide(ev.eligibleSells, i);
    FairShare(XTotal(ev), sum, o.amountIn, c.fills[i].amountOut);
    AfterFeeFloor(sum);
    GapGrows(pool, o.limitPrice, c.price);
    SellerRate(SCALE, XTotal(ev), sum, o.amountIn, AfterFee(sum), c.price, o.limitPrice, c.fills[i].amountOut,
               ResizeGap(pool, c.price), ResizeGap(pool, o.limitPrice));
  }

  lemma SellerLimit(pool: Pool, orders: seq<Order>, i: nat)
    requires Clear(pool, orders).Ok? && Clear(pool, orders).value.Cleared?
    requires i < |SettledEval(pool, orders).eligibleSells|
    ensures SettledEval(pool, orders).eligibleSells[i].limitPrice <= Clear(pool, orders).value.price
  {
    hide RouteNet, Clear, SelectBatch, Sells;
    ClearedUnfolds(pool, orders);
    SellLimits(SelectBatch(orders), Clear(pool, orders).value.price, i);
  }

  /** A lower price re-sizes more coarsely. */
  lemma GapGrows(pool: Pool, l: nat, p: nat)
    requires 0 < l <= p && PricedPool(pool)
    ensures ResizeGap(pool, p) <= ResizeGap(pool, l)
  {
    hide Deepest, UnitPrice;
    PricedUnit(pool);
    PriceToLimitAt(SCALE, l, p);
    MulMono(SCALE / p + 5, SCALE / l + 5, SCALE);
    FloorMono((SCALE / p + 5) * SCALE + Deepest(pool.buckets), (SCALE / l + 5) * SCALE + Deepest(pool.buckets),
              UnitPrice(pool));
  }

  lemma SellerRate(S: nat, total: nat, sum: nat, amount: nat, fed: nat, p: nat, l: nat, out: int, gap: nat, wide: nat)
    requires 0 < sum && amount <= sum && l <= p && gap <= wide && (out + 1) * sum > total * amount
    requires p * fed <= (total + gap) * S && fed * 10_000 >= 9_970 * sum - 9_999
    ensures (out + 1 + wide) * S * 10_000 >= l * (9_970 * amount - 9_999)
  {
    var x := out + 1 + gap;
    SellerShare(total, sum, amount, out, gap);
    MulMono(p * fed, (total + gap) * S, amount);
    Regroup(total + gap, amount, S);
    Regroup(x, sum, S);
    MulMono((total + gap) * amount, x * sum, S);
    SellerNeed(x * S, p, sum, amount, fed);
    MulMono(x, out + 1 + wide, S);
    MulMono(0, x, S);
    LowerLimit(l, p, 9_970 * amount - 9_999, (out + 1 + wide) * S * 10_000);
  }

  lemma SellerShare(total: nat, sum: nat, amount: nat, out: int, gap: nat)
    requires amount <= sum && (out + 1) * sum > total * amount
    ensures out + 1 >= 0 && (out + 1 + gap) * sum >= (total + gap) * amount
  {
    if out + 1 < 0 {
      MulMono(out + 1, 0, sum);
    }
    MulMono(amount, sum, gap);
    assert (out + 1 + gap) * sum == (out + 1) * sum + gap * sum;
    assert (total + gap) * amount == total * amount + gap * amount;
  }

  lemma SellerNeed(y: int, p: nat, sum: nat, amount: nat, fed: nat)
    requires 0 < sum && amount <= sum && y * sum >= (p * fed) * amount && fed * 10_000 >= 9_970 * sum - 9_999
    ensures y * 10_000 >= p * (9_970 * amount - 9_999)
  {
    MulMono(9_970 * sum - 9_999, fed * 10_000, p * amount);
    MulMono(amount, sum, p * 9_999);
    var need := p * (9_970 * amount - 9_999);
    assert need * sum == (9_970 * sum) * (p * amount) - (p * 9_999) * sum;
    assert (9_970 * sum - 9_999) * (p * amount) == (9_970 * sum) * (p * amount) - (p * 9_999) * amount;
    assert (fed * 10_000) * (p * amount) == ((p * fed) * amount) * 10_000;
    assert (y * 10_000) * sum == (y * sum) * 10_000;
    MulCancel(need, y * 10_000, sum);
  }

  lemma LowerLimit(l: nat, p: nat, worth: int, have: int)
    requires l <= p && have >= p * worth && have >= 0
    ensures have >= l * worth
  {
    if worth >= 0 {
      MulMono(l, p, worth);
    } else {
      MulMono(worth, 0, l);
    }
  }

  // ------------------------------------------- a book whose limits accept its own price

  /** The side's whole input is priced at p and every limit accepts p: a condition on the inputs alone. */
  predicate AcceptsOwnPrice(pool: Pool, batch: seq<Order>, isSellBook: bool, p: nat) {
    && Band(pool.buckets).Some? && RealizedPrice(pool, isSellBook, TotalIn(batch)) == Ok(Some(p))
    && AllAccept(batch, isSellBook, p)
  }

  predicate AllAccept(batch: seq<Order>, isSellBook: bool, p: nat) {
    forall o :: o in batch ==> LimitOk(o, isSellBook, p)
  }

  predicate OnlySide(batch: seq<Order>, isSellBook: bool) {
    HasSide(batch, isSellBook) && !HasSide(batch, !isSellBook)
  }

  /** The sell input that is swapped once it has been converted at price p and back. */
  function ResizedSell(sumIn: nat, p: nat): nat {
    if p == 0 then 0 else ResizedInput(sumIn, p); (sumIn * p / SCALE) * SCALE / p
  }

  /** What a side that brings sumIn is paid at price p: a quote that needs no clearing. */
  function BookPays(pool: Pool, isSellBook: bool, sumIn: nat, p: nat): int {
    if isSellBook then SellQuote(pool, ResizedSell(sumIn, p)) else BuyQuote(pool, sumIn)
  }

  /** An order's input at its own limit. */
  function AtLimit(o: Order): int
    requires o.side || o.limitPrice > 0
  {
    if o.side then o.amountIn * o.limitPrice / SCALE else o.amountIn * SCALE / o.limitPrice
  }

  lemma WholeSide(batch: seq<Order>, isSellBook: bool, p: nat)
    requires OnlySide(batch, isSellBook) && AllAccept(batch, isSellBook, p)
    ensures Eligible(batch, isSellBook, p) == batch && Eligible(batch, !isSellBook, p) == []
  {
    NoSideNoOrders(batch, !isSellBook, p);
    FilterAll(batch, if isSellBook then (o: Order) => SellEligible(o, p) else (o: Order) => BuyEligible(o, p));
  }

  lemma WholeCandidates(batch: seq<Order>, isSellBook: bool, p: nat)
    requires OnlySide(batch, isSellBook) && AllAccept(batch, isSellBook, p)
    ensures
      var all := Candidates(batch, isSellBook);
      Satisfied(all, isSellBook, p) == all && |all| > 0 && TotalIn(all) == TotalIn(batch)
  {
    hide TotalIn, Sort, LimitOk;
    var side, le := (o: Order) => o.side == isSellBook, (a: Order, b: Order) => LimitOrder(isSellBook, a, b);
    FilterAll(batch, side);
    SortPermutes(batch, le);
    var all := Candidates(batch, isSellBook);
    SameTotal(all, batch);
    forall o | o in all
      ensures LimitOk(o, isSellBook, p)
    {
      assert o in multiset(batch);
    }
    FilterAll(all, o => LimitOk(o, isSellBook, p));
  }

  lemma OwnPriceFound(pool: Pool, batch: seq<Order>, isSellBook: bool, p: nat)
    requires OnlySide(batch, isSellBook) && AcceptsOwnPrice(pool, batch, isSellBook, p)
    ensures FindPrice(pool, batch) == Ok(Found(p, FixedPointReached))
  {
    hide RealizedPrice, Candidates, Satisfied, HasSide, TotalIn, Band, AllAccept;
    WholeCandidates(batch, isSellBook, p);
  }

  /** The settlement at that price pays the side the quote. */
  lemma OwnPriceEval(pool: Pool, batch: seq<Order>, isSellBook: bool, p: nat)
    requires OnlySide(batch, isSellBook) && AcceptsOwnPrice(pool, batch, isSellBook, p)
    requires isSellBook ==> PricedPool(pool)
    ensures
      var r := EvalAt(pool, batch, p);
      && r.Ok? && !r.value.swap.saturated && TotalIn(batch) > 0
      && r.value.eligibleBuys == (if isSellBook then [] else batch)
      && r.value.eligibleSells == (if isSellBook then batch else [])
      && (if isSellBook then XTotal(r.value) else YTotal(r.value)) == BookPays(pool, isSellBook, TotalIn(batch), p) >= 0
  {
    hide RealizedPrice, RouteNet, HasSide, Band, AllAccept, TotalIn, Buys, Sells, BuyQuote, SellQuote, XTotal, YTotal,
         NetA, AfterFee, PricedPool;
    WholeSide(batch, isSellBook, p);
    FedSide(TotalIn(batch));
    if isSellBook {
      SellRerunSettles(pool, batch, p);
      SellRerun(pool, batch, p);
      TotalsAreNonNegative(pool, batch, p);
    } else {
      BuyRerunSettles(pool, batch, p);
      BuyRerun(pool, batch, p);
    }
  }

  /** One side's settlement: the other side has no fills. */
  lemma OneSideSettles(ev: PriceEval, p: nat)
    requires !ev.swap.saturated && (ev.eligibleBuys == []) != (ev.eligibleSells == [])
    requires TotalIn(ev.eligibleBuys + ev.eligibleSells) > 0
    ensures
      var total := if ev.eligibleBuys == [] then XTotal(ev) else YTotal(ev);
      var fills := SideFills(ev.eligibleBuys + ev.eligibleSells, total);
      && fills.Ok?
      && SettleAt(ev, p) == Ok(Cleared(p, fills.value, ev.swap.newReserveA, ev.swap.newReserveB, ev.swap.trace))
  {
    hide TotalIn, XTotal, YTotal, Split, Amounts, FillsOf;
    if ev.eligibleBuys == [] {
      assert ev.eligibleBuys + ev.eligibleSells == ev.eligibleSells;
      var fills := SideFills(ev.eligibleSells, XTotal(ev)).value;
      NoFill(YTotal(ev));
      assert [] + fills == fills;
    } else {
      assert ev.eligibleBuys + ev.eligibleSells == ev.eligibleBuys;
      var fills := SideFills(ev.eligibleBuys, YTotal(ev)).value;
      NoFill(XTotal(ev));
      assert fills + [] == fills;
    }
  }

  /** Such a book clears whole at p, and its fills are the split of a quote for its whole input. */
  lemma WholeBookFills(pool: Pool, orders: seq<Order>, isSellBook: bool, p: nat)
    requires
      var batch := SelectBatch(orders);
      OnlySide(batch, isSellBook) && AcceptsOwnPrice(pool, batch, isSellBook, p)
    requires isSellBook ==> PricedPool(pool)
    ensures
      var batch, c := SelectBatch(orders), Clear(pool, orders);
      && c.Ok? && c.value.Cleared? && c.value.price == p
      && SideFills(batch, BookPays(pool, isSellBook, TotalIn(batch), p)) == Ok(c.value.fills)
      && BookPays(pool, isSellBook, TotalIn(batch), p) >= 0 && TotalIn(batch) > 0
  {
    hide SelectBatch, FindPrice, EvalAt, SettleAt, BookPays, TotalIn, AcceptsOwnPrice, SideFills, XTotal, YTotal,
         PricedPool;
    var batch := SelectBatch(orders);
    OwnPriceFound(pool, batch, isSellBook, p);
    OwnPriceEval(pool, batch, isSellBook, p);
    var ev := EvalAt(pool, batch, p).value;
    assert batch + [] == batch && [] + batch == batch;
    OneSideSettles(ev, p);
  }

  lemma {:induction false} FilterFull<T>(xs: seq<T>, q: T -> bool)
    requires |Filter(xs, q)| == |xs|
    ensures forall x :: x in xs ==> q(x)
  {
    if |xs| > 0 {
      FilterFull(xs[..|xs| - 1], q);
    }
  }

  /**
   Orders that a one-sided clearing leaves out change nothing: the ones it fills accept
   the price of their own input, and are paid the quote for it.
   */
  lemma FilledSetAccepts(pool: Pool, orders: seq<Order>, isSellBook: bool)
    requires OnlySide(SelectBatch(orders), isSellBook)
    requires Clear(pool, orders).Ok? && Clear(pool, orders).value.Cleared?
    ensures
      var c := Clear(pool, orders).value;
      var filled := Eligible(SelectBatch(orders), isSellBook, c.price);
      && OnlySide(filled, isSellBook) && AcceptsOwnPrice(pool, filled, isSellBook, c.price)
      && SideFills(filled, BookPays(pool, isSellBook, TotalIn(filled), c.price)) == Ok(c.fills)
  {
    hide SelectBatch, Clear, SettleAt, RealizedPrice, Band, TotalIn, HasSide, OneSided, RouteNet, SideFills, BuyQuote,
         SellQuote, Buys, Sells, XTotal, YTotal, Eligible, AfterFee, ResizedSell;
    ClearedUnfolds(pool, orders);
    var p, batch, ev := Clear(pool, orders).value.price, SelectBatch(orders), SettledEval(pool, orders);
    SettlementPrice(ev, p);
    OneSidedPrice(pool, batch, isSellBook, p);
    EligibleSide(batch, isSellBook, p);
    if isSellBook {
      SellBookFills(pool, orders);
      SellRerun(pool, batch, p);
      ResizedIs(TotalIn(Sells(batch, p)), p);
    } else {
      BuyBookFills(pool, orders);
      BuyRerun(pool, batch, p);
    }
  }

  lemma ResizedIs(sumIn: nat, p: nat)
    ensures ResizedSell(sumIn, p) == if p == 0 then 0 else (sumIn * p / SCALE) * SCALE / p
  {}

  lemma EligibleSide(batch: seq<Order>, isSellBook: bool, p: nat)
    ensures Eligible(batch, isSellBook, p) == if isSellBook then Sells(batch, p) else Buys(batch, p)
    ensures AllAccept(Eligible(batch, isSellBook, p), isSellBook, p)
    ensures |Eligible(batch, isSellBook, p)| > 0 ==> OnlySide(Eligible(batch, isSellBook, p), isSellBook)
    ensures |Eligible(batch, isSellBook, p)| == |batch| ==> Eligible(batch, isSellBook, p) == batch
  {
    var filled := Eligible(batch, isSellBook, p);
    if |filled| > 0 {
      assert filled[0].side == isSellBook;
    }
    if |filled| == |batch| {
      var ok := if isSellBook then (o: Order) => SellEligible(o, p) else (o: Order) => BuyEligible(o, p);
      FilterFull(batch, ok);
      FilterAll(batch, ok);
    }
  }

  /** A book that clears whole has accepted its own price. */
  lemma OwnPriceNeeded(pool: Pool, orders: seq<Order>, isSellBook: bool)
    requires OnlySide(SelectBatch(orders), isSellBook)
    requires Clear(pool, orders).Ok? && Clear(pool, orders).value.Cleared?
    requires |Clear(pool, orders).value.fills| == |SelectBatch(orders)|
    ensures AcceptsOwnPrice(pool, SelectBatch(orders), isSellBook, Clear(pool, orders).value.price)
  {
    hide SelectBatch, Clear, AcceptsOwnPrice, OnlySide, Eligible, BookPays, TotalIn, SideFills;
    var p, batch := Clear(pool, orders).value.price, SelectBatch(orders);
    FilledSetAccepts(pool, orders, isSellBook);
    var filled := Eligible(batch, isSellBook, p);
    SideIsExact(filled, BookPays(pool, isSellBook, TotalIn(filled), p));
    EligibleSide(batch, isSellBook, p);
  }

  /** A one-sided batch clears with a fill for every order exactly when its limits accept its own price. */
  lemma WholeBookClears(pool: Pool, orders: seq<Order>, isSellBook: bool, p: nat)
    requires OnlySide(SelectBatch(orders), isSellBook) && (isSellBook ==> PricedPool(pool))
    ensures
      var batch, c := SelectBatch(orders), Clear(pool, orders);
      && (c.Ok? && c.value.Cleared? && c.value.price == p && |c.value.fills| == |batch|
          <==> AcceptsOwnPrice(pool, batch, isSellBook, p))
  {
    hide SelectBatch, Clear, AcceptsOwnPrice, OnlySide, SideFills, PricedPool, TotalIn, BookPays;
    var batch, c := SelectBatch(orders), Clear(pool, orders);
    if AcceptsOwnPrice(pool, batch, isSellBook, p) {
      WholeBookFills(pool, orders, isSellBook, p);
      SideIsExact(batch, BookPays(pool, isSellBook, TotalIn(batch), p));
    } else if c.Ok? && c.value.Cleared? && c.value.price == p && |c.value.fills| == |batch| {
      OwnPriceNeeded(pool, orders, isSellBook);
    }
  }

  /** The total is worth the whole side's input at the order's limit. */
  predicate PaysLimit(o: Order, total: int, sum: int) {
    if o.side then total * SCALE >= sum * o.limitPrice else total * o.limitPrice >= sum * SCALE
  }

  lemma SideLimit(side: seq<Order>, total: nat, i: nat)
    requires SideFills(side, total).Ok? && i < |side| && TotalIn(side) > 0 && (side[i].side || side[i].limitPrice > 0)
    ensures SideFills(side, total).value[i].amountOut >= AtLimit(side[i])
      <==> Reaches(side, total, i, AtLimit(side[i]))
    ensures PaysLimit(side[i], total, TotalIn(side)) ==> Reaches(side, total, i, AtLimit(side[i]))
  {
    hide SideFills, TotalIn, Reaches;
    var o := side[i];
    if o.side {
      FloorNonNeg(o.amountIn * o.limitPrice, SCALE);
    } else {
      FloorNonNeg(o.amountIn * SCALE, o.limitPrice);
    }
    ShareReaches(side, total, i, AtLimit(o));
    if PaysLimit(o, total, TotalIn(side)) {
      if o.side {
        AtGrossPrice(total, TotalIn(side), o.amountIn, o.limitPrice, SCALE);
      } else {
        AtGrossPrice(total, TotalIn(side), o.amountIn, SCALE, o.limitPrice);
      }
    }
  }

  /**
   When an order that a one-sided book fills gets its limit: exactly when its part of the
   quote for the filled input reaches it. Limits the whole quote is worth always do.
   */
  lemma FilledLimit(pool: Pool, orders: seq<Order>, isSellBook: bool, i: nat)
    requires OnlySide(SelectBatch(orders), isSellBook)
    requires Clear(pool, orders).Ok? && Clear(pool, orders).value.Cleared?
    requires
      var filled := Eligible(SelectBatch(orders), isSellBook, Clear(pool, orders).value.price);
      i < |filled| && (filled[i].side || filled[i].limitPrice > 0)
    ensures
      var c := Clear(pool, orders).value;
      var filled := Eligible(SelectBatch(orders), isSellBook, c.price);
      var o, sum := filled[i], TotalIn(filled);
      var pays := BookPays(pool, isSellBook, sum, c.price);
      && sum > 0 && |c.fills| == |filled| && c.fills[i].orderNonce == o.orderNonce
      && (c.fills[i].amountOut >= AtLimit(o) <==> Reaches(filled, pays, i, AtLimit(o)))
      && (PaysLimit(o, pays, sum) ==> Reaches(filled, pays, i, AtLimit(o)))
  {
    hide SelectBatch, Clear, OnlySide, SideFills, TotalIn, BookPays, Reaches, Eligible, AtLimit, PaysLimit, AllAccept;
    var c := Clear(pool, orders).value;
    var filled := Eligible(SelectBatch(orders), isSellBook, c.price);
    FilledSetAccepts(pool, orders, isSellBook);
    var pays := BookPays(pool, isSellBook, TotalIn(filled), c.price);
    PaysNonNeg(pool, isSellBook, TotalIn(filled), c.price);
    SideIsExact(filled, pays);
    SideLimit(filled, pays, i);
  }

  /** A quote is never negative, and only a positive input has a price. */
  lemma PaysNonNeg(pool: Pool, isSellBook: bool, sumIn: nat, p: nat)
    requires RealizedPrice(pool, isSellBook, sumIn) == Ok(Some(p))
    ensures BookPays(pool, isSellBook, sumIn, p) >= 0 && sumIn > 0
  {
    hide TraceSwap, Ratio, AfterFee, RouteNet, SwapDeltas, ResizedSell;
    FedSide(sumIn);
    if isSellBook {
      SellQuoteNonNeg(pool, ResizedSell(sumIn, p));
    } else {
      BuyQuotePrice(pool, sumIn, p);
    }
  }

  lemma SellQuoteNonNeg(pool: Pool, sumIn: nat)
    ensures SellQuote(pool, sumIn) >= 0
  {
    hide DirectedTrace;
    if DirectedTrace(pool, true, sumIn).Ok? {
      SwapSides(pool, true, sumIn);
    }
  }

  /**
   The same from the inputs alone, for a book whose limits accept its own price: it
   clears whole, and an order gets its limit exactly when its part of the quote for the
   whole batch reaches it.
   */
  lemma WholeBookLimit(pool: Pool, orders: seq<Order>, isSellBook: bool, p: nat, i: nat)
    requires
      var batch := SelectBatch(orders);
      && OnlySide(batch, isSellBook) && AcceptsOwnPrice(pool, batch, isSellBook, p)
      && i < |batch| && (batch[i].side || batch[i].limitPrice > 0)
    requires isSellBook ==> PricedPool(pool)
    ensures
      var batch, c := SelectBatch(orders), Clear(pool, orders);
      && c.Ok? && c.value.Cleared? && c.value.price == p && |c.value.fills| == |batch| && TotalIn(batch) > 0
      && c.value.fills[i].orderNonce == batch[i].orderNonce && c.value.fills[i].filledIn == batch[i].amountIn
      && (c.value.fills[i].amountOut >= AtLimit(batch[i])
          <==> Reaches(batch, BookPays(pool, isSellBook, TotalIn(batch), p), i, AtLimit(batch[i])))
  {
    hide SelectBatch, Clear, AcceptsOwnPrice, OnlySide, SideFills, PricedPool, TotalIn, BookPays, Reaches, AtLimit;
    var batch := SelectBatch(orders);
    WholeBookFills(pool, orders, isSellBook, p);
    SideIsExact(batch, BookPays(pool, isSellBook, TotalIn(batch), p));
    SideLimit(batch, BookPays(pool, isSellBook, TotalIn(batch), p), i);
  }

  // ---------------------------------------------------------------- a sole order

  lemma SoleSide(o: Order)
    ensures SelectBatch([o]) == [o] && OnlySide([o], o.side) && TotalIn([o]) == o.amountIn
  {
    SortOne(o, Fifo);
    SoleSum([o], AmountInOf);
    assert [o][0].side == o.side;
  }

  /** A sole order clears exactly when it accepts its own price, and is then paid the whole quote. */
  lemma SoleOrder(pool: Pool, o: Order, p: nat)
    requires o.side ==> PricedPool(pool)
    ensures
      var c := Clear(pool, [o]);
      var fits := Band(pool.buckets).Some? && RealizedPrice(pool, o.side, o.amountIn) == Ok(Some(p))
                  && LimitOk(o, o.side, p);
      && (c.Ok? && c.value.Cleared? && c.value.price == p <==> fits)
      && (fits ==> c.value.fills == [Fill(o.orderNonce, o.amountIn, BookPays(pool, o.side, o.amountIn, p))])
  {
    hide SelectBatch, Clear, SideFills, PricedPool, TotalIn, BookPays, RealizedPrice, LimitOk, Band, OnlySide;
    SoleSide(o);
    var c := Clear(pool, [o]);
    if c.Ok? && c.value.Cleared? && c.value.price == p {
      SoleClears(pool, o);
    }
    if AcceptsOwnPrice(pool, [o], o.side, p) {
      WholeBookFills(pool, [o], o.side, p);
      SoleFill(o, BookPays(pool, o.side, o.amountIn, p));
    }
  }

  lemma SoleClears(pool: Pool, o: Order)
    requires Clear(pool, [o]).Ok? && Clear(pool, [o]).value.Cleared?
    ensures AcceptsOwnPrice(pool, [o], o.side, Clear(pool, [o]).value.price)
  {
    hide SelectBatch, Clear, SettleAt, TotalIn, AcceptsOwnPrice, RouteNet, OnlySide;
    SoleSide(o);
    ClearedUnfolds(pool, [o]);
    SettlementPrice(SettledEval(pool, [o]), Clear(pool, [o]).value.price);
    NoSideNoOrders([o], !o.side, Clear(pool, [o]).value.price) by {
      assert OnlySide([o], o.side);
    }
    OwnPriceNeeded(pool, [o], o.side);
  }

  lemma BuyQuotePrice(pool: Pool, sumIn: nat, p: nat)
    ensures
      var quote := BuyQuote(pool, sumIn);
      RealizedPrice(pool, false, sumIn) == Ok(Some(p))
      <==> quote > 0 && AfterFee(sumIn) > 0 && p == Ratio(AfterFee(sumIn), quote)
  {
    hide TraceSwap, Ratio, AfterFee;
    AfterFeePositive(sumIn);
    var swap := RouteNet(pool, sumIn, SCALE);
    if swap.Ok? && !swap.value.saturated {
      EvalIsSwap(pool, sumIn, SCALE);
    }
  }

  /**
   A sole buyer is filled below its limit on exactly these inputs: its limit lies at or
   above the price of its input after the fee, and below that of its whole input.
   */
  lemma SoleBuyerFallsShort(pool: Pool, o: Order)
    requires !o.side && o.limitPrice > 0
    ensures
      var c, quote := Clear(pool, [o]), BuyQuote(pool, o.amountIn);
      && c.Ok? && c.value.Cleared? && |c.value.fills| > 0 && c.value.fills[0].amountOut < AtLimit(o)
      <==>
      && Band(pool.buckets).Some? && quote > 0 && AfterFee(o.amountIn) > 0
      && AfterFee(o.amountIn) * SCALE < (o.limitPrice + 1) * quote && (quote + 1) * o.limitPrice <= o.amountIn * SCALE
  {
    hide Clear, Band, RealizedPrice, BuyQuote, AfterFee;
    var c, quote := Clear(pool, [o]), BuyQuote(pool, o.amountIn);
    var p := if quote > 0 && AfterFee(o.amountIn) > 0 then Ratio(AfterFee(o.amountIn), quote) else 0;
    BuyQuotePrice(pool, o.amountIn, p);
    if c.Ok? && c.value.Cleared? {
      BuyQuotePrice(pool, o.amountIn, c.value.price);
      SoleOrder(pool, o, c.value.price);
    }
    SoleOrder(pool, o, p);
    if quote > 0 {
      FloorAtLeast(AfterFee(o.amountIn) * SCALE, quote, o.limitPrice + 1);
      FloorAtLeast(o.amountIn * SCALE, o.limitPrice, quote + 1);
    }
  }

  lemma SellQuotePrice(pool: Pool, sumIn: nat, p: nat)
    ensures
      var quote := SellQuote(pool, sumIn);
      RealizedPrice(pool, true, sumIn) == Ok(Some(p))
      <==> quote > 0 && AfterFee(sumIn) > 0 && p == Ratio(quote, AfterFee(sumIn))
  {
    hide TraceSwap, Ratio, AfterFee;
    AfterFeePositive(sumIn);
    NoInputNoQuote(pool);
    var swap := RouteNet(pool, 0 - sumIn, SCALE);
    if sumIn > 0 {
      assert sumIn * SCALE / SCALE == sumIn;
      if swap.Ok? && !swap.value.saturated {
        EvalIsSwap(pool, 0 - sumIn, SCALE);
      }
    }
  }

  /** A sole seller likewise, on the quote for its input as the settlement re-sizes it. */
  lemma SoleSellerFallsShort(pool: Pool, o: Order)
    requires o.side && PricedPool(pool)
    ensures
      var c, quote := Clear(pool, [o]), SellQuote(pool, o.amountIn);
      && c.Ok? && c.value.Cleared? && |c.value.fills| > 0 && c.value.fills[0].amountOut < AtLimit(o)
      <==>
      && Band(pool.buckets).Some? && quote > 0 && AfterFee(o.amountIn) > 0
      && o.limitPrice * AfterFee(o.amountIn) <= quote * SCALE
      && SellQuote(pool, ResizedSell(o.amountIn, Ratio(quote, AfterFee(o.amountIn)))) < AtLimit(o)
  {
    hide Clear, Band, RealizedPrice, SellQuote, AfterFee, ResizedSell, AtLimit, PricedPool;
    var c, quote := Clear(pool, [o]), SellQuote(pool, o.amountIn);
    var p := if quote > 0 && AfterFee(o.amountIn) > 0 then Ratio(quote, AfterFee(o.amountIn)) else 0;
    SellQuotePrice(pool, o.amountIn, p);
    if c.Ok? && c.value.Cleared? {
      SellQuotePrice(pool, o.amountIn, c.value.price);
      SoleOrder(pool, o, c.value.price);
    }
    SoleOrder(pool, o, p);
    if AfterFee(o.amountIn) > 0 {
      FloorAtLeast(quote * SCALE, AfterFee(o.amountIn), o.limitPrice);
    }
  }
}
