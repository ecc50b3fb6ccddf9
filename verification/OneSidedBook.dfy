/**
 What a one-sided book's price is worth. It is sized on the input left after the
 fee, while the orders pay the whole input, so an order can be filled below its
 own limit; the lemmas say by how much.
 */
module OneSidedBook {
  import opened Arithmetic
  import opened FixedPoint
  import opened Sequences
  import opened Apportion
  import opened Swap
  import opened SwapTheory
  import opened Price
  import opened PriceTheory
  import opened Clearing
  import opened Conservation
  import opened Guarantees

  ghost predicate BuyBook(orders: seq<Order>) {
    HasSide(SelectBatch(orders), false) && !HasSide(SelectBatch(orders), true)
  }

  ghost predicate SellBook(orders: seq<Order>) {
    !HasSide(SelectBatch(orders), false) && HasSide(SelectBatch(orders), true)
  }

  /** Token B the buckets pay for a gross token A volume: a quote that needs no clearing. */
  function BuyQuote(pool: Pool, sumIn: nat): int {
    match RouteNet(pool, sumIn, SCALE)
    case Ok(n) => n.ammBOut
    case Err(_) => 0
  }

  /** Token A the buckets pay for a gross token B volume. */
  function SellQuote(pool: Pool, sumIn: nat): int {
    match DirectedTrace(pool, true, sumIn)
    case Ok(t) => SumOver(t.deltas, ASub)
    case Err(_) => 0
  }

  // ------------------------------------------------------------ the whole side

  lemma OneSidedPrice(pool: Pool, batch: seq<Order>, isSellBook: bool, p: nat)
    requires FindPrice(pool, batch).Ok? && FindPrice(pool, batch).value.Found?
    requires FindPrice(pool, batch).value.price == p
    requires HasSide(batch, isSellBook) && !HasSide(batch, !isSellBook)
    ensures RealizedPrice(pool, isSellBook, TotalIn(Eligible(batch, isSellBook, p))) == Ok(Some(p))
    ensures Eligible(batch, !isSellBook, p) == []
  {
    hide RealizedPrice, Eligible, TotalIn, OneSided, Band;
    OneSidedSearchIsFixedPoint(pool, batch, isSellBook);
    NoSideNoOrders(batch, !isSellBook, p);
  }

  /** A buy book's re-run pays exactly the quote its price was sized on. */
  lemma BuyRerun(pool: Pool, batch: seq<Order>, p: nat)
    requires EvalAt(pool, batch, p).Ok? && Sells(batch, p) == []
    requires RealizedPrice(pool, false, TotalIn(Buys(batch, p))) == Ok(Some(p))
    ensures
      var ev := EvalAt(pool, batch, p).value;
      var sum := TotalIn(ev.eligibleBuys);
      && ev.eligibleSells == [] && YTotal(ev) == BuyQuote(pool, sum) > 0
      && AfterFee(sum) > 0 && p == Ratio(AfterFee(sum), YTotal(ev))
  {
    hide TraceSwap, Ratio, Buys, Sells, TotalIn, AfterFee;
    EmptyTotal();
    var sum := TotalIn(Buys(batch, p));
    AfterFeePositive(sum);
    assert NetA(batch, p) == sum;
    assert RouteNet(pool, sum, SCALE).Ok? && RouteNet(pool, sum, p).Ok?;
    assert RouteNet(pool, sum, p).value.ammBOut == RouteNet(pool, sum, SCALE).value.ammBOut;
    EvalIsSwap(pool, sum, SCALE);
  }

  /**
   The price of a cleared buy book, exactly: what is left of the buyers' input after
   the fee, per unit of token B they receive, rounded down.
   */
  lemma BuyBookPrice(pool: Pool, orders: seq<Order>)
    requires Clear(pool, orders).Ok? && Clear(pool, orders).value.Cleared? && BuyBook(orders)
    ensures
      var p, ev := Clear(pool, orders).value.price, SettledEval(pool, orders);
      var sum := TotalIn(ev.eligibleBuys);
      && ev.eligibleSells == [] && YTotal(ev) == BuyQuote(pool, sum) > 0 && AfterFee(sum) > 0
      && p * YTotal(ev) <= AfterFee(sum) * SCALE < (p + 1) * YTotal(ev)
  {
    hide RouteNet, TotalIn, SettleAt, Clear, SelectBatch, YTotal, Buys, Sells, FindPrice, Ratio, BuyQuote,
         RealizedPrice;
    ClearedUnfolds(pool, orders);
    var p, batch := Clear(pool, orders).value.price, SelectBatch(orders);
    OneSidedPrice(pool, batch, false, p);
    BuyRerun(pool, batch, p);
    RatioBounds(AfterFee(TotalIn(Buys(batch, p))), YTotal(SettledEval(pool, orders)));
  }

  /** A sell book's re-run swaps the input re-sized through the rounded price. */
  lemma SellRerun(pool: Pool, batch: seq<Order>, p: nat)
    requires EvalAt(pool, batch, p).Ok? && !EvalAt(pool, batch, p).value.swap.saturated && Buys(batch, p) == []
    requires RealizedPrice(pool, true, TotalIn(Sells(batch, p))) == Ok(Some(p))
    ensures
      var ev := EvalAt(pool, batch, p).value;
      var sum := TotalIn(ev.eligibleSells);
      && ev.eligibleBuys == [] && XTotal(ev) == SellQuote(pool, ev.swap.ammBIn)
      && ev.swap.ammBIn == (if p == 0 then 0 else (sum * p / SCALE) * SCALE / p)
      && AfterFee(sum) > 0 && SellQuote(pool, sum) > 0 && p == Ratio(SellQuote(pool, sum), AfterFee(sum))
  {
    hide TraceSwap, RouteNet, Ratio, Buys, Sells, TotalIn, AfterFee, SwapDeltas;
    EmptyTotal();
    var sum := TotalIn(Sells(batch, p));
    FloorNonNeg(sum * p, SCALE);
    EvalIsSwap(pool, NetA(batch, p), p);
    assert NetA(batch, p) == 0 - sum * p / SCALE;
    assert p == 0 ==> sum * p == 0;
    AfterFeePositive(sum);
    QuoteIsRouted(pool, sum);
    EvalIsSwap(pool, 0 - sum, SCALE);
    NoInputNoQuote(pool);
  }

  lemma QuoteIsRouted(pool: Pool, sum: nat)
    requires sum > 0
    ensures RouteNet(pool, 0 - sum, SCALE).Ok? && !RouteNet(pool, 0 - sum, SCALE).value.saturated
            ==> RouteNet(pool, 0 - sum, SCALE).value.ammAOut == SellQuote(pool, sum)
  {
    hide TraceSwap;
    assert sum * SCALE / SCALE == sum;
  }

  lemma NoInputNoQuote(pool: Pool)
    ensures SellQuote(pool, 0) == 0
  {}

  /**
   The price of a cleared sell book. It is sized on the sellers' whole input, but the
   settlement swaps that input re-sized through the floored price: short by less than
   one unit and SCALE / P, and not at all exactly when SCALE divides input times price;
   then the sellers receive what the price says of the input left after the fee.
   */
  lemma SellBookPrice(pool: Pool, orders: seq<Order>)
    requires Clear(pool, orders).Ok? && Clear(pool, orders).value.Cleared? && SellBook(orders)
    ensures
      var p, ev := Clear(pool, orders).value.price, SettledEval(pool, orders);
      var sum, swapped := TotalIn(ev.eligibleSells), ev.swap.ammBIn;
      && ev.eligibleBuys == [] && XTotal(ev) == SellQuote(pool, swapped) && swapped <= sum && AfterFee(sum) > 0
      && p * AfterFee(sum) <= SellQuote(pool, sum) * SCALE < (p + 1) * AfterFee(sum)
      && (p > 0 ==> sum * p < swapped * p + p + SCALE)
      && (p > 0 ==> (swapped == sum <==> sum * p % SCALE == 0))
      && (p > 0 && sum * p % SCALE == 0 ==> p * AfterFee(sum) <= XTotal(ev) * SCALE < (p + 1) * AfterFee(sum))
  {
    hide RouteNet, TotalIn, SettleAt, Clear, SelectBatch, XTotal, Buys, Sells, FindPrice, Ratio, SellQuote,
         RealizedPrice, AfterFee;
    ClearedUnfolds(pool, orders);
    var p, batch, ev := Clear(pool, orders).value.price, SelectBatch(orders), SettledEval(pool, orders);
    SettlementPrice(ev, p);
    OneSidedPrice(pool, batch, true, p);
    SellRerun(pool, batch, p);
    var sum := TotalIn(Sells(batch, p));
    RatioBounds(SellQuote(pool, sum), AfterFee(sum));
    if p > 0 {
      Resized(SCALE, sum, p);
    }
  }

  lemma Resized(S: nat, sum: nat, p: nat)
    requires S > 0 && p > 0
    ensures
      var y := sum * p / S;
      var back := y * S / p;
      && 0 <= back <= sum && sum * p < back * p + p + S && (back == sum <==> sum * p % S == 0)
  {
    var y := sum * p / S;
    ResizedInputAt(S, sum, p);
    FloorBounds(sum * p, S);
    FloorBounds(y * S, p);
    assert sum * p == y * S + sum * p % S by {
      assert sum * p == S * (sum * p / S) + sum * p % S;
    }
    FloorAtLeast(y * S, p, sum);
  }

  // --------------------------------------------------------------- the limits

  /** What the floored shares of all orders but the last add up to. */
  function FlooredRest(orders: seq<Order>, total: int): int
    requires |orders| > 0 && TotalIn(orders) > 0
  {
    SumOver(Floors(total, Amounts(orders)[..|orders| - 1], TotalIn(orders)), Share)
  }

  /**
   Order i's part of the total reaches an amount: the pro-rata part of an order that
   is floored, what the others leave for the last one, which absorbs the remainder.
   */
  predicate Reaches(orders: seq<Order>, total: int, i: nat, need: int)
    requires i < |orders| && TotalIn(orders) > 0
  {
    if i + 1 < |orders| then total * orders[i].amountIn >= TotalIn(orders) * need
    else total >= need + FlooredRest(orders, total)
  }

  lemma ShareReaches(orders: seq<Order>, total: nat, i: nat, need: nat)
    requires SideFills(orders, total).Ok? && i < |orders| && TotalIn(orders) > 0
    ensures SideFills(orders, total).value[i].amountOut >= need <==> Reaches(orders, total, i, need)
    ensures total * orders[i].amountIn >= TotalIn(orders) * need ==> Reaches(orders, total, i, need)
  {
    hide SideFills, TotalIn, FlooredRest;
    var sum := TotalIn(orders);
    SideIsFair(orders, total, i);
    FloorAtLeast(total * orders[i].amountIn, sum, need);
    assert sum * need == need * sum;
    if i + 1 < |orders| {
      FlooredFill(orders, total, i);
    } else {
      AbsorbingFill(orders, total);
    }
  }

  lemma AbsorbingFill(orders: seq<Order>, total: nat)
    requires SideFills(orders, total).Ok? && |orders| > 0 && TotalIn(orders) > 0
    ensures SideFills(orders, total).value[|orders| - 1].amountOut == total - FlooredRest(orders, total)
  {
    hide Floors, TotalIn;
  }

  lemma FlooredFill(orders: seq<Order>, total: nat, i: nat)
    requires SideFills(orders, total).Ok? && i + 1 < |orders| && TotalIn(orders) > 0
    ensures SideFills(orders, total).value[i].amountOut == total * orders[i].amountIn / TotalIn(orders)
  {
    hide Floors, TotalIn;
    FloorsAt(total, Amounts(orders)[..|orders| - 1], TotalIn(orders), i);
  }

  lemma SoleFill(o: Order, total: int)
    ensures SideFills([o], total) == Ok([Fill(o.orderNonce, o.amountIn, total)]) && TotalIn([o]) == o.amountIn
  {
    SoleSum([o], AmountInOf);
    hide TotalIn;
    var weights := Amounts([o]);
    SoleSplit(total, weights, TotalIn([o]));
    assert FillsOf([o], [total]) == [Fill(o.orderNonce, o.amountIn, total)];
  }

  lemma NoFill(total: int)
    ensures SideFills([], total) == Ok([])
  {
    assert Amounts([]) == [];
    assert TotalIn([]) == 0;
    assert Split(total, [], 0) == [];
  }

  /** A total worth the whole input at rate num/den gives each amount its part at that rate. */
  lemma AtGrossPrice(total: nat, sum: nat, amount: nat, num: nat, den: nat)
    requires den > 0 && total * den >= sum * num
    ensures total * amount >= sum * (amount * num / den)
  {
    FloorBounds(amount * num, den);
    FloorNonNeg(amount * num, den);
    CrossRates(total, sum, amount, num, den, amount * num / den);
    assert (amount * num / den) * sum == sum * (amount * num / den);
  }

  lemma FedSide(sum: nat)
    ensures AfterFee(sum) > 0 ==> sum > 0
  {}

  /**
   A price level at which the buyers as a whole are short: whenever the withheld fee is
   worth more than one unit of price, the buyers together receive less than their input
   is worth at the uniform price, and a sole buyer whose limit is that price is filled
   below it.
   */
  lemma BuyBookShortfall(pool: Pool, orders: seq<Order>)
    requires Clear(pool, orders).Ok? && Clear(pool, orders).value.Cleared? && BuyBook(orders)
    requires
      var p := Clear(pool, orders).value.price;
      0 < p <= SCALE * Withheld(TotalIn(SettledEval(pool, orders).eligibleBuys))
    ensures
      var c, ev := Clear(pool, orders).value, SettledEval(pool, orders);
      var sum := TotalIn(ev.eligibleBuys);
      && YTotal(ev) < sum * SCALE / c.price
      && (|ev.eligibleBuys| == 1 && ev.eligibleBuys[0].limitPrice == c.price ==>
            |c.fills| == 1 && c.fills[0].amountOut < ev.eligibleBuys[0].amountIn * SCALE / c.price)
  {
    hide RouteNet, TotalIn, SideFills, Clear, SelectBatch, YTotal, Buys, Sells, FindPrice, BuyQuote, AfterFee;
    ClearedUnfolds(pool, orders);
    var c, ev := Clear(pool, orders).value, SettledEval(pool, orders);
    var sum := TotalIn(ev.eligibleBuys);
    SettlementPrice(ev, c.price);
    BuyBookPrice(pool, orders);
    assert AfterFee(sum) * SCALE + SCALE * Withheld(sum) == sum * SCALE;
    assert (YTotal(ev) + 1) * c.price == c.price * YTotal(ev) + c.price;
    FloorAtLeast(sum * SCALE, c.price, YTotal(ev) + 1);
    if |ev.eligibleBuys| == 1 {
      assert ev.eligibleBuys == [ev.eligibleBuys[0]];
      SoleFill(ev.eligibleBuys[0], YTotal(ev));
    }
  }

  lemma SellBookFills(pool: Pool, orders: seq<Order>)
    requires Clear(pool, orders).Ok? && Clear(pool, orders).value.Cleared? && SellBook(orders)
    ensures
      var c, ev := Clear(pool, orders).value, SettledEval(pool, orders);
      && SideFills(ev.eligibleSells, XTotal(ev)) == Ok(c.fills) && XTotal(ev) >= 0
  {
    hide RouteNet, TotalIn, SideFills, Clear, SelectBatch, XTotal, YTotal, Buys, Sells, FindPrice, SellQuote, AfterFee;
    ClearedUnfolds(pool, orders);
    var c, ev := Clear(pool, orders).value, SettledEval(pool, orders);
    SettlementPrice(ev, c.price);
    SellBookPrice(pool, orders);
    TotalsAreNonNegative(pool, SelectBatch(orders), c.price);
    assert c.fills[0..] == c.fills;
  }
}
