/**
 What a cleared epoch promises its makers: the batch is the same whatever order
 reveals arrived in, the search's price always settles, and every fill is worth
 at least the uniform price, up to the stated rounding.
 */
module Guarantees {
  import opened Arithmetic
  import opened FixedPoint
  import opened Sequences
  import opened Swap
  import opened SwapTheory
  import opened Price
  import opened PriceTheory
  import opened Clearing
  import opened Conservation

  // ------------------------------------------------------------ arrival order

  lemma FifoIsTotal()
    ensures TotalPreorder(Fifo)
  {}

  lemma DistinctNoncesDecide(orders: seq<Order>)
    requires DistinctBy(orders, Nonce)
    ensures forall a, b :: a in orders && b in orders && Fifo(a, b) && Fifo(b, a) ==> a == b
  {
    forall a, b | a in orders && b in orders && Fifo(a, b) && Fifo(b, a)
      ensures a == b
    {
      var i :| 0 <= i < |orders| && orders[i] == a;
      var j :| 0 <= j < |orders| && orders[j] == b;
      assert Nonce(a) == Nonce(b);
    }
  }

  /** The batch does not depend on the order in which the reveals arrived. */
  lemma BatchIgnoresArrivalOrder(orders: seq<Order>, shuffled: seq<Order>)
    requires multiset(orders) == multiset(shuffled) && DistinctBy(orders, Nonce)
    ensures SelectBatch(orders) == SelectBatch(shuffled)
  {
    FifoIsTotal();
    SortSorted(orders, Fifo);
    SortSorted(shuffled, Fifo);
    SortPermutes(orders, Fifo);
    SortPermutes(shuffled, Fifo);
    DistinctNoncesDecide(orders);
    forall a, b | a in Sort(orders, Fifo) && b in Sort(orders, Fifo) && Fifo(a, b) && Fifo(b, a)
      ensures a == b
    {
      assert a in multiset(Sort(orders, Fifo)) && b in multiset(Sort(orders, Fifo));
      assert a in multiset(orders) && b in multiset(orders);
    }
    SortedUnique(Sort(orders, Fifo), Sort(shuffled, Fifo), Fifo);
  }

  /** Nor does any part of the result: price, fills, reserves and bucket deltas. */
  lemma ClearingIgnoresArrivalOrder(pool: Pool, orders: seq<Order>, shuffled: seq<Order>)
    requires multiset(orders) == multiset(shuffled) && DistinctBy(orders, Nonce)
    ensures Clear(pool, orders) == Clear(pool, shuffled)
    ensures ClearV2(pool, orders) == ClearV2(pool, shuffled)
  {
    hide SelectBatch, FindPrice, EvalAt, SettleAt, StatesBefore, StatesAfter;
    BatchIgnoresArrivalOrder(orders, shuffled);
  }

  /** Submitted in an earlier block, or in the same block under a smaller nonce. */
  predicate Earlier(block: int, nonce: int, block': int, nonce': int) {
    block < block' || (block == block' && nonce < nonce')
  }

  /** The batch is the oldest orders: whoever was left out was submitted after everyone in it. */
  lemma BatchIsOldest(orders: seq<Order>, inside: Order, outside: Order)
    requires DistinctBy(orders, Nonce)
    requires inside in SelectBatch(orders) && outside in orders && outside !in SelectBatch(orders)
    ensures inside in orders && Fifo(inside, outside) && |SelectBatch(orders)| == MAX_ORDERS_PER_EPOCH
    ensures Earlier(inside.submittedAtBlock, inside.orderNonce, outside.submittedAtBlock, outside.orderNonce)
  {
    var sorted := Sort(orders, Fifo);
    FifoIsTotal();
    SortSorted(orders, Fifo);
    SortPermutes(orders, Fifo);
    assert outside in multiset(sorted);
    var i :| 0 <= i < |SelectBatch(orders)| && SelectBatch(orders)[i] == inside;
    var j :| 0 <= j < |sorted| && sorted[j] == outside;
    BatchAt(orders, i);
    if j < |SelectBatch(orders)| {
      BatchAt(orders, j);
    }
    assert sorted[i] in multiset(sorted);
    OtherNonce(orders, inside, outside);
  }

  lemma OtherNonce(orders: seq<Order>, a: Order, b: Order)
    requires DistinctBy(orders, Nonce) && a in orders && b in orders && a != b
    ensures a.orderNonce != b.orderNonce
  {
    var i :| 0 <= i < |orders| && orders[i] == a;
    var j :| 0 <= j < |orders| && orders[j] == b;
    assert Nonce(orders[i]) != Nonce(orders[j]);
  }

  /**
   The batch stands in the order of submission, so the newest order of a side absorbs
   its remainder.
   */
  lemma BatchIsOrdered(orders: seq<Order>, i: nat, j: nat)
    requires DistinctBy(orders, Nonce) && i < j < |SelectBatch(orders)|
    ensures
      var a, b := SelectBatch(orders)[i], SelectBatch(orders)[j];
      Earlier(a.submittedAtBlock, a.orderNonce, b.submittedAtBlock, b.orderNonce)
  {
    var sorted := Sort(orders, Fifo);
    FifoIsTotal();
    SortSorted(orders, Fifo);
    SortPermutes(orders, Fifo);
    DistinctPermutation(orders, sorted, Nonce);
    BatchAt(orders, i);
    BatchAt(orders, j);
    assert Nonce(sorted[i]) != Nonce(sorted[j]);
  }

  lemma BatchAt(orders: seq<Order>, i: nat)
    requires i < |SelectBatch(orders)|
    ensures i < |Sort(orders, Fifo)| && SelectBatch(orders)[i] == Sort(orders, Fifo)[i]
    ensures Sort(orders, Fifo)[i] in SelectBatch(orders)
  {}

  // ---------------------------------------------------- search and settlement

  /**
   An epoch clears exactly when the search finds a price: after a found price only
   a division by zero can stop the settlement, never one of its two guards.
   */
  lemma ClearsExactlyWhenFound(pool: Pool, orders: seq<Order>)
    ensures
      var batch := SelectBatch(orders);
      var r := Clear(pool, orders);
      && (r == Ok(Skipped) <==> |batch| == 0 || (FindPrice(pool, batch).Ok? && !FindPrice(pool, batch).value.Found?))
      && (|batch| > 0 && FindPrice(pool, batch).Ok? && FindPrice(pool, batch).value.Found? && r.Err?
          ==> r.error == DivisionByZero)
  {
    hide FindPrice, EvalAt, SideFills, SelectBatch;
    var batch := SelectBatch(orders);
    if |batch| > 0 && FindPrice(pool, batch).Ok? && FindPrice(pool, batch).value.Found? {
      SearchMeetsSettlement(pool, batch);
      var ev := EvalAt(pool, batch, FindPrice(pool, batch).value.price);
      if ev.Ok? {
        SideErrors(ev.value.eligibleBuys, YTotal(ev.value));
        SideErrors(ev.value.eligibleSells, XTotal(ev.value));
      }
    }
  }

  lemma SideErrors(orders: seq<Order>, total: int)
    ensures SideFills(orders, total).Err? ==> SideFills(orders, total).error == DivisionByZero
  {}

  /** With a priced pool and positive amounts not even that division can fail. */
  lemma PositiveOrdersSettle(pool: Pool, orders: seq<Order>)
    requires PricedPool(pool)
    requires forall o :: o in orders ==> o.amountIn > 0
    requires |SelectBatch(orders)| > 0
    requires FindPrice(pool, SelectBatch(orders)).Ok? && FindPrice(pool, SelectBatch(orders)).value.Found?
    ensures Clear(pool, orders).Ok? && Clear(pool, orders).value.Cleared?
  {
    hide FindPrice, RouteNet, SelectBatch, XTotal, YTotal, NetA, TotalIn;
    var batch := SelectBatch(orders);
    var p := FindPrice(pool, batch).value.price;
    SearchMeetsSettlement(pool, batch);
    BatchFromOrders(orders);
    PositiveSide(Buys(batch, p));
    PositiveSide(Sells(batch, p));
  }

  lemma BatchFromOrders(orders: seq<Order>)
    ensures forall o :: o in SelectBatch(orders) ==> o in orders
  {
    SortPermutes(orders, Fifo);
    forall o | o in SelectBatch(orders)
      ensures o in orders
    {
      assert o in multiset(Sort(orders, Fifo));
    }
  }

  lemma PositiveSide(side: seq<Order>)
    requires forall i :: 0 <= i < |side| ==> side[i].amountIn > 0
    ensures |side| > 0 ==> TotalIn(side) > 0
  {
    if |side| > 0 {
      SumNonNeg(side, AmountInOf);
      assert AmountInOf(side[0]) > 0;
    }
  }

  // --------------------------------------------------- crossing-side guarantee

  lemma Regroup(a: int, b: int, c: int)
    ensures (a * b) * c == (a * c) * b
  {}

  /** A pro-rata part of a total worth at least rate num/den per unit is worth the rate. */
  lemma ShareAtRate(total: nat, sum: nat, amount: nat, num: nat, den: nat)
    requires sum > 0 && den > 0 && total * den >= sum * num
    ensures total * amount / sum >= amount * num / den
  {
    var q := amount * num / den;
    FloorBounds(amount * num, den);
    CrossRates(total, sum, amount, num, den, q);
    FloorAtLeast(total * amount, sum, q);
  }

  lemma CrossRates(total: nat, sum: nat, amount: nat, num: nat, den: nat, q: int)
    requires den > 0 && q * den <= amount * num && sum * num <= total * den
    ensures q * sum <= total * amount
  {
    MulMono(q * den, amount * num, sum);
    Regroup(q, den, sum);
    assert (amount * num) * sum == (sum * num) * amount;
    MulMono(sum * num, total * den, amount);
    Regroup(total, den, amount);
    MulCancel(q * sum, total * amount, den);
  }

  /** The token B total covers every buyer at price p when no token A is left over. */
  lemma CrossingBuyTotal(sumAIn: nat, sumBIn: nat, p: nat, inB: nat)
    requires p > 0
    requires sumAIn - sumBIn * p / SCALE <= 0
    requires inB == if sumAIn - sumBIn * p / SCALE < 0 then -(sumAIn - sumBIn * p / SCALE) * SCALE / p else 0
    ensures (sumBIn - inB) * p >= sumAIn * SCALE
  {
    var y := sumBIn * p / SCALE;
    FloorBounds(sumBIn * p, SCALE);
    if sumAIn < y {
      assert -(sumAIn - y) == y - sumAIn;
      FloorBounds((y - sumAIn) * SCALE, p);
    }
    CrossingBuyTotalAt(SCALE, sumAIn, sumBIn, p, inB, y);
  }

  lemma CrossingBuyTotalAt(S: nat, sumAIn: nat, sumBIn: nat, p: nat, inB: nat, y: int)
    requires y * S <= sumBIn * p && inB * p <= (y - sumAIn) * S
    ensures (sumBIn - inB) * p >= sumAIn * S
  {
    assert (y - sumAIn) * S == y * S - sumAIn * S;
    assert (sumBIn - inB) * p == sumBIn * p - inB * p;
  }

  /**
   With no token A surplus, every filled buyer receives at least the uniform price
   on its whole input, and so at least its own limit.
   */
  lemma CrossingBuyersGetPrice(pool: Pool, orders: seq<Order>, i: nat)
    requires Clear(pool, orders).Ok? && Clear(pool, orders).value.Cleared?
    requires
      var ev := SettledEval(pool, orders);
      ev.netA <= 0 && i < |ev.eligibleBuys| && Clear(pool, orders).value.price > 0
    ensures
      var c, o := Clear(pool, orders).value, SettledEval(pool, orders).eligibleBuys[i];
      && i < |c.fills| && c.fills[i].orderNonce == o.orderNonce
      && c.fills[i].amountOut >= o.amountIn * SCALE / c.price
      && o.limitPrice > 0 && c.fills[i].amountOut >= o.amountIn * SCALE / o.limitPrice
  {
    hide RouteNet, TotalIn, SideFills, Clear, SelectBatch, YTotal, XTotal, Buys, Sells;
    ClearedUnfolds(pool, orders);
    var c, ev, batch := Clear(pool, orders).value, SettledEval(pool, orders), SelectBatch(orders);
    var o := ev.eligibleBuys[i];
    SettlementPrice(ev, c.price);
    SideIsExact(ev.eligibleBuys, YTotal(ev));
    CrossingYTotal(pool, batch, c.price);
    BuyLimits(batch, c.price, i);
    ShareOfSide(ev.eligibleBuys, YTotal(ev), i, SCALE, c.price);
    PriceToLimit(o.amountIn, c.price, o.limitPrice);
  }

  lemma CrossingYTotal(pool: Pool, batch: seq<Order>, p: nat)
    requires EvalAt(pool, batch, p).Ok? && !EvalAt(pool, batch, p).value.swap.saturated
    requires p > 0 && EvalAt(pool, batch, p).value.netA <= 0
    ensures
      var ev := EvalAt(pool, batch, p).value;
      YTotal(ev) >= 0 && YTotal(ev) * p >= TotalIn(ev.eligibleBuys) * SCALE
  {
    hide RouteNet, TotalIn, Buys, Sells, DirectedTrace;
    var ev := EvalAt(pool, batch, p).value;
    TotalsAreNonNegative(pool, batch, p);
    EvalIsSwap(pool, ev.netA, p);
    CrossingBuyTotal(TotalIn(Buys(batch, p)), TotalIn(Sells(batch, p)), p, ev.swap.ammBIn);
  }

  lemma BuyLimits(batch: seq<Order>, p: nat, i: nat)
    requires i < |Buys(batch, p)|
    ensures Buys(batch, p)[i].limitPrice >= p
  {}

  lemma SellLimits(batch: seq<Order>, p: nat, i: nat)
    requires i < |Sells(batch, p)|
    ensures Sells(batch, p)[i].limitPrice <= p
  {}

  /** A side whose total is worth rate num/den pays each order its amount at that rate. */
  lemma ShareOfSide(orders: seq<Order>, total: int, i: nat, num: nat, den: nat)
    requires SideFills(orders, total).Ok? && i < |orders| && den > 0
    requires total >= 0 && total * den >= TotalIn(orders) * num
    ensures SideFills(orders, total).value[i].amountOut >= orders[i].amountIn * num / den
  {
    hide SideFills;
    SideIsFair(orders, total, i);
    if TotalIn(orders) > 0 {
      SumNonNeg(orders, AmountInOf);
      assert AmountInOf(orders[i]) <= TotalIn(orders);
      ShareAtRate(total, TotalIn(orders), orders[i].amountIn, num, den);
    } else {
      assert orders[i].amountIn * num == 0;
    }
  }

  lemma PriceToLimit(amount: nat, p: nat, limit: nat)
    requires 0 < p <= limit
    ensures amount * SCALE / p >= amount * SCALE / limit
  {
    PriceToLimitAt(amount * SCALE, p, limit);
  }

  lemma PriceToLimitAt(x: nat, p: nat, limit: nat)
    requires 0 < p <= limit
    ensures x / p >= x / limit
  {
    FloorBounds(x, limit);
    FloorNonNeg(x, limit);
    MulMono(p, limit, x / limit);
    FloorAtLeast(x, p, x / limit);
  }

  /**
   With no token A deficit, every filled seller receives the uniform price on its
   whole input, and so its own limit, short by at most one unit of rounding.
   */
  lemma CrossingSellersGetPrice(pool: Pool, orders: seq<Order>, i: nat)
    requires Clear(pool, orders).Ok? && Clear(pool, orders).value.Cleared?
    requires
      var ev := SettledEval(pool, orders);
      ev.netA >= 0 && i < |ev.eligibleSells|
    ensures
      var c, ev := Clear(pool, orders).value, SettledEval(pool, orders);
      var o, n := ev.eligibleSells[i], |ev.eligibleBuys|;
      && n + i < |c.fills| && c.fills[n + i].orderNonce == o.orderNonce
      && c.fills[n + i].amountOut + 1 >= o.amountIn * c.price / SCALE
      && c.fills[n + i].amountOut + 1 >= o.amountIn * o.limitPrice / SCALE
  {
    hide RouteNet, TotalIn, SideFills, Clear, SelectBatch, YTotal, XTotal, Buys, Sells;
    ClearedUnfolds(pool, orders);
    var c, ev, batch := Clear(pool, orders).value, SettledEval(pool, orders), SelectBatch(orders);
    var o, n := ev.eligibleSells[i], |ev.eligibleBuys|;
    SettlementPrice(ev, c.price);
    SideIsExact(ev.eligibleSells, XTotal(ev));
    CrossingXTotal(pool, batch, c.price);
    assert c.fills[n..][i] == c.fills[n + i];
    SideIsFair(ev.eligibleSells, XTotal(ev), i);
    SellerShare(ev.eligibleSells, i, c.price);
    SellLimits(batch, c.price, i);
    MulMono(o.limitPrice, c.price, o.amountIn);
    FloorMono(o.limitPrice * o.amountIn, c.price * o.amountIn, SCALE);
    assert o.limitPrice * o.amountIn == o.amountIn * o.limitPrice;
    assert c.price * o.amountIn == o.amountIn * c.price;
  }

  lemma CrossingXTotal(pool: Pool, batch: seq<Order>, p: nat)
    requires EvalAt(pool, batch, p).Ok? && !EvalAt(pool, batch, p).value.swap.saturated
    requires EvalAt(pool, batch, p).value.netA >= 0
    ensures
      var ev := EvalAt(pool, batch, p).value;
      XTotal(ev) == TotalIn(ev.eligibleSells) * p / SCALE >= 0
  {
    hide RouteNet, TotalIn, Buys, Sells, DirectedTrace;
    var ev := EvalAt(pool, batch, p).value;
    TotalsAreNonNegative(pool, batch, p);
    EvalIsSwap(pool, ev.netA, p);
  }

  lemma SellerShare(orders: seq<Order>, i: nat, p: nat)
    requires i < |orders|
    ensures TotalIn(orders) > 0 ==>
      (TotalIn(orders) * p / SCALE) * orders[i].amountIn / TotalIn(orders) + 1 >= orders[i].amountIn * p / SCALE
    ensures orders[i].amountIn == 0 ==> orders[i].amountIn * p / SCALE == 0
  {
    SumNonNeg(orders, AmountInOf);
    assert AmountInOf(orders[i]) <= TotalIn(orders);
    if TotalIn(orders) > 0 {
      FloorNonNeg(TotalIn(orders) * p, SCALE);
      SellerShareAt(SCALE, TotalIn(orders), orders[i].amountIn, p);
    }
  }

  lemma SellerShareAt(S: nat, sum: nat, amount: nat, p: nat)
    requires S > 0 && sum > 0 && amount <= sum
    ensures (sum * p / S) * amount / sum + 1 >= amount * p / S
  {
    FloorBounds(sum * p, S);
    FloorBounds(amount * p, S);
    OneUnitShort(S, sum, amount, p, sum * p / S, amount * p / S);
    FloorAtLeast((sum * p / S) * amount, sum, amount * p / S - 1);
  }

  lemma OneUnitShort(S: nat, sum: nat, amount: nat, p: nat, x: int, q: int)
    requires S > 0 && amount <= sum && q * S <= amount * p && sum * p <= x * S + S
    ensures (q - 1) * sum <= x * amount
  {
    MulMono(q * S, amount * p, sum);
    Regroup(q, S, sum);
    assert (amount * p) * sum == (sum * p) * amount;
    MulMono(sum * p, x * S + S, amount);
    assert (x * S + S) * amount == (x * amount) * S + S * amount;
    MulMono(amount, sum, S);
    assert ((q - 1) * sum) * S == (q * sum) * S - sum * S;
    MulCancel((q - 1) * sum, x * amount, S);
  }

  // -------------------------------------------------------- AMM-side guarantee

  lemma RatioBounds(x: nat, y: nat)
    requires y > 0
    ensures Ratio(x, y) * y <= x * SCALE < (Ratio(x, y) + 1) * y
  {
    FloorBounds(x * SCALE, y);
    assert (Ratio(x, y) + 1) * y == Ratio(x, y) * y + y;
  }

  lemma AmmBuyTotal(S: nat, sumBIn: nat, p: nat, tol: nat, netA: int, out: nat, sumAIn: nat)
    requires S > 0 && netA == sumAIn - sumBIn * p / S
    requires netA * S <= (p + tol + 1) * out
    ensures sumAIn * S <= (p + tol + 1) * (sumBIn + out)
  {
    FloorBounds(sumBIn * p, S);
    MulMono(p, p + tol + 1, sumBIn);
    assert sumAIn * S == netA * S + (sumBIn * p / S) * S;
    assert (p + tol + 1) * (sumBIn + out) == (p + tol + 1) * sumBIn + (p + tol + 1) * out;
  }

  /**
   Mixed book, tolerance exit, token A left over: the buyers as a whole pay at most
   P + TOLERANCE + 1 per unit, and so does each buyer on its own fill.
   */
  lemma AmmBuyersGetPrice(pool: Pool, orders: seq<Order>, i: nat)
    requires Clear(pool, orders).Ok? && Clear(pool, orders).value.Cleared?
    requires
      var ev := SettledEval(pool, orders);
      && ev.netA > 0 && ev.swap.ammBOut > 0 && i < |ev.eligibleBuys|
      && FindPrice(pool, SelectBatch(orders)) == Ok(Found(Clear(pool, orders).value.price, WithinTolerance))
      && HasSide(SelectBatch(orders), false) && HasSide(SelectBatch(orders), true)
    ensures
      var c, ev := Clear(pool, orders).value, SettledEval(pool, orders);
      && TotalIn(ev.eligibleBuys) * SCALE <= (c.price + TOLERANCE + 1) * YTotal(ev)
      && i < |c.fills| && c.fills[i].orderNonce == ev.eligibleBuys[i].orderNonce
      && c.fills[i].amountOut >= ev.eligibleBuys[i].amountIn * SCALE / (c.price + TOLERANCE + 1)
  {
    hide RouteNet, TotalIn, SideFills, Clear, SelectBatch, YTotal, XTotal, Buys, Sells, FindPrice, DirectedTrace;
    ClearedUnfolds(pool, orders);
    var c, ev, batch := Clear(pool, orders).value, SettledEval(pool, orders), SelectBatch(orders);
    SettlementPrice(ev, c.price);
    SideIsExact(ev.eligibleBuys, YTotal(ev));
    TotalsAreNonNegative(pool, batch, c.price);
    ToleranceExit(pool, batch, c.price);
    AmmYTotal(pool, batch, c.price);
    ShareOfSide(ev.eligibleBuys, YTotal(ev), i, SCALE, c.price + TOLERANCE + 1);
  }

  lemma ToleranceExit(pool: Pool, batch: seq<Order>, p: nat)
    requires FindPrice(pool, batch) == Ok(Found(p, WithinTolerance))
    requires HasSide(batch, false) && HasSide(batch, true)
    ensures EvalAt(pool, batch, p).Ok?
    ensures
      var ev := EvalAt(pool, batch, p).value;
      !ev.swap.saturated && p <= ev.swap.realizedP + TOLERANCE && ev.swap.realizedP <= p + TOLERANCE
  {
    hide FindPrice, EvalAt;
    MixedSearchIsSound(pool, batch);
  }

  lemma AmmYTotal(pool: Pool, batch: seq<Order>, p: nat)
    requires EvalAt(pool, batch, p).Ok? && !EvalAt(pool, batch, p).value.swap.saturated
    requires
      var ev := EvalAt(pool, batch, p).value;
      ev.netA > 0 && ev.swap.ammBOut > 0 && ev.swap.realizedP <= p + TOLERANCE
    ensures
      var ev := EvalAt(pool, batch, p).value;
      TotalIn(ev.eligibleBuys) * SCALE <= (p + TOLERANCE + 1) * YTotal(ev)
  {
    hide RouteNet, TotalIn, Buys, Sells, DirectedTrace, Ratio;
    var ev := EvalAt(pool, batch, p).value;
    EvalIsSwap(pool, ev.netA, p);
    RatioBounds(ev.netA, ev.swap.ammBOut);
    MulMono(Ratio(ev.netA, ev.swap.ammBOut) + 1, p + TOLERANCE + 1, ev.swap.ammBOut);
    AmmBuyTotal(SCALE, TotalIn(Sells(batch, p)), p, TOLERANCE, ev.netA, ev.swap.ammBOut, TotalIn(Buys(batch, p)));
  }

  lemma AmmSellTotal(S: nat, sumAIn: nat, sumBIn: nat, p: nat, tol: nat, inB: nat, out: nat)
    requires S > 0 && p >= tol && p > 0
    requires sumAIn - sumBIn * p / S < 0 && inB == -(sumAIn - sumBIn * p / S) * S / p && inB <= sumBIn
    requires (p - tol) * inB <= out * S
    ensures (sumAIn + out) * S >= (p - tol) * sumBIn - S - p
  {
    var y := sumBIn * p / S;
    FloorBounds(sumBIn * p, S);
    FloorBounds((y - sumAIn) * S, p);
    assert -(sumAIn - y) * S == (y - sumAIn) * S == y * S - sumAIn * S;
    MulMono(inB, sumBIn, tol);
    assert (p - tol) * inB == inB * p - inB * tol;
    assert (p - tol) * sumBIn == sumBIn * p - sumBIn * tol;
    assert (sumAIn + out) * S == sumAIn * S + out * S;
  }

  /**
   Mixed book, tolerance exit, token B left over: the sellers as a whole receive at
   least P - TOLERANCE per unit, less one unit each of price and scale.
   */
  lemma AmmSellersGetPrice(pool: Pool, orders: seq<Order>)
    requires Clear(pool, orders).Ok? && Clear(pool, orders).value.Cleared?
    requires
      && SettledEval(pool, orders).netA < 0
      && FindPrice(pool, SelectBatch(orders)) == Ok(Found(Clear(pool, orders).value.price, WithinTolerance))
      && HasSide(SelectBatch(orders), false) && HasSide(SelectBatch(orders), true)
    ensures
      var c, ev := Clear(pool, orders).value, SettledEval(pool, orders);
      XTotal(ev) * SCALE >= (c.price - TOLERANCE) * TotalIn(ev.eligibleSells) - SCALE - c.price
  {
    hide RouteNet, TotalIn, SideFills, Clear, SelectBatch, YTotal, Buys, Sells, FindPrice, DirectedTrace, Ratio;
    var p, batch := Clear(pool, orders).value.price, SelectBatch(orders);
    ToleranceExit(pool, batch, p);
    AmmXTotal(pool, batch, p);
  }

  /** So does each seller on its own fill, less two units of rounding and one of price. */
  lemma AmmSellerGetsPrice(pool: Pool, orders: seq<Order>, i: nat)
    requires Clear(pool, orders).Ok? && Clear(pool, orders).value.Cleared?
    requires
      && SettledEval(pool, orders).netA < 0 && i < |SettledEval(pool, orders).eligibleSells|
      && FindPrice(pool, SelectBatch(orders)) == Ok(Found(Clear(pool, orders).value.price, WithinTolerance))
      && HasSide(SelectBatch(orders), false) && HasSide(SelectBatch(orders), true)
    ensures
      var c, ev := Clear(pool, orders).value, SettledEval(pool, orders);
      var o, n := ev.eligibleSells[i], |ev.eligibleBuys|;
      && n + i < |c.fills| && c.fills[n + i].orderNonce == o.orderNonce
      && (c.fills[n + i].amountOut + 2) * SCALE + c.price >= (c.price - TOLERANCE) * o.amountIn
  {
    hide RouteNet, TotalIn, SideFills, Clear, SelectBatch, YTotal, XTotal, Buys, Sells, FindPrice, DirectedTrace;
    ClearedUnfolds(pool, orders);
    var c, ev, batch := Clear(pool, orders).value, SettledEval(pool, orders), SelectBatch(orders);
    var o, n := ev.eligibleSells[i], |ev.eligibleBuys|;
    SettlementPrice(ev, c.price);
    SideIsExact(ev.eligibleSells, XTotal(ev));
    TotalsAreNonNegative(pool, batch, c.price);
    AmmSellersGetPrice(pool, orders);
    assert c.fills[n..][i] == c.fills[n + i];
    SideIsFair(ev.eligibleSells, XTotal(ev), i);
    PartOfSide(ev.eligibleSells, i);
    if TotalIn(ev.eligibleSells) > 0 {
      SellerPart(SCALE, XTotal(ev), TotalIn(ev.eligibleSells), o.amountIn, c.price, TOLERANCE,
                 c.fills[n + i].amountOut);
    } else {
      assert (c.price - TOLERANCE) * 0 == 0;
    }
  }

  lemma PartOfSide(orders: seq<Order>, i: nat)
    requires i < |orders|
    ensures orders[i].amountIn <= TotalIn(orders)
  {
    SumNonNeg(orders, AmountInOf);
    assert AmountInOf(orders[i]) <= TotalIn(orders);
  }

  lemma SellerPart(S: nat, total: nat, sum: nat, amount: nat, p: nat, tol: nat, out: int)
    requires sum > 0 && amount <= sum && total * S >= (p - tol) * sum - S - p
    requires out >= total * amount / sum
    ensures (out + 2) * S + p >= (p - tol) * amount
  {
    FloorBounds(total * amount, sum);
    MulMono(total * amount / sum, out, sum);
    PartBound(S, total * amount, sum, out);
    MulMono((p - tol) * sum - S - p, total * S, amount);
    Regroup(total, S, amount);
    var lhs := (out + 2) * S + p;
    var whole := (out + 1) * S;
    assert lhs == whole + (S + p);
    assert lhs * sum == whole * sum + (S + p) * sum;
    Regroup(out + 1, S, sum);
    CoversRate((total * amount) * S, p - tol, S + p, sum, amount, lhs);
  }

  lemma CoversRate(x: int, rate: int, k: nat, sum: nat, amount: nat, lhs: int)
    requires sum > 0 && amount <= sum && x >= (rate * sum - k) * amount && lhs * sum >= x + k * sum
    ensures lhs >= rate * amount
  {
    MulMono(amount, sum, k);
    assert (rate * sum - k) * amount == (rate * amount) * sum - amount * k;
    assert sum * k == k * sum;
    MulCancel(rate * amount, lhs, sum);
  }

  lemma PartBound(S: nat, share: nat, sum: nat, out: int)
    requires sum > 0 && share <= out * sum + sum
    ensures share * S <= ((out + 1) * sum) * S
  {
    assert (out + 1) * sum == out * sum + sum;
    MulMono(share, (out + 1) * sum, S);
  }

  lemma AmmXTotal(pool: Pool, batch: seq<Order>, p: nat)
    requires EvalAt(pool, batch, p).Ok? && !EvalAt(pool, batch, p).value.swap.saturated
    requires
      var ev := EvalAt(pool, batch, p).value;
      ev.netA < 0 && p <= ev.swap.realizedP + TOLERANCE
    ensures
      var ev := EvalAt(pool, batch, p).value;
      XTotal(ev) * SCALE >= (p - TOLERANCE) * TotalIn(ev.eligibleSells) - SCALE - p
  {
    hide RouteNet, TotalIn, Buys, Sells, DirectedTrace, Ratio;
    var ev := EvalAt(pool, batch, p).value;
    var sumBIn := TotalIn(Sells(batch, p));
    TotalsAreNonNegative(pool, batch, p);
    EvalIsSwap(pool, ev.netA, p);
    if p < TOLERANCE {
      MulMono(p - TOLERANCE, 0, sumBIn);
      MulMono(0, XTotal(ev), SCALE);
    } else {
      RoutedFits(TotalIn(Buys(batch, p)), sumBIn, p);
      SellSideRate(ev.swap.ammAOut, ev.swap.ammBIn, p, ev.swap.realizedP);
      AmmSellTotal(SCALE, TotalIn(Buys(batch, p)), sumBIn, p, TOLERANCE, ev.swap.ammBIn, ev.swap.ammAOut);
    }
  }

  lemma SellSideRate(out: int, inB: nat, p: nat, realized: nat)
    requires out >= 0 && p >= TOLERANCE && realized == Ratio(out, inB) && p <= realized + TOLERANCE
    ensures (p - TOLERANCE) * inB <= out * SCALE
  {
    if inB > 0 {
      RatioBounds(out, inB);
      MulMono(p - TOLERANCE, realized, inB);
    }
  }
}
