/**
 What one maker gets, from its pool's clearing to the submitted leaf that carries its
 nonce: the leaf pays the order's own fill, so the price guarantees of the clearing are
 guarantees about what is claimed.
 */
module Payouts {
  import opened FixedPoint
  import opened Sequences
  import opened Swap
  import opened Price
  import opened PriceTheory
  import opened Clearing
  import opened Conservation
  import opened Guarantees
  import opened OneSidedBook
  import opened OneSidedLimits
  import opened Registry
  import opened MultiPair
  import opened Settlement
  import opened Slots
  import opened Cycle
  import opened Pipeline

  /** Order o is eligible in the pool's clearing, and its fill, the k-th, pays out. */
  ghost predicate OwnFill(pool: Pool, orders: seq<Order>, o: Order, k: nat, out: int) {
    && Clear(pool, orders).Ok? && Clear(pool, orders).value.Cleared?
    && var fills, ev := Clear(pool, orders).value.fills, SettledEval(pool, orders);
       var n := |ev.eligibleBuys|;
       && k < |fills| && fills[k].orderNonce == o.orderNonce && fills[k].amountOut == out
       && if o.side then n <= k < n + |ev.eligibleSells| && ev.eligibleSells[k - n] == o
          else k < n && ev.eligibleBuys[k] == o
  }

  /** Where the book crosses without the buckets, the order's limit; for a seller, short by one unit. */
  ghost predicate CrossingPromise(pool: Pool, orders: seq<Order>, o: Order, out: int)
    requires Clear(pool, orders).Ok? && Clear(pool, orders).value.Cleared?
  {
    var p, netA := Clear(pool, orders).value.price, SettledEval(pool, orders).netA;
    && (!o.side && netA <= 0 && p > 0 ==>
          o.limitPrice > 0 && out >= o.amountIn * SCALE / p && out >= o.amountIn * SCALE / o.limitPrice)
    && (o.side && netA >= 0 ==>
          out + 1 >= o.amountIn * p / SCALE && out + 1 >= o.amountIn * o.limitPrice / SCALE)
  }

  ghost predicate ToleranceFound(pool: Pool, orders: seq<Order>) {
    && HasSide(SelectBatch(orders), false) && HasSide(SelectBatch(orders), true)
    && FindPrice(pool, SelectBatch(orders)).Ok? && FindPrice(pool, SelectBatch(orders)).value.Found?
    && FindPrice(pool, SelectBatch(orders)).value.exit == WithinTolerance
  }

  /** Where the buckets take the surplus of a mixed book at a tolerance exit, the price within the tolerance. */
  ghost predicate TolerancePromise(pool: Pool, orders: seq<Order>, o: Order, out: int)
    requires Clear(pool, orders).Ok? && Clear(pool, orders).value.Cleared?
  {
    var p, ev := Clear(pool, orders).value.price, SettledEval(pool, orders);
    ToleranceFound(pool, orders) ==>
      && (!o.side && ev.netA > 0 && ev.swap.ammBOut > 0 ==> out >= o.amountIn * SCALE / (p + TOLERANCE + 1))
      && (o.side && ev.netA < 0 ==> (out + 2) * SCALE + p >= (p - TOLERANCE) * o.amountIn)
  }

  /** Where the book has one side only, a floor from the order itself. */
  ghost predicate OneSidedPromise(pool: Pool, orders: seq<Order>, o: Order, out: int) {
    && (!o.side && BuyBook(orders) && o.amountIn > 0 ==>
          (out + 1) * (o.limitPrice + 1) * 10_000 > SCALE * (9_970 * o.amountIn - 9_999))
    && (o.side && SellBook(orders) && PricedPool(pool) && o.limitPrice > 0 ==>
          (out + 1 + ResizeGap(pool, o.limitPrice)) * SCALE * 10_000 >= o.limitPrice * (9_970 * o.amountIn - 9_999))
  }

  /** What a clearing promises one filled order. */
  ghost predicate KeepsPromise(pool: Pool, orders: seq<Order>, o: Order, out: int)
    requires Clear(pool, orders).Ok? && Clear(pool, orders).value.Cleared?
  {
    CrossingPromise(pool, orders, o, out) && TolerancePromise(pool, orders, o, out)
    && OneSidedPromise(pool, orders, o, out)
  }

  /** Every fill of a clearing is the fill of an eligible order of its own. */
  lemma FillHasOrder(pool: Pool, orders: seq<Order>, f: Fill) returns (o: Order, k: nat)
    requires Clear(pool, orders).Ok? && Clear(pool, orders).value.Cleared? && f in Clear(pool, orders).value.fills
    ensures o in orders && o.orderNonce == f.orderNonce && OwnFill(pool, orders, o, k, f.amountOut)
  {
    hide Clear, SelectBatch, Buys, Sells, SettledEval;
    ClearedNamesSides(pool, orders);
    BatchFromOrders(orders);
    var c, batch := Clear(pool, orders).value, SelectBatch(orders);
    var buys, sells := Buys(batch, c.price), Sells(batch, c.price);
    k :| 0 <= k < |c.fills| && c.fills[k] == f;
    if k < |buys| {
      o := buys[k];
      FromBatch(batch, c.price, false, k);
    } else {
      o := sells[k - |buys|];
      assert c.fills[|buys| + (k - |buys|)] == c.fills[k];
      FromBatch(batch, c.price, true, k - |buys|);
    }
  }

  lemma FromBatch(batch: seq<Order>, p: nat, side: bool, i: nat)
    requires i < |Eligible(batch, side, p)|
    ensures Eligible(batch, side, p)[i] in batch && Eligible(batch, side, p)[i].side == side
  {}

  lemma CrossingHolds(pool: Pool, orders: seq<Order>, o: Order, k: nat, out: int)
    requires OwnFill(pool, orders, o, k, out)
    ensures CrossingPromise(pool, orders, o, out)
  {
    hide Clear, SettledEval;
    var p, ev := Clear(pool, orders).value.price, SettledEval(pool, orders);
    if !o.side && ev.netA <= 0 && p > 0 {
      CrossingBuyersGetPrice(pool, orders, k);
    } else if o.side && ev.netA >= 0 {
      assert |ev.eligibleBuys| + (k - |ev.eligibleBuys|) == k;
      CrossingSellersGetPrice(pool, orders, k - |ev.eligibleBuys|);
    }
  }

  lemma ToleranceHolds(pool: Pool, orders: seq<Order>, o: Order, k: nat, out: int)
    requires OwnFill(pool, orders, o, k, out)
    ensures TolerancePromise(pool, orders, o, out)
  {
    hide Clear, SettledEval, ToleranceFound, SelectBatch, FindPrice;
    var ev := SettledEval(pool, orders);
    if ToleranceFound(pool, orders) {
      FoundPrice(pool, orders);
      if !o.side && ev.netA > 0 && ev.swap.ammBOut > 0 {
        AmmBuyersGetPrice(pool, orders, k);
      } else if o.side && ev.netA < 0 {
        assert |ev.eligibleBuys| + (k - |ev.eligibleBuys|) == k;
        AmmSellerGetsPrice(pool, orders, k - |ev.eligibleBuys|);
      }
    }
  }

  lemma OneSidedHolds(pool: Pool, orders: seq<Order>, o: Order, k: nat, out: int)
    requires OwnFill(pool, orders, o, k, out)
    ensures OneSidedPromise(pool, orders, o, out)
  {
    hide Clear, SettledEval, ResizeGap, BuyBook, SellBook, PricedPool;
    if !o.side && BuyBook(orders) && o.amountIn > 0 {
      BuyerFloor(pool, orders, k);
    } else if o.side && SellBook(orders) && PricedPool(pool) && o.limitPrice > 0 {
      NoBuyersInSellBook(pool, orders);
      SellerFloor(pool, orders, k);
    }
  }

  /** A clearing keeps its promise to each order it fills. */
  lemma OwnFillKeepsPromise(pool: Pool, orders: seq<Order>, o: Order, k: nat, out: int)
    requires OwnFill(pool, orders, o, k, out)
    ensures KeepsPromise(pool, orders, o, out)
  {
    hide CrossingPromise, TolerancePromise, OneSidedPromise, Clear, SettledEval;
    CrossingHolds(pool, orders, o, k, out);
    ToleranceHolds(pool, orders, o, k, out);
    OneSidedHolds(pool, orders, o, k, out);
  }

  lemma FoundPrice(pool: Pool, orders: seq<Order>)
    requires Clear(pool, orders).Ok? && Clear(pool, orders).value.Cleared? && ToleranceFound(pool, orders)
    ensures HasSide(SelectBatch(orders), false) && HasSide(SelectBatch(orders), true)
    ensures FindPrice(pool, SelectBatch(orders)) == Ok(Found(Clear(pool, orders).value.price, WithinTolerance))
  {
    hide Clear, SelectBatch, FindPrice, RouteNet, SettleAt;
    ClearedUnfolds(pool, orders);
  }

  lemma NoBuyersInSellBook(pool: Pool, orders: seq<Order>)
    requires Clear(pool, orders).Ok? && Clear(pool, orders).value.Cleared? && SellBook(orders)
    ensures SettledEval(pool, orders).eligibleBuys == []
  {
    hide Clear, SettledEval, TotalIn, SellQuote, AfterFee;
    SellBookPrice(pool, orders);
  }

  /** The fill emitted under an order's nonce is its own fill in the pool the fill names. */
  lemma EmittedIsOwnFill(orders: seq<PathOrder>, pools: map<nat, Pool>, reg: seq<PoolEntry>, i: nat, pc: PoolClearing)
    returns (k: nat)
    requires DistinctBy(orders, PathNonce) && i < |orders|
    requires ClearMulti(orders, pools, reg).Ok? && ClearMulti(orders, pools, reg).value.MultiCleared?
    requires
      var r := ClearMulti(orders, pools, reg).value;
      var found := FindHop(r.fills, orders[i].order.orderNonce);
      found.Some? && pc in r.perPool && pc.poolId == found.value.poolId
    ensures
      var r, o := ClearMulti(orders, pools, reg).value, orders[i].order;
      var sub := SubOrders(orders, pools, reg, pc.poolId);
      && pc.poolId in pools && ClearV2(pools[pc.poolId], sub) == Ok(pc.result) && pc.result.ClearedV2?
      && OwnFill(pools[pc.poolId], sub, o, k, FindHop(r.fills, o.orderNonce).value.amountOut)
      && forall x :: x in sub ==> FromOrders(orders, x)
  {
    hide Clear, ClearV2, Emit, SubBatch, Dropped, RouteAll, SettledEval, PoolIds, ClearPools, Sort, OwnFill, FindFill,
         FindClearing, FindHop, DirectMember;
    var routed := RouteAll(reg, orders).value;
    var dropped := Dropped(routed);
    var ids := PoolIds(routed, dropped);
    var perPool := ClearPools(pools, routed, dropped, ids).value;
    PoolIdsDistinct(routed, dropped);
    ClearedPools(pools, routed, dropped, ids);
    SortedMember(perPool, pc);
    FindClearingIn(perPool, pc);
    RoutedShape(orders, reg);
    EmittedFillFor(routed, dropped, perPool, i);
    var pool, sub := pools[pc.poolId], SubBatch(routed, dropped, pc.poolId);
    V2Fills(pool, sub);
    var f := FindFill(pc.result.fills, orders[i].order.orderNonce).value;
    var o;
    o, k := FillHasOrder(pool, sub, f);
    SubBatchDistinct(routed, dropped, pc.poolId);
    MemberByNonce(routed, dropped, pc.poolId, o, i);
    forall x | x in sub
      ensures FromOrders(orders, x)
    {
      MemberFromOrders(orders, routed, dropped, pc.poolId, x);
    }
  }

  ghost predicate FromOrders(orders: seq<PathOrder>, x: Order) {
    exists j :: 0 <= j < |orders| && orders[j].order == x
  }

  lemma MemberFromOrders(orders: seq<PathOrder>, routed: seq<Routed>, dropped: set<int>, pid: nat, x: Order)
    requires |routed| == |orders| && forall j :: 0 <= j < |orders| ==> routed[j].order == orders[j].order
    requires DirectMember(routed, dropped, pid, x)
    ensures FromOrders(orders, x)
  {
    var j :| 0 <= j < |routed| && routed[j].order == x && DirectIn(routed[j], dropped, pid);
    assert orders[j].order == x;
  }

  lemma V2Fills(pool: Pool, orders: seq<Order>)
    requires ClearV2(pool, orders).Ok? && ClearV2(pool, orders).value.ClearedV2?
    ensures Clear(pool, orders).Ok? && Clear(pool, orders).value.Cleared?
    ensures Clear(pool, orders).value.fills == ClearV2(pool, orders).value.fills
  {
    hide Clear, StatesBefore, StatesAfter;
  }

  lemma MemberByNonce(routed: seq<Routed>, dropped: set<int>, pid: nat, o: Order, i: nat)
    requires DistinctBy(routed, RoutedNonce) && i < |routed|
    requires DirectMember(routed, dropped, pid, o) && o.orderNonce == routed[i].order.orderNonce
    ensures o == routed[i].order
  {
    var j :| 0 <= j < |routed| && routed[j].order == o && DirectIn(routed[j], dropped, pid);
    assert i < j ==> RoutedNonce(routed[i]) != RoutedNonce(routed[j]);
    assert j < i ==> RoutedNonce(routed[j]) != RoutedNonce(routed[i]);
  }

  // ------------------------------------------------------------- the leaf

  /** A leaf of the remapped fills pays the order whose nonce it carries, in the pool of its slot. */
  lemma LeafPays(orders: seq<PathOrder>, pools: map<nat, Pool>, reg: seq<PoolEntry>, i: nat, slot: nat)
    returns (k: nat)
    requires DistinctBy(orders, PathNonce) && i < |orders|
    requires ClearMulti(orders, pools, reg).Ok? && ClearMulti(orders, pools, reg).value.MultiCleared?
    requires
      var r := ClearMulti(orders, pools, reg).value;
      && RemapAll(r.fills, r.perPool).Ok?
      && var leaf := FindLeaf(ToLeaves(RemapAll(r.fills, r.perPool).value), orders[i].order.orderNonce);
         leaf.Some? && leaf.value.poolId == slot
    ensures
      var r, o := ClearMulti(orders, pools, reg).value, orders[i].order;
      && slot < |r.perPool| && r.perPool[slot].poolId in pools
      && var pc := r.perPool[slot];
         var pool, sub := pools[pc.poolId], SubOrders(orders, pools, reg, pc.poolId);
         var out := FindLeaf(ToLeaves(RemapAll(r.fills, r.perPool).value), o.orderNonce).value.amountOut;
         && ClearV2(pool, sub) == Ok(pc.result) && (forall x :: x in sub ==> FromOrders(orders, x))
         && OwnFill(pool, sub, o, k, out) && KeepsPromise(pool, sub, o, out)
  {
    hide ClearMulti, RemapAll, ToLeaves, Clear, ClearV2, SubOrders, OwnFill, KeepsPromise, FindLeaf, FindHop, SlotOf,
         FromOrders, DistinctBy, PathNonce;
    var r, o := ClearMulti(orders, pools, reg).value, orders[i].order;
    LeafIsFill(r.fills, r.perPool, o.orderNonce);
    var pc := r.perPool[slot];
    k := EmittedIsOwnFill(orders, pools, reg, i, pc);
    var out := FindLeaf(ToLeaves(RemapAll(r.fills, r.perPool).value), o.orderNonce).value.amountOut;
    OwnFillKeepsPromise(pools[pc.poolId], SubOrders(orders, pools, reg, pc.poolId), o, k, out);
  }
}
