/**
 Who is paid: exactly which committed orders have a leaf in a submission, on what batch
 their pool was cleared, and to whom the leaf belongs. An order's pool, its dust floor
 and its limit decide, and nothing else.
 */
module Entitlement {
  import opened FixedPoint
  import opened Sequences
  import opened Swap
  import opened Price
  import opened Clearing
  import opened Conservation
  import opened Reveals
  import opened Registry
  import opened MultiPair
  import opened Settlement
  import opened Slots
  import opened Cycle
  import opened Pipeline
  import opened Payouts

  /** A direct order above the dust floor whose token pair is the pool's. */
  predicate Joins(reg: seq<PoolEntry>, o: PathOrder, pid: nat) {
    o.pathLen == 2 && o.order.amountIn >= 100_000 && ResolvePoolId(reg, o.path.0, o.path.1) == pid
  }

  /** The orders a pool is cleared on, as they stand in the list. */
  function PoolBatch(reg: seq<PoolEntry>, orders: seq<PathOrder>, pid: nat): seq<Order> {
    if |orders| == 0 then []
    else
      var earlier, last := PoolBatch(reg, orders[..|orders| - 1], pid), orders[|orders| - 1];
      if Joins(reg, last, pid) then earlier + [last.order] else earlier
  }

  /** Whether a pool's clearing fills the order: it is in the batch and its limit accepts the price. */
  predicate Fills(pool: Pool, orders: seq<Order>, o: Order) {
    && Clear(pool, orders).Ok? && Clear(pool, orders).value.Cleared? && o in SelectBatch(orders)
    && if o.side then o.limitPrice <= Clear(pool, orders).value.price
       else o.limitPrice >= Clear(pool, orders).value.price
  }

  /** The order joins a pool, and the pool, cleared on everything that joins it, fills it. */
  predicate Earns(pools: map<nat, Pool>, reg: seq<PoolEntry>, orders: seq<PathOrder>, o: PathOrder, pid: nat) {
    Joins(reg, o, pid) && pid in pools && Fills(pools[pid], PoolBatch(reg, orders, pid), o.order)
  }

  // ------------------------------------------------------------- the sub-batch

  /** The routing of an order list, and which of its orders are dropped, order by order. */
  ghost predicate RoutedAs(reg: seq<PoolEntry>, orders: seq<PathOrder>, routed: seq<Routed>, dropped: set<int>) {
    && |routed| == |orders|
    && forall i :: 0 <= i < |orders| ==>
         && routed[i].order == orders[i].order && routed[i].pathLen == orders[i].pathLen
         && Hops(reg, orders[i].path, orders[i].pathLen - 1) == Ok(routed[i].hops)
         && (orders[i].order.orderNonce in dropped <==> IsDropped(routed[i]))
  }

  lemma OneHop(reg: seq<PoolEntry>, path: Path)
    ensures
      var pid := ResolvePoolId(reg, path.0, path.1);
      Hops(reg, path, 1) == if pid < 0 then Err(NoPool) else Ok([pid])
  {
    hide ResolvePoolId;
    assert Hops(reg, path, 0) == Ok([]);
    assert [] + [ResolvePoolId(reg, path.0, path.1)] == [ResolvePoolId(reg, path.0, path.1)];
  }

  lemma DirectJoins(reg: seq<PoolEntry>, o: PathOrder, r: Routed, dropped: set<int>, pid: nat)
    requires r.order == o.order && r.pathLen == o.pathLen && Hops(reg, o.path, o.pathLen - 1) == Ok(r.hops)
    requires o.order.orderNonce in dropped <==> IsDropped(r)
    ensures DirectIn(r, dropped, pid) <==> Joins(reg, o, pid)
  {
    hide Hops, ResolvePoolId;
    OneHop(reg, o.path);
  }

  lemma {:induction false} SubBatchIs(reg: seq<PoolEntry>, orders: seq<PathOrder>, routed: seq<Routed>,
                                      dropped: set<int>, pid: nat)
    requires RoutedAs(reg, orders, routed, dropped) && SurvivorsAreDirect(routed, dropped)
    ensures SubBatch(routed, dropped, pid) == PoolBatch(reg, orders, pid)
  {
    hide Hops, IsDropped, SubBatch, DirectIn, Joins;
    if |orders| > 0 {
      var n := |orders| - 1;
      assert SurvivorsAreDirect(routed[..n], dropped);
      SubBatchIs(reg, orders[..n], routed[..n], dropped, pid);
      SubBatchStep(routed, dropped, pid);
      DirectJoins(reg, orders[n], routed[n], dropped, pid);
    } else {
      NoSubBatch(dropped, pid);
    }
  }

  lemma RoutingIs(reg: seq<PoolEntry>, orders: seq<PathOrder>)
    requires RouteAll(reg, orders).Ok? && DistinctBy(orders, PathNonce)
    ensures
      var routed := RouteAll(reg, orders).value;
      RoutedAs(reg, orders, routed, Dropped(routed)) && SurvivorsAreDirect(routed, Dropped(routed))
  {
    hide Hops, IsDropped;
    RoutedShape(orders, reg);
    var routed := RouteAll(reg, orders).value;
    forall i | 0 <= i < |orders|
      ensures orders[i].order.orderNonce in Dropped(routed) <==> IsDropped(routed[i])
    {
      if orders[i].order.orderNonce in Dropped(routed) {
        var j :| 0 <= j < |routed| && IsDropped(routed[j]) && routed[j].order.orderNonce == orders[i].order.orderNonce;
        assert i < j ==> RoutedNonce(routed[i]) != RoutedNonce(routed[j]);
        assert j < i ==> RoutedNonce(routed[j]) != RoutedNonce(routed[i]);
      }
    }
  }

  /** What a pool is cleared on, exactly: the direct orders of its pair above the dust floor. */
  lemma SubOrdersAre(orders: seq<PathOrder>, pools: map<nat, Pool>, reg: seq<PoolEntry>, pid: nat)
    requires DistinctBy(orders, PathNonce) && ClearMulti(orders, pools, reg).Ok?
    ensures SubOrders(orders, pools, reg, pid) == PoolBatch(reg, orders, pid)
  {
    hide SubBatch, RoutedAs, SurvivorsAreDirect, Dropped, RouteAll, ClearPools, PoolIds, Emit, Sort;
    RoutingIs(reg, orders);
    SubBatchIs(reg, orders, RouteAll(reg, orders).value, Dropped(RouteAll(reg, orders).value), pid);
  }

  // ----------------------------------------------------------- who has a fill

  /** A clearing has a fill under an order's nonce exactly when it fills the order. */
  lemma FillExactly(pool: Pool, orders: seq<Order>, o: Order)
    requires Clear(pool, orders).Ok? && Clear(pool, orders).value.Cleared?
    requires DistinctBy(orders, Nonce) && o in orders
    ensures FindFill(Clear(pool, orders).value.fills, o.orderNonce).Some? <==> Fills(pool, orders, o)
  {
    hide Clear, SelectBatch, Buys, Sells, SettledEval, FindFill, NamesSides;
    var c, batch := Clear(pool, orders).value, SelectBatch(orders);
    ClearedNamesSides(pool, orders);
    BatchDistinct(orders);
    if o in batch {
      FillIffEligible(batch, c.price, c.fills, o);
    } else if FindFill(c.fills, o.orderNonce).Some? {
      var e := FillNamesOrder(batch, c.price, c.fills, FindFill(c.fills, o.orderNonce).value);
      MemberOf(orders, e);
      SameNonceSameOrder(orders, e, o);
      assert false;
    }
    if o in batch {
      EligibleSides(o, c.price);
    }
  }

  lemma EligibleSides(o: Order, p: nat)
    ensures EligibleOn(o.side, o, p) <==> if o.side then o.limitPrice <= p else o.limitPrice >= p
  {}

  lemma MemberOf(orders: seq<Order>, o: Order)
    requires o in SelectBatch(orders)
    ensures o in orders
  {
    SortPermutes(orders, Fifo);
    assert o in multiset(Sort(orders, Fifo));
  }

  lemma BatchDistinct(orders: seq<Order>)
    requires DistinctBy(orders, Nonce)
    ensures DistinctBy(SelectBatch(orders), Nonce)
  {
    var rest := LeftOut(orders);
  }

  /**
   The router emits a fill for an order exactly when the order is direct and above the
   dust floor, and the pool of its pair, cleared on its own batch, fills it.
   */
  lemma EmittedExactly(orders: seq<PathOrder>, pools: map<nat, Pool>, reg: seq<PoolEntry>, i: nat)
    requires DistinctBy(orders, PathNonce) && i < |orders|
    requires ClearMulti(orders, pools, reg).Ok? && ClearMulti(orders, pools, reg).value.MultiCleared?
    ensures
      var o := orders[i];
      FindHop(ClearMulti(orders, pools, reg).value.fills, o.order.orderNonce).Some?
      <==> exists pid :: Earns(pools, reg, orders, o, pid)
  {
    hide Clear, ClearV2, Emit, SubBatch, Dropped, RouteAll, PoolIds, ClearPools, Sort, FindFill, FindHop,
         DirectMember, Hops, IsDropped, Fills, Joins, PoolBatch;
    var routed := RouteAll(reg, orders).value;
    var dropped := Dropped(routed);
    var o, ids := orders[i], PoolIds(routed, dropped);
    var perPool := ClearPools(pools, routed, dropped, ids).value;
    RoutingIs(reg, orders);
    RoutedShape(orders, reg);
    EmittedFillFor(routed, dropped, perPool, i);
    if o.order.orderNonce !in dropped {
      var pid := routed[i].hops[0];
      assert routed[i].hops == [pid];
      DirectJoins(reg, o, routed[i], dropped, pid);
      SubBatchIs(reg, orders, routed, dropped, pid);
      SurvivorIsVisited(routed, dropped, i, pid);
      PoolFillExactly(pools, routed, dropped, i, pid);
      assert Earns(pools, reg, orders, o, pid) <==> FillFor(routed[i], dropped, perPool).Some?;
    }
    forall pid: nat | Earns(pools, reg, orders, o, pid)
      ensures DirectIn(routed[i], dropped, pid)
    {
      DirectJoins(reg, o, routed[i], dropped, pid);
    }
  }

  lemma PoolFillExactly(pools: map<nat, Pool>, routed: seq<Routed>, dropped: set<int>, i: nat, pid: nat)
    requires DistinctBy(routed, RoutedNonce) && SurvivorsAreDirect(routed, dropped) && i < |routed|
    requires DirectIn(routed[i], dropped, pid) && pid in PoolIds(routed, dropped)
    requires ClearPools(pools, routed, dropped, PoolIds(routed, dropped)).Ok?
    ensures
      var perPool := ClearPools(pools, routed, dropped, PoolIds(routed, dropped)).value;
      FillFor(routed[i], dropped, perPool).Some?
      <==> pid in pools && Fills(pools[pid], SubBatch(routed, dropped, pid), routed[i].order)
  {
    hide Clear, ClearV2, SubBatch, PoolIds, ClearPools, FindFill, FindClearing, Fills;
    var ids, o := PoolIds(routed, dropped), routed[i].order;
    var perPool := ClearPools(pools, routed, dropped, ids).value;
    PoolIdsDistinct(routed, dropped);
    ClearedPools(pools, routed, dropped, ids);
    SubBatchDistinct(routed, dropped, pid);
    var sub := SubBatch(routed, dropped, pid);
    DirectIsMember(routed, dropped, pid, i);
    if pid in pools {
      ClearedIsKept(pools, routed, dropped, ids, pid);
      ClearsAlike(pools[pid], sub);
      var c := ClearV2(pools[pid], sub).value;
      if c.ClearedV2? {
        FindClearingIn(perPool, PoolClearing(pid, c));
        FillExactly(pools[pid], sub, o);
      } else {
        NotFilled(pools[pid], sub, o);
      }
    }
  }

  lemma NotFilled(pool: Pool, orders: seq<Order>, o: Order)
    requires Clear(pool, orders) == Ok(Skipped)
    ensures !Fills(pool, orders, o)
  {}

  /** The clearing with deltas clears when the plain one does, with the same fills. */
  lemma ClearsAlike(pool: Pool, orders: seq<Order>)
    requires ClearV2(pool, orders).Ok?
    ensures Clear(pool, orders).Ok?
    ensures
      var c, v := Clear(pool, orders).value, ClearV2(pool, orders).value;
      && (v.SkippedV2? <==> c == Skipped) && (v.ClearedV2? <==> c.Cleared?)
      && (v.ClearedV2? ==> v.fills == c.fills && v.price == c.price)
  {
    hide Clear, StatesBefore, StatesAfter;
  }

  lemma {:induction false} DirectIsMember(routed: seq<Routed>, dropped: set<int>, pid: nat, i: nat)
    requires SurvivorsAreDirect(routed, dropped) && i < |routed| && DirectIn(routed[i], dropped, pid)
    ensures routed[i].order in SubBatch(routed, dropped, pid)
  {
    hide SubBatch, DirectIn;
    var n := |routed| - 1;
    assert SurvivorsAreDirect(routed[..n], dropped);
    SubBatchStep(routed, dropped, pid);
    if i < n {
      DirectIsMember(routed[..n], dropped, pid, i);
    }
  }

  // ------------------------------------------------------------- as submitted

  /** A committed order that is direct, above the dust floor, and routed to the pool. */
  predicate Enters(w: World, v: Reveal, pid: nat) {
    && RouteOf(w, v).Ok? && RouteOf(w, v).value.pathLen == 2 && v.amountIn >= 100_000
    && ResolvePoolId(w.reg, RouteOf(w, v).value.routingPath.0, RouteOf(w, v).value.routingPath.1) == pid
  }

  /** The committed orders that enter a pool, in the order of commitment. */
  function Entrants(w: World, committed: seq<Reveal>, pid: nat): seq<Order> {
    if |committed| == 0 then []
    else
      var earlier, last := Entrants(w, committed[..|committed| - 1], pid), committed[|committed| - 1];
      if Enters(w, last, pid) then earlier + [OrderOf(last)] else earlier
  }

  /** The committed order enters a known pool, and that pool, cleared on its entrants, fills it. */
  predicate Entitled(w: World, committed: seq<Reveal>, v: Reveal, pid: nat) {
    Enters(w, v, pid) && pid in w.pools && Fills(w.pools[pid], Entrants(w, committed, pid), OrderOf(v))
  }

  /** What the clearing reads of a committed order is what was committed. */
  lemma OrderKeepsFields(v: Reveal)
    ensures
      var o := OrderOf(v);
      && o.side == v.side && o.owner == v.owner && o.orderNonce == v.orderNonce
      && o.submittedAtBlock == v.submittedAtBlock
      && (v.amountIn >= 0 ==> o.amountIn == v.amountIn) && (v.limitPrice >= 0 ==> o.limitPrice == v.limitPrice)
  {}

  lemma JoinsIsEnters(w: World, v: Reveal, r: RoutedPath, pid: nat)
    requires RouteOf(w, v) == Ok(r)
    ensures Joins(w.reg, ToOrder(v, r), pid) <==> Enters(w, v, pid)
  {
    hide RouteOf, ResolvePoolId;
  }

  lemma {:induction false} BatchIsEntrants(w: World, vs: seq<Reveal>, routes: seq<RoutedPath>, pid: nat)
    requires |routes| == |vs| && forall i :: 0 <= i < |routes| ==> RouteOf(w, vs[i]) == Ok(routes[i])
    ensures PoolBatch(w.reg, ToOrders(vs, routes), pid) == Entrants(w, vs, pid)
  {
    hide RouteOf, Joins, Enters, OrderOf;
    if |vs| > 0 {
      var n := |vs| - 1;
      BatchIsEntrants(w, vs[..n], routes[..n], pid);
      assert ToOrders(vs, routes)[..n] == ToOrders(vs[..n], routes[..n]);
      JoinsIsEnters(w, vs[n], routes[n], pid);
    }
  }

  /** An order that enters a pool is routed there, so the pool's state is read. */
  lemma EntersByHop(w: World, v: Reveal, r: RoutedPath, pid: nat)
    requires RouteOf(w, v) == Ok(r) && Enters(w, v, pid)
    ensures r.hops == [pid]
  {
    hide Hops, ResolvePoolId, FallbackEntry;
    OneHop(w.reg, r.routingPath);
  }

  /**
   Who is paid. When a cycle submits, a committed order has a leaf exactly when it is
   direct and above the dust floor, its pool is known, and that pool, cleared on the
   committed orders that enter it, has it in its batch at a price its limit accepts.
   */
  lemma SubmittedLeafExactly(w: World, epoch: EpochInfo, payloads: seq<Payload>, committed: seq<Reveal>, i: nat)
    requires Injective(w.h) && NeverZero(w.h) && epoch.orderAcc == OrderAcc(w.h, Cis(w.h, committed))
    requires epoch.orderCount > 0 && DistinctBy(committed, RevealNonce) && i < |committed|
    requires Plan(w, epoch, payloads).Ok? && Plan(w, epoch, payloads).value.Settle?
    ensures
      var v := committed[i];
      FindLeaf(Plan(w, epoch, payloads).value.public.fills, v.orderNonce).Some?
      <==> exists pid :: Entitled(w, committed, v, pid)
  {
    hide Plan, Accepted, ClearMulti, Commit, OrderAcc, Cis, RemapAll, ToLeaves, Injective, NeverZero, FindLeaf, FlowsOf,
         Earns, Entitled, RouteOf, OrderOf, DistinctBy, ToOrders;
    var public, v := Plan(w, epoch, payloads).value.public, committed[i];
    var routes, active, fills := SettledPlan(w, epoch, payloads);
    AcceptedNonEmpty(w, epoch, payloads);
    AcceptedIsCommitted(w, epoch, payloads, committed);
    OrdersDistinct(committed, routes);
    CommitKeepsPools(w, epoch, public.pools, fills);
    OrderAt(committed, routes, i);
    LeafExactly(ToOrders(committed, routes), active, w.reg, i);
    EntitledAlike(w, committed, routes, active, i);
  }

  lemma LeafExactly(orders: seq<PathOrder>, pools: map<nat, Pool>, reg: seq<PoolEntry>, i: nat)
    requires DistinctBy(orders, PathNonce) && i < |orders|
    requires ClearMulti(orders, pools, reg).Ok? && ClearMulti(orders, pools, reg).value.MultiCleared?
    requires
      var r := ClearMulti(orders, pools, reg).value;
      RemapAll(r.fills, r.perPool).Ok?
    ensures
      var r := ClearMulti(orders, pools, reg).value;
      FindLeaf(ToLeaves(RemapAll(r.fills, r.perPool).value), orders[i].order.orderNonce).Some?
      <==> exists pid :: Earns(pools, reg, orders, orders[i], pid)
  {
    hide ClearMulti, RemapAll, ToLeaves, FindLeaf, FindHop, Earns, SlotOf, DistinctBy;
    var r := ClearMulti(orders, pools, reg).value;
    EmittedExactly(orders, pools, reg, i);
    LeafIsFill(r.fills, r.perPool, orders[i].order.orderNonce);
  }

  lemma EntitledAlike(w: World, committed: seq<Reveal>, routes: seq<RoutedPath>, active: map<nat, Pool>, i: nat)
    requires |routes| == |committed| && i < |committed|
    requires forall j :: 0 <= j < |routes| ==> RouteOf(w, committed[j]) == Ok(routes[j])
    requires forall pid :: pid in active ==> pid in w.pools && w.pools[pid] == active[pid]
    requires forall j, pid :: 0 <= j < |routes| && pid in routes[j].hops && pid in w.pools ==> pid in active
    ensures
      var orders := ToOrders(committed, routes);
      (exists pid :: Earns(active, w.reg, orders, orders[i], pid))
      <==> exists pid :: Entitled(w, committed, committed[i], pid)
  {
    hide Earns, Entitled, RouteOf, ToOrders;
    var orders := ToOrders(committed, routes);
    forall pid: nat
      ensures Earns(active, w.reg, orders, orders[i], pid) <==> Entitled(w, committed, committed[i], pid)
    {
      SameEntitlement(w, committed, routes, active, i, pid);
    }
  }

  lemma SameEntitlement(w: World, committed: seq<Reveal>, routes: seq<RoutedPath>, active: map<nat, Pool>, i: nat,
                        pid: nat)
    requires |routes| == |committed| && i < |committed|
    requires forall j :: 0 <= j < |routes| ==> RouteOf(w, committed[j]) == Ok(routes[j])
    requires pid in active ==> pid in w.pools && w.pools[pid] == active[pid]
    requires pid in routes[i].hops && pid in w.pools ==> pid in active
    ensures
      var orders := ToOrders(committed, routes);
      Earns(active, w.reg, orders, orders[i], pid) <==> Entitled(w, committed, committed[i], pid)
  {
    hide Fills, Joins, Enters, Entrants, PoolBatch, RouteOf, OrderOf, ToOrders;
    OrderAt(committed, routes, i);
    OrderAtIs(committed, routes, i);
    JoinsIsEnters(w, committed[i], routes[i], pid);
    BatchIsEntrants(w, committed, routes, pid);
    if Enters(w, committed[i], pid) {
      EntersByHop(w, committed[i], routes[i], pid);
      assert pid in routes[i].hops;
    }
  }

  lemma OrderAtIs(committed: seq<Reveal>, routes: seq<RoutedPath>, i: nat)
    requires |routes| == |committed| && i < |committed|
    ensures ToOrders(committed, routes)[i] == ToOrder(committed[i], routes[i])
  {}

  /** The order is the reading of one of the committed reveals. */
  ghost predicate IsCommitted(committed: seq<Reveal>, o: Order) {
    exists j :: 0 <= j < |committed| && OrderOf(committed[j]) == o
  }

  lemma {:induction false} EntrantsAreCommitted(w: World, committed: seq<Reveal>, pid: nat, o: Order)
    requires o in Entrants(w, committed, pid)
    ensures IsCommitted(committed, o)
  {
    hide Enters, OrderOf;
    var n := |committed| - 1;
    if o in Entrants(w, committed[..n], pid) {
      EntrantsAreCommitted(w, committed[..n], pid, o);
      var j :| 0 <= j < n && OrderOf(committed[..n][j]) == o;
      assert OrderOf(committed[j]) == o;
    } else {
      assert OrderOf(committed[n]) == o;
    }
  }

  /**
   Suppose a cycle submits and a leaf of the submission carries a committed order's nonce.
   Then the leaf is its owner's, in the slot of the pool the order enters; that pool was
   cleared on exactly the committed orders that enter it; the leaf pays the order's own
   fill in that clearing, and so the clearing's promise to the order holds of the leaf.
   */
  lemma SubmittedLeafPays(w: World, epoch: EpochInfo, payloads: seq<Payload>, committed: seq<Reveal>, i: nat)
    returns (k: nat)
    requires Injective(w.h) && NeverZero(w.h) && epoch.orderAcc == OrderAcc(w.h, Cis(w.h, committed))
    requires epoch.orderCount > 0 && DistinctBy(committed, RevealNonce) && i < |committed|
    requires Plan(w, epoch, payloads).Ok? && Plan(w, epoch, payloads).value.Settle?
    requires FindLeaf(Plan(w, epoch, payloads).value.public.fills, committed[i].orderNonce).Some?
    ensures
      var public, v := Plan(w, epoch, payloads).value.public, committed[i];
      var leaf, o := FindLeaf(public.fills, v.orderNonce).value, OrderOf(v);
      && leaf.owner == v.owner && leaf.orderNonce == v.orderNonce && leaf.hopIndex == 0
      && leaf.poolId < |public.pools| && public.pools[leaf.poolId].poolId in w.pools
      && var pc := public.pools[leaf.poolId];
         var pool, sub := w.pools[pc.poolId], Entrants(w, committed, pc.poolId);
         && Enters(w, v, pc.poolId) && ClearV2(pool, sub) == Ok(pc.result)
         && (forall x :: x in sub ==> IsCommitted(committed, x))
         && OwnFill(pool, sub, o, k, leaf.amountOut) && KeepsPromise(pool, sub, o, leaf.amountOut)
  {
    hide Plan, Accepted, ClearMulti, Commit, OrderAcc, Cis, RemapAll, ToLeaves, Injective, NeverZero, FindLeaf, FlowsOf,
         Joins, Enters, Entrants, PoolBatch, RouteOf, OrderOf, DistinctBy, ToOrders, ClearV2, SubOrders, OwnFill,
         KeepsPromise, FromOrders, IsCommitted;
    var public, v := Plan(w, epoch, payloads).value.public, committed[i];
    var routes, active, fills := SettledPlan(w, epoch, payloads);
    AcceptedNonEmpty(w, epoch, payloads);
    AcceptedIsCommitted(w, epoch, payloads, committed);
    OrdersDistinct(committed, routes);
    CommitKeepsPools(w, epoch, public.pools, fills);
    OrderAt(committed, routes, i);
    var slot := FindLeaf(public.fills, v.orderNonce).value.poolId;
    var orders := ToOrders(committed, routes);
    k := LeafPays(orders, active, w.reg, i, slot);
    var pid := public.pools[slot].poolId;
    SubOrdersAre(orders, active, w.reg, pid);
    BatchIsEntrants(w, committed, routes, pid);
    LeafNames(w, committed, routes, active, i);
    forall x | x in Entrants(w, committed, pid)
      ensures IsCommitted(committed, x)
    {
      EntrantsAreCommitted(w, committed, pid, x);
    }
  }

  lemma LeafNames(w: World, committed: seq<Reveal>, routes: seq<RoutedPath>, active: map<nat, Pool>, i: nat)
    requires |routes| == |committed| && i < |committed| && RouteOf(w, committed[i]) == Ok(routes[i])
    requires DistinctBy(ToOrders(committed, routes), PathNonce)
    requires
      var m := ClearMulti(ToOrders(committed, routes), active, w.reg);
      m.Ok? && m.value.MultiCleared? && RemapAll(m.value.fills, m.value.perPool).Ok?
    requires
      var r := ClearMulti(ToOrders(committed, routes), active, w.reg).value;
      FindLeaf(ToLeaves(RemapAll(r.fills, r.perPool).value), committed[i].orderNonce).Some?
    ensures
      var r, v := ClearMulti(ToOrders(committed, routes), active, w.reg).value, committed[i];
      var leaf := FindLeaf(ToLeaves(RemapAll(r.fills, r.perPool).value), v.orderNonce).value;
      && leaf.owner == v.owner && leaf.orderNonce == v.orderNonce && leaf.hopIndex == 0
      && leaf.poolId < |r.perPool| && Enters(w, v, r.perPool[leaf.poolId].poolId)
  {
    hide ClearMulti, RemapAll, ToLeaves, FindLeaf, FindHop, SlotOf, DistinctBy, Joins, Enters, RouteOf, ToOrders;
    var r, v := ClearMulti(ToOrders(committed, routes), active, w.reg).value, committed[i];
    OrderAtIs(committed, routes, i);
    LeafIsFill(r.fills, r.perPool, v.orderNonce);
    EmittedNames(ToOrders(committed, routes), active, w.reg, i);
    JoinsIsEnters(w, v, routes[i], FindHop(r.fills, v.orderNonce).value.poolId);
  }

  lemma OrderAt(committed: seq<Reveal>, routes: seq<RoutedPath>, i: nat)
    requires |routes| == |committed| && i < |committed|
    ensures ToOrders(committed, routes)[i].order == OrderOf(committed[i])
    ensures OrderOf(committed[i]).orderNonce == committed[i].orderNonce
  {}

  /** The fill emitted under an order's nonce names its owner and the pool it joins. */
  lemma EmittedNames(orders: seq<PathOrder>, pools: map<nat, Pool>, reg: seq<PoolEntry>, i: nat)
    requires DistinctBy(orders, PathNonce) && i < |orders|
    requires ClearMulti(orders, pools, reg).Ok? && ClearMulti(orders, pools, reg).value.MultiCleared?
    requires FindHop(ClearMulti(orders, pools, reg).value.fills, orders[i].order.orderNonce).Some?
    ensures
      var f := FindHop(ClearMulti(orders, pools, reg).value.fills, orders[i].order.orderNonce).value;
      f.owner == orders[i].order.owner && f.hopIndex == 0 && Joins(reg, orders[i], f.poolId)
  {
    hide ClearV2, Emit, SubBatch, Dropped, RouteAll, PoolIds, ClearPools, Sort, FindFill, FindHop, FindClearing, Hops,
         IsDropped, Joins;
    var routed := RouteAll(reg, orders).value;
    var dropped := Dropped(routed);
    var perPool := ClearPools(pools, routed, dropped, PoolIds(routed, dropped)).value;
    RoutingIs(reg, orders);
    RoutedShape(orders, reg);
    EmittedFillFor(routed, dropped, perPool, i);
    var pid := routed[i].hops[0];
    assert routed[i].hops == [pid];
    DirectJoins(reg, orders[i], routed[i], dropped, pid);
  }
}
