/**
 That the plan does settle: once the committed orders are accepted, routed, and their
 pools known and cleared without an error, the epoch is settled exactly when some pool
 clears, and otherwise reported as not crossing. Nothing after the clearing stops it.
 */
module Settling {
  import opened FixedPoint
  import opened Sequences
  import opened Swap
  import opened Clearing
  import opened Reveals
  import opened Registry
  import opened MultiPair
  import opened Settlement
  import opened Slots
  import opened Merkle
  import opened Cycle
  import opened Pipeline
  import opened Entitlement

  // --------------------------------------------------------------- the routing

  lemma {:induction false} RevealsRoute(w: World, vs: seq<Reveal>, entry: PoolEntry)
    requires FallbackEntry(w.reg) == Some(entry) && forall v :: v in vs ==> RouteOf(w, v).Ok?
    ensures
      var routes := RouteReveals(w.reg, vs, (entry.tokenAFull, entry.tokenBFull, 0));
      routes.Ok? && forall i :: 0 <= i < |vs| ==> RouteOf(w, vs[i]) == Ok(routes.value[i])
  {
    hide RevealRoute, FallbackEntry;
    if |vs| > 0 {
      var last := vs[|vs| - 1];
      RevealsRoute(w, vs[..|vs| - 1], entry);
      assert RouteOf(w, last) == RevealRoute(w.reg, last.pathLen, NaturalPath(last.path),
                                             (entry.tokenAFull, entry.tokenBFull, 0));
    }
  }

  lemma {:induction false} VisitedBySurvivor(routed: seq<Routed>, dropped: set<int>, pid: nat)
    requires pid in PoolIds(routed, dropped) && SurvivorsAreDirect(routed, dropped)
    ensures exists i :: 0 <= i < |routed| && DirectIn(routed[i], dropped, pid)
  {
    var n := |routed| - 1;
    var earlier := PoolIds(routed[..n], dropped);
    assert SurvivorsAreDirect(routed[..n], dropped);
    if pid in earlier {
      VisitedBySurvivor(routed[..n], dropped, pid);
      var i :| 0 <= i < n && DirectIn(routed[..n][i], dropped, pid);
      assert DirectIn(routed[i], dropped, pid);
    } else {
      AddPoolsFrom(earlier, routed[n].hops, pid);
      assert routed[n].hops == [pid];
      assert DirectIn(routed[n], dropped, pid);
    }
  }

  // -------------------------------------------------------------- the clearings

  lemma {:induction false} PoolsClear(pools: map<nat, Pool>, routed: seq<Routed>, dropped: set<int>, ids: seq<nat>)
    requires forall pid :: pid in ids && pid in pools ==> ClearV2(pools[pid], SubBatch(routed, dropped, pid)).Ok?
    ensures ClearPools(pools, routed, dropped, ids).Ok?
  {
    hide ClearV2, SubBatch;
    if |ids| > 0 {
      PoolsClear(pools, routed, dropped, ids[..|ids| - 1]);
    }
  }

  /** Some order joins the pool, and the pool clears. */
  ghost predicate SomeoneClears(pools: map<nat, Pool>, reg: seq<PoolEntry>, orders: seq<PathOrder>, pid: nat) {
    && pid in pools && (exists i :: 0 <= i < |orders| && Joins(reg, orders[i], pid))
    && ClearV2(pools[pid], PoolBatch(reg, orders, pid)).Ok?
    && ClearV2(pools[pid], PoolBatch(reg, orders, pid)).value.ClearedV2?
  }

  /** The router succeeds when every pool it clears does, and clears exactly when one of them clears. */
  lemma RouterClears(orders: seq<PathOrder>, pools: map<nat, Pool>, reg: seq<PoolEntry>)
    requires DistinctBy(orders, PathNonce) && RouteAll(reg, orders).Ok?
    requires forall i, pid :: 0 <= i < |orders| && Joins(reg, orders[i], pid) && pid in pools ==>
      ClearV2(pools[pid], PoolBatch(reg, orders, pid)).Ok?
    ensures ClearMulti(orders, pools, reg).Ok?
    ensures ClearMulti(orders, pools, reg).value.MultiCleared? <==>
      exists pid :: SomeoneClears(pools, reg, orders, pid)
  {
    hide ClearV2, SubBatch, PoolBatch, Joins, IsDropped, Hops, Dropped, Emit, Sort, PoolIds, SurvivorsAreDirect;
    var routed := RouteAll(reg, orders).value;
    var dropped := Dropped(routed);
    var ids := PoolIds(routed, dropped);
    RoutingIs(reg, orders);
    forall pid | pid in ids
      ensures exists i :: 0 <= i < |orders| && Joins(reg, orders[i], pid)
      ensures SubBatch(routed, dropped, pid) == PoolBatch(reg, orders, pid)
    {
      SubBatchIs(reg, orders, routed, dropped, pid);
      VisitedJoins(reg, orders, routed, dropped, pid);
    }
    PoolsClear(pools, routed, dropped, ids);
    var perPool := ClearPools(pools, routed, dropped, ids).value;
    PoolIdsDistinct(routed, dropped);
    ClearedPools(pools, routed, dropped, ids);
    if |perPool| > 0 {
      assert perPool[0] in perPool;
      assert SomeoneClears(pools, reg, orders, perPool[0].poolId);
    }
    forall pid: nat | SomeoneClears(pools, reg, orders, pid)
      ensures |perPool| > 0
    {
      JoinedIsVisited(reg, orders, routed, dropped, pid);
      ClearedIsKept(pools, routed, dropped, ids, pid);
    }
  }

  lemma VisitedJoins(reg: seq<PoolEntry>, orders: seq<PathOrder>, routed: seq<Routed>, dropped: set<int>, pid: nat)
    requires RoutedAs(reg, orders, routed, dropped) && SurvivorsAreDirect(routed, dropped)
    requires pid in PoolIds(routed, dropped)
    ensures exists i :: 0 <= i < |orders| && Joins(reg, orders[i], pid)
  {
    hide Hops, IsDropped, Joins, PoolIds, DirectIn;
    VisitedBySurvivor(routed, dropped, pid);
    var i :| 0 <= i < |routed| && DirectIn(routed[i], dropped, pid);
    DirectJoins(reg, orders[i], routed[i], dropped, pid);
  }

  lemma JoinedIsVisited(reg: seq<PoolEntry>, orders: seq<PathOrder>, routed: seq<Routed>, dropped: set<int>, pid: nat)
    requires RoutedAs(reg, orders, routed, dropped)
    requires exists i :: 0 <= i < |orders| && Joins(reg, orders[i], pid)
    ensures pid in PoolIds(routed, dropped)
  {
    hide Hops, IsDropped, Joins, PoolIds, DirectIn;
    var i :| 0 <= i < |orders| && Joins(reg, orders[i], pid);
    DirectJoins(reg, orders[i], routed[i], dropped, pid);
    SurvivorIsVisited(routed, dropped, i, pid);
  }

  // ------------------------------------------------------------- the commitment

  function HopNonce(f: HopFill): int { f.orderNonce }

  lemma {:induction false} EmitsOncePerOrder(routed: seq<Routed>, dropped: set<int>, perPool: seq<PoolClearing>)
    requires DistinctBy(routed, RoutedNonce)
    ensures
      var fills := Emit(routed, dropped, perPool);
      && |fills| <= |routed| && DistinctBy(fills, HopNonce)
      && forall f :: f in fills ==> exists r :: r in routed && r.order.orderNonce == f.orderNonce
  {
    hide FindClearing, FindFill, FillFor;
    if |routed| > 0 {
      var n := |routed| - 1;
      EmitsOncePerOrder(routed[..n], dropped, perPool);
      var earlier, own := Emit(routed[..n], dropped, perPool), FillFor(routed[n], dropped, perPool);
      assert routed == routed[..n] + [routed[n]];
      if own.Some? {
        OwnNonce(routed[n], dropped, perPool);
        forall i | 0 <= i < |earlier|
          ensures HopNonce(earlier[i]) != HopNonce(own.value)
        {
          var r :| r in routed[..n] && r.order.orderNonce == earlier[i].orderNonce;
          var j :| 0 <= j < n && routed[..n][j] == r;
          assert RoutedNonce(routed[j]) != RoutedNonce(routed[n]);
        }
      }
    }
  }

  lemma OwnNonce(r: Routed, dropped: set<int>, perPool: seq<PoolClearing>)
    ensures
      var own := FillFor(r, dropped, perPool);
      own.Some? ==> own.value.orderNonce == r.order.orderNonce
  {
    hide FindClearing, FindFill;
  }

  lemma {:induction false} FlowsDerive(perPool: seq<PoolClearing>)
    requires forall pc :: pc in perPool && pc.result.ClearedV2? ==> |pc.result.before| == |pc.result.deltas|
    ensures FlowsOf(perPool).Ok?
  {
    if |perPool| > 0 {
      FlowsDerive(perPool[..|perPool| - 1]);
    }
  }

  /** A cleared result is always committed to: its fills remap, its flows derive, its leaves are distinct. */
  lemma ResultCommits(w: World, epoch: EpochInfo, orders: seq<PathOrder>, pools: map<nat, Pool>)
    requires DistinctBy(orders, PathNonce) && |orders| <= CLAIM_LEAVES
    requires ClearMulti(orders, pools, w.reg).Ok? && ClearMulti(orders, pools, w.reg).value.MultiCleared?
    ensures
      var r := ClearMulti(orders, pools, w.reg).value;
      Commit(w, epoch, r.perPool, r.fills).Ok?
  {
    hide ClearPools, Emit, Sort, RouteAll, Dropped, PoolIds, ClearV2, SubBatch, RemapAll, FlowsOf, Root, HopLeaves,
         ToLeaves;
    var r := ClearMulti(orders, pools, w.reg).value;
    var routed := RouteAll(w.reg, orders).value;
    var dropped, ids := Dropped(routed), PoolIds(routed, Dropped(routed));
    var perPool := ClearPools(pools, routed, dropped, ids).value;
    RoutedShape(orders, w.reg);
    EmitsOncePerOrder(routed, dropped, perPool);
    ClearedFillsRemap(orders, pools, w.reg);
    PoolIdsDistinct(routed, dropped);
    ClearedPools(pools, routed, dropped, ids);
    forall pc | pc in r.perPool
      ensures pc.result.ClearedV2? && |pc.result.before| == |pc.result.deltas|
    {
      SortedMember(perPool, pc);
      BeforeAligned(pools[pc.poolId], SubBatch(routed, dropped, pc.poolId));
    }
    FlowsDerive(r.perPool);
    LeavesDistinct(r.fills, r.perPool);
  }

  lemma BeforeAligned(pool: Pool, orders: seq<Price.Order>)
    requires ClearV2(pool, orders).Ok? && ClearV2(pool, orders).value.ClearedV2?
    ensures |ClearV2(pool, orders).value.before| == |ClearV2(pool, orders).value.deltas|
  {
    hide Clear;
  }

  lemma LeavesDistinct(fills: seq<HopFill>, active: seq<PoolClearing>)
    requires RemapAll(fills, active).Ok? && DistinctBy(fills, HopNonce)
    ensures |ToLeaves(RemapAll(fills, active).value)| == |fills|
    ensures DistinctLeaves(ToLeaves(RemapAll(fills, active).value))
  {
    hide RemapAll, SlotOf;
    var slotted := RemapAll(fills, active).value;
    forall i, j | 0 <= i < j < |slotted|
      ensures HopKey(ToLeaves(slotted)[i]) != HopKey(ToLeaves(slotted)[j])
    {
      assert Remapped(fills[i], active) == Ok(slotted[i]) && Remapped(fills[j], active) == Ok(slotted[j]);
      assert HopNonce(fills[i]) != HopNonce(fills[j]);
    }
  }

  // -------------------------------------------------------------------- the plan

  /** Every committed order is routed, to pools whose state is known. */
  ghost predicate AllRouted(w: World, committed: seq<Reveal>) {
    forall v :: v in committed ==>
      RouteOf(w, v).Ok? && forall pid :: pid in RouteOf(w, v).value.hops ==> pid in w.pools
  }

  /** No pool that a committed order enters throws while it is cleared. */
  ghost predicate AllClear(w: World, committed: seq<Reveal>) {
    forall v, pid :: v in committed && Enters(w, v, pid) && pid in w.pools ==>
      ClearV2(w.pools[pid], Entrants(w, committed, pid)).Ok?
  }

  /** Some committed order enters the pool, and the pool clears. */
  ghost predicate Crosses(w: World, committed: seq<Reveal>, pid: nat) {
    && (exists v :: v in committed && Enters(w, v, pid)) && pid in w.pools
    && ClearV2(w.pools[pid], Entrants(w, committed, pid)).Ok?
    && ClearV2(w.pools[pid], Entrants(w, committed, pid)).value.ClearedV2?
  }

  /** A result is committed to when it crosses, and reported as not crossing when not. */
  predicate SettlesIf(r: Result<Outcome>, crosses: bool) {
    r.Ok? && if crosses then r.value.Settle? else r.value.NoCross?
  }

  lemma RoutesKnown(w: World, committed: seq<Reveal>, routes: seq<RoutedPath>)
    requires AllRouted(w, committed) && |routes| == |committed|
    requires forall i :: 0 <= i < |routes| ==> RouteOf(w, committed[i]) == Ok(routes[i])
    ensures forall pid :: pid in ActivePools(routes) ==> pid in w.pools
    ensures forall i, pid :: 0 <= i < |routes| && pid in routes[i].hops ==> pid in ReadPools(w, routes)
  {
    hide RouteOf;
    forall i, pid | 0 <= i < |routes| && pid in routes[i].hops
      ensures pid in w.pools
    {
      assert committed[i] in committed;
    }
  }

  lemma JoinsWithin(w: World, committed: seq<Reveal>, routes: seq<RoutedPath>, i: nat, pid: nat)
    requires |routes| == |committed| && i < |committed|
    requires forall j :: 0 <= j < |routes| ==> RouteOf(w, committed[j]) == Ok(routes[j])
    ensures Joins(w.reg, ToOrders(committed, routes)[i], pid) <==> Enters(w, committed[i], pid)
    ensures Enters(w, committed[i], pid) ==> routes[i].hops == [pid]
    ensures PoolBatch(w.reg, ToOrders(committed, routes), pid) == Entrants(w, committed, pid)
  {
    hide RouteOf, Joins, Enters, PoolBatch, Entrants;
    OrderAtIs(committed, routes, i);
    JoinsIsEnters(w, committed[i], routes[i], pid);
    BatchIsEntrants(w, committed, routes, pid);
    if Enters(w, committed[i], pid) {
      EntersByHop(w, committed[i], routes[i], pid);
    }
  }

  lemma CrossesAlike(w: World, committed: seq<Reveal>, routes: seq<RoutedPath>, active: map<nat, Pool>, pid: nat)
    requires |routes| == |committed|
    requires forall j :: 0 <= j < |routes| ==> RouteOf(w, committed[j]) == Ok(routes[j])
    requires forall p :: p in active ==> p in w.pools && w.pools[p] == active[p]
    requires forall i, p :: 0 <= i < |routes| && p in routes[i].hops ==> p in active
    ensures SomeoneClears(active, w.reg, ToOrders(committed, routes), pid) <==> Crosses(w, committed, pid)
  {
    hide RouteOf, Joins, Enters, PoolBatch, Entrants, ClearV2, ToOrders;
    var orders := ToOrders(committed, routes);
    if i :| 0 <= i < |orders| && Joins(w.reg, orders[i], pid) {
      JoinsWithin(w, committed, routes, i, pid);
      assert committed[i] in committed && pid in routes[i].hops;
    }
    if v :| v in committed && Enters(w, v, pid) {
      var i :| 0 <= i < |committed| && committed[i] == v;
      JoinsWithin(w, committed, routes, i, pid);
      assert Joins(w.reg, orders[i], pid) && pid in routes[i].hops;
    }
  }

  /**
   The plan settles. When the committed orders are accepted, all of them routed to known
   pools, and no pool throws, the plan commits to a result exactly when some pool clears,
   and reports a book that does not cross exactly when none does.
   */
  lemma EpochSettles(w: World, epoch: EpochInfo, payloads: seq<Payload>, committed: seq<Reveal>)
    requires Accepted(w, epoch, payloads) == committed && 0 < |committed| <= CLAIM_LEAVES && |payloads| > 0
    requires DistinctBy(committed, RevealNonce) && AllRouted(w, committed) && AllClear(w, committed)
    ensures SettlesIf(Plan(w, epoch, payloads), exists pid :: Crosses(w, committed, pid))
  {
    hide Accepted, ClearMulti, Commit, ToOrders, RouteOf, Crosses, SomeoneClears, FallbackEntry, RouteReveals,
         ReadPools, DistinctBy, AllClear;
    assert committed[0] in committed;
    var entry := SomeFallback(w, committed[0]);
    RevealsRoute(w, committed, entry);
    var routes := RouteReveals(w.reg, committed, (entry.tokenAFull, entry.tokenBFull, 0)).value;
    RoutesKnown(w, committed, routes);
    OrdersDistinct(committed, routes);
    RoutedClears(w, epoch, committed, routes);
  }

  lemma SomeFallback(w: World, v: Reveal) returns (entry: PoolEntry)
    requires RouteOf(w, v).Ok?
    ensures FallbackEntry(w.reg) == Some(entry)
  {
    entry := FallbackEntry(w.reg).value;
  }

  lemma RouterReady(w: World, committed: seq<Reveal>, routes: seq<RoutedPath>, active: map<nat, Pool>)
    requires |routes| == |committed| && DistinctBy(ToOrders(committed, routes), PathNonce)
    requires forall i :: 0 <= i < |routes| ==> RouteOf(w, committed[i]) == Ok(routes[i])
    requires forall p :: p in active ==> p in w.pools && w.pools[p] == active[p]
    requires forall i, p :: 0 <= i < |routes| && p in routes[i].hops ==> p in active
    requires AllClear(w, committed)
    ensures
      var r := ClearMulti(ToOrders(committed, routes), active, w.reg);
      r.Ok? && (r.value.MultiCleared? <==> exists pid :: Crosses(w, committed, pid))
  {
    hide ClearMulti, ToOrders, RouteOf, Crosses, SomeoneClears, DistinctBy, Joins, Enters, PoolBatch, Entrants, ClearV2,
         RouteAll;
    var orders := ToOrders(committed, routes);
    RoutedWithin(w, committed, routes);
    forall i, pid | 0 <= i < |orders| && Joins(w.reg, orders[i], pid) && pid in active
      ensures ClearV2(active[pid], PoolBatch(w.reg, orders, pid)).Ok?
    {
      JoinsWithin(w, committed, routes, i, pid);
      assert committed[i] in committed;
    }
    RouterClears(orders, active, w.reg);
    forall pid: nat
      ensures SomeoneClears(active, w.reg, orders, pid) <==> Crosses(w, committed, pid)
    {
      CrossesAlike(w, committed, routes, active, pid);
    }
  }

  lemma RoutedClears(w: World, epoch: EpochInfo, committed: seq<Reveal>, routes: seq<RoutedPath>)
    requires |routes| == |committed| <= CLAIM_LEAVES && DistinctBy(ToOrders(committed, routes), PathNonce)
    requires forall i :: 0 <= i < |routes| ==> RouteOf(w, committed[i]) == Ok(routes[i])
    requires forall pid :: pid in ActivePools(routes) ==> pid in w.pools
    requires forall i, pid :: 0 <= i < |routes| && pid in routes[i].hops ==> pid in ReadPools(w, routes)
    requires AllClear(w, committed)
    ensures SettlesIf(ClearRouted(w, epoch, committed, routes), exists pid :: Crosses(w, committed, pid))
  {
    hide ClearMulti, Commit, ToOrders, RouteOf, Crosses, DistinctBy, AllClear, ActivePools, ClearRouted, ReadPools;
    var orders, active := ToOrders(committed, routes), ReadPools(w, routes);
    ReadIsKnown(w, routes);
    RouterReady(w, committed, routes, active);
    ClearedThenCommitted(w, epoch, committed, routes);
    var cleared := ClearMulti(orders, active, w.reg).value;
    if cleared.MultiCleared? {
      ResultCommits(w, epoch, orders, active);
      CommitKeepsPools(w, epoch, cleared.perPool, cleared.fills);
    }
  }

  lemma ReadIsKnown(w: World, routes: seq<RoutedPath>)
    ensures forall pid :: pid in ReadPools(w, routes) ==> pid in w.pools && w.pools[pid] == ReadPools(w, routes)[pid]
  {
    hide ActivePools;
  }

  lemma ClearedThenCommitted(w: World, epoch: EpochInfo, vs: seq<Reveal>, routes: seq<RoutedPath>)
    requires |routes| == |vs| && forall pid :: pid in ActivePools(routes) ==> pid in w.pools
    requires ClearMulti(ToOrders(vs, routes), ReadPools(w, routes), w.reg).Ok?
    ensures
      var r := ClearMulti(ToOrders(vs, routes), ReadPools(w, routes), w.reg).value;
      ClearRouted(w, epoch, vs, routes)
      == if r.NotCleared? then Ok(NoCross) else Commit(w, epoch, r.perPool, r.fills)
  {
    hide ClearMulti, Commit, ToOrders, ReadPools, ActivePools;
  }

  /** The router resolves the orders as the reveals were resolved. */
  lemma {:induction false} RoutedWithin(w: World, vs: seq<Reveal>, routes: seq<RoutedPath>)
    requires |routes| == |vs| && forall i :: 0 <= i < |routes| ==> RouteOf(w, vs[i]) == Ok(routes[i])
    ensures RouteAll(w.reg, ToOrders(vs, routes)).Ok?
  {
    hide Hops, FallbackEntry;
    if |vs| > 0 {
      var n := |vs| - 1;
      RoutedWithin(w, vs[..n], routes[..n]);
      assert ToOrders(vs, routes)[..n] == ToOrders(vs[..n], routes[..n]);
      assert RouteOf(w, vs[n]) == Ok(routes[n]);
    }
  }
}
