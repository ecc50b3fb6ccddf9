/**
 From the on-chain accumulator to what makers can claim: when a cycle submits, the
 orders it settled are the committed ones, every pool conserves both tokens, and a
 verified claim is one of the emitted fills.
 */
module Pipeline {
  import opened FixedPoint
  import opened Sequences
  import opened Swap
  import opened Clearing
  import opened Conservation
  import opened Reveals
  import opened Registry
  import opened MultiPair
  import opened Settlement
  import opened Slots
  import opened Merkle
  import opened Cycle

  // --------------------------------------------------------- what was settled

  /** Against the accumulator of a committed sequence, what is accepted is that sequence or nothing. */
  lemma AcceptedIsCommitted(w: World, epoch: EpochInfo, payloads: seq<Payload>, committed: seq<Reveal>)
    requires Injective(w.h) && NeverZero(w.h) && epoch.orderAcc == OrderAcc(w.h, Cis(w.h, committed))
    requires |Accepted(w, epoch, payloads)| > 0
    ensures Accepted(w, epoch, payloads) == committed
  {
    hide Validated, Repair, OrderAcc, Cis;
    ReplayIsSound(w.h, w.codec, payloads, committed);
    RepairRecoversCommitted(w.h, w.codec, payloads, committed, REPAIR_MAX_OFFSET, REPAIR_MAX_ORDERS);
  }

  /** The clearing a settled plan went through. */
  ghost predicate SettledBy(w: World, epoch: EpochInfo, payloads: seq<Payload>, public: PublicInputs,
                            routes: seq<RoutedPath>, active: map<nat, Pool>, fills: seq<HopFill>)
  {
    var vs := Accepted(w, epoch, payloads);
    && |routes| == |vs|
    && ClearMulti(ToOrders(vs, routes), active, w.reg) == Ok(MultiCleared(public.pools, fills))
    && Commit(w, epoch, public.pools, fills) == Ok(Settle(public))
  }

  /** How a reveal is routed: its own path, or pool 0's pair when it names none. */
  function RouteOf(w: World, v: Reveal): Result<RoutedPath> {
    match FallbackEntry(w.reg)
    case None => Err(NoPool)
    case Some(entry) => RevealRoute(w.reg, v.pathLen, NaturalPath(v.path), (entry.tokenAFull, entry.tokenBFull, 0))
  }

  lemma SettledPlan(w: World, epoch: EpochInfo, payloads: seq<Payload>)
    returns (routes: seq<RoutedPath>, active: map<nat, Pool>, fills: seq<HopFill>)
    requires Plan(w, epoch, payloads).Ok? && Plan(w, epoch, payloads).value.Settle?
    ensures SettledBy(w, epoch, payloads, Plan(w, epoch, payloads).value.public, routes, active, fills)
    ensures |payloads| > 0 || epoch.orderCount == 0
    ensures forall pid :: pid in active ==> pid in w.pools && w.pools[pid] == active[pid]
    ensures forall i :: 0 <= i < |routes| ==> RouteOf(w, Accepted(w, epoch, payloads)[i]) == Ok(routes[i])
    ensures forall i, pid :: 0 <= i < |routes| && pid in routes[i].hops && pid in w.pools ==> pid in active
  {
    hide Accepted, RouteReveals, ClearRouted, ToOrders, FallbackEntry, RevealRoute;
    var vs := Accepted(w, epoch, payloads);
    var entry := FallbackEntry(w.reg).value;
    routes := RouteReveals(w.reg, vs, (entry.tokenAFull, entry.tokenBFull, 0)).value;
    active := ReadPools(w, routes);
    fills := SettledRouting(w, epoch, vs, routes);
  }

  lemma SettledRouting(w: World, epoch: EpochInfo, vs: seq<Reveal>, routes: seq<RoutedPath>)
    returns (fills: seq<HopFill>)
    requires |routes| == |vs|
    requires ClearRouted(w, epoch, vs, routes).Ok? && ClearRouted(w, epoch, vs, routes).value.Settle?
    ensures
      var public := ClearRouted(w, epoch, vs, routes).value.public;
      && ClearMulti(ToOrders(vs, routes), ReadPools(w, routes), w.reg) == Ok(MultiCleared(public.pools, fills))
      && Commit(w, epoch, public.pools, fills) == Ok(Settle(public))
  {
    hide ClearMulti, Commit, ToOrders, ReadPools;
    var cleared := ClearMulti(ToOrders(vs, routes), ReadPools(w, routes), w.reg).value;
    fills := cleared.fills;
    CommitKeepsPools(w, epoch, cleared.perPool, fills);
  }

  lemma CommitKeepsPools(w: World, epoch: EpochInfo, perPool: seq<PoolClearing>, fills: seq<HopFill>)
    requires Commit(w, epoch, perPool, fills).Ok?
    ensures
      var o := Commit(w, epoch, perPool, fills).value;
      && o.Settle? && o.public.pools == perPool && o.public.orderAcc == epoch.orderAcc
      && RemapAll(fills, perPool).Ok? && o.public.fills == ToLeaves(RemapAll(fills, perPool).value)
      && FlowsOf(perPool) == Ok(o.public.flows)
      && |o.public.fills| <= CLAIM_LEAVES == Arithmetic.Pow2(CLAIM_DEPTH)
      && o.public.fillsRoot == Root(w.h, HopLeaves(w.h, o.public.fills, CLAIM_LEAVES), CLAIM_DEPTH)
  {
    hide RemapAll, FlowsOf, Root, HopLeaves, DistinctLeaves, ToLeaves;
    ClaimTreeShape();
  }

  // ------------------------------------------------------ routing, one source

  /** The router resolves every order to the very hops its reveal was routed by. */
  lemma {:induction false} RoutesAgree(reg: seq<PoolEntry>, vs: seq<Reveal>, fallback: Path)
    requires RouteReveals(reg, vs, fallback).Ok?
    ensures
      var routes := RouteReveals(reg, vs, fallback).value;
      var routed := RouteAll(reg, ToOrders(vs, routes));
      && routed.Ok? && |routed.value| == |routes|
      && forall i :: 0 <= i < |routes| ==> routed.value[i].hops == routes[i].hops
  {
    hide Hops;
    if |vs| > 0 {
      var n := |vs| - 1;
      RoutesAgree(reg, vs[..n], fallback);
      var routes := RouteReveals(reg, vs, fallback).value;
      assert ToOrders(vs, routes)[..n] == ToOrders(vs[..n], routes[..n]);
      assert routes[..n] == RouteReveals(reg, vs[..n], fallback).value;
    }
  }

  lemma {:induction false} AddPoolsFrom(ids: seq<nat>, hops: seq<nat>, pid: nat)
    requires pid in AddPools(ids, hops)
    ensures pid in ids || pid in hops
  {
    if |hops| > 0 && pid != hops[|hops| - 1] {
      AddPoolsFrom(ids, hops[..|hops| - 1], pid);
    }
  }

  lemma {:induction false} VisitedPools(routed: seq<Routed>, dropped: set<int>, pid: nat)
    requires pid in PoolIds(routed, dropped)
    ensures exists i :: 0 <= i < |routed| && pid in routed[i].hops
  {
    var n := |routed| - 1;
    var earlier := PoolIds(routed[..n], dropped);
    if pid in earlier {
      VisitedPools(routed[..n], dropped, pid);
      var i :| 0 <= i < n && pid in routed[..n][i].hops;
      assert pid in routed[i].hops;
    } else {
      AddPoolsFrom(earlier, routed[n].hops, pid);
      assert pid in routed[n].hops;
    }
  }

  /** The pool states read before clearing cover every pool the clearing visits. */
  lemma ActivePoolsCoverRouting(reg: seq<PoolEntry>, vs: seq<Reveal>, fallback: Path, pid: nat)
    requires RouteReveals(reg, vs, fallback).Ok?
    ensures
      var routes := RouteReveals(reg, vs, fallback).value;
      var routed := RouteAll(reg, ToOrders(vs, routes));
      routed.Ok? && (pid in PoolIds(routed.value, Dropped(routed.value)) ==> pid in ActivePools(routes))
  {
    hide RouteReveals, RouteAll, ToOrders, PoolIds, Dropped;
    RoutesAgree(reg, vs, fallback);
    var routes := RouteReveals(reg, vs, fallback).value;
    var routed := RouteAll(reg, ToOrders(vs, routes)).value;
    if pid in PoolIds(routed, Dropped(routed)) {
      VisitedPools(routed, Dropped(routed), pid);
      var i :| 0 <= i < |routed| && pid in routed[i].hops;
      assert pid in routes[i].hops;
    }
  }

  // --------------------------------------------- conservation, as submitted

  function FindLeaf(leaves: seq<HopLeaf>, nonce: int): Option<HopLeaf> {
    if |leaves| == 0 then None
    else
      var l := leaves[|leaves| - 1];
      if l.orderNonce == nonce then Some(l) else FindLeaf(leaves[..|leaves| - 1], nonce)
  }

  /** What a committed order received (or put in) through an active slot, read off the submitted fills. */
  function LeafPart(leaves: seq<HopLeaf>, slot: nat, side: bool, paid: bool, v: Reveal): int {
    if v.side != side then 0
    else match FindLeaf(leaves, v.orderNonce)
      case None => 0
      case Some(l) => if l.poolId != slot then 0 else if paid then l.amountOut else Natural(v.amountIn)
  }

  /** Total paid to, or put in by, the filled orders of one side of one slot. */
  function SlotTotal(orders: seq<Reveal>, leaves: seq<HopLeaf>, slot: nat, side: bool, paid: bool): int {
    SumOver(orders, v => LeafPart(leaves, slot, side, paid, v))
  }

  lemma {:induction false} LeafIsFill(fills: seq<HopFill>, active: seq<PoolClearing>, nonce: int)
    requires RemapAll(fills, active).Ok?
    ensures
      var l, f := FindLeaf(ToLeaves(RemapAll(fills, active).value), nonce), FindHop(fills, nonce);
      && (l.None? <==> f.None?)
      && (l.Some? ==>
            && l.value.amountOut == f.value.amountOut && l.value.owner == f.value.owner
            && l.value.orderNonce == nonce && l.value.hopIndex == f.value.hopIndex
            && SlotOf(active, f.value.poolId) == Some(l.value.poolId))
  {
    hide SlotOf;
    if |fills| > 0 {
      var n := |fills| - 1;
      LeafIsFill(fills[..n], active, nonce);
      var r := RemapAll(fills, active).value;
      assert r[..n] == RemapAll(fills[..n], active).value;
      assert ToLeaves(r)[..n] == ToLeaves(r[..n]);
    }
  }

  function PoolKey(pc: PoolClearing): int { pc.poolId }

  lemma SameKeySameIndex(active: seq<PoolClearing>, i: nat, j: nat)
    requires DistinctBy(active, PoolKey) && i < |active| && j < |active|
    requires active[i].poolId == active[j].poolId
    ensures i == j
  {
    assert i < j ==> PoolKey(active[i]) != PoolKey(active[j]);
    assert j < i ==> PoolKey(active[j]) != PoolKey(active[i]);
  }

  lemma {:induction false} SlotOfActive(active: seq<PoolClearing>, slot: nat, pid: nat)
    requires DistinctBy(active, PoolKey) && slot < |active|
    ensures SlotOf(active, pid) == Some(slot) <==> pid == active[slot].poolId
  {
    if pid == active[slot].poolId {
      var got := SlotOf(active, pid);
      if got.Some? {
        SameKeySameIndex(active, got.value, slot);
      }
    }
  }

  lemma ActiveDistinct(orders: seq<PathOrder>, pools: map<nat, Pool>, reg: seq<PoolEntry>)
    requires ClearMulti(orders, pools, reg).Ok? && ClearMulti(orders, pools, reg).value.MultiCleared?
    ensures DistinctBy(ClearMulti(orders, pools, reg).value.perPool, PoolKey)
  {
    hide ClearV2, SubBatch, PoolIds, Emit, ClearPools, Sort, Dropped;
    var routed := RouteAll(reg, orders).value;
    var dropped := Dropped(routed);
    var ids := PoolIds(routed, dropped);
    var perPool := ClearPools(pools, routed, dropped, ids).value;
    PoolIdsDistinct(routed, dropped);
    ClearedPools(pools, routed, dropped, ids);
    SortPermutes(perPool, PoolIdOrder);
    DistinctPermutation(perPool, Sort(perPool, PoolIdOrder), PoolKey);
  }

  /** The active pools stand in ascending order of their ids. */
  lemma ActiveAscends(orders: seq<PathOrder>, pools: map<nat, Pool>, reg: seq<PoolEntry>, i: nat, j: nat)
    requires ClearMulti(orders, pools, reg).Ok? && ClearMulti(orders, pools, reg).value.MultiCleared?
    requires i < j < |ClearMulti(orders, pools, reg).value.perPool|
    ensures
      var active := ClearMulti(orders, pools, reg).value.perPool;
      active[i].poolId < active[j].poolId
  {
    hide ClearPools, Sort, Emit, RouteAll, PoolIds, Dropped;
    var routed := RouteAll(reg, orders).value;
    var perPool := ClearPools(pools, routed, Dropped(routed), PoolIds(routed, Dropped(routed))).value;
    ActiveDistinct(orders, pools, reg);
    SortSorted(perPool, PoolIdOrder);
    var active := ClearMulti(orders, pools, reg).value.perPool;
    assert PoolKey(active[i]) != PoolKey(active[j]);
  }

  /** The submitted totals are the emitted totals. */
  lemma SlotTotalsMatch(vs: seq<Reveal>, routes: seq<RoutedPath>, fills: seq<HopFill>, active: seq<PoolClearing>,
                        slot: nat, side: bool, paid: bool)
    requires |routes| == |vs| && RemapAll(fills, active).Ok? && DistinctBy(active, PoolKey) && slot < |active|
    ensures SlotTotal(vs, ToLeaves(RemapAll(fills, active).value), slot, side, paid)
         == Emitted(ToOrders(vs, routes), fills, active[slot].poolId, side, paid)
  {
    hide SlotOf, FindLeaf, FindHop, RemapAll, ToLeaves;
    var leaves := ToLeaves(RemapAll(fills, active).value);
    var pid := active[slot].poolId;
    var orders := ToOrders(vs, routes);
    forall i | 0 <= i < |vs|
      ensures LeafPart(leaves, slot, side, paid, vs[i]) == EmittedPart(fills, pid, side, paid, orders[i])
    {
      LeafIsFill(fills, active, vs[i].orderNonce);
      var f := FindHop(fills, vs[i].orderNonce);
      if f.Some? {
        SlotOfActive(active, slot, f.value.poolId);
      }
    }
    SumAligned(vs, orders, v => LeafPart(leaves, slot, side, paid, v), o => EmittedPart(fills, pid, side, paid, o));
  }

  lemma {:induction false} FlowsAt(perPool: seq<PoolClearing>, slot: nat)
    requires FlowsOf(perPool).Ok? && slot < |perPool| && perPool[slot].result.ClearedV2?
    ensures |FlowsOf(perPool).value| == |perPool|
    ensures
      var c := perPool[slot].result;
      AggregateFlows(c.deltas, Liquidities(c.before)) == Ok(FlowsOf(perPool).value[slot])
  {
    hide AggregateFlows;
    FlowsLength(perPool);
    if slot < |perPool| - 1 {
      FlowsAt(perPool[..|perPool| - 1], slot);
    } else {
      FlowsLength(perPool[..|perPool| - 1]);
    }
  }

  lemma {:induction false} FlowsLength(perPool: seq<PoolClearing>)
    requires FlowsOf(perPool).Ok?
    ensures |FlowsOf(perPool).value| == |perPool|
  {
    hide AggregateFlows;
    if |perPool| > 0 {
      FlowsLength(perPool[..|perPool| - 1]);
    }
  }

  lemma OrdersDistinct(vs: seq<Reveal>, routes: seq<RoutedPath>)
    requires |routes| == |vs| && DistinctBy(vs, RevealNonce)
    ensures DistinctBy(ToOrders(vs, routes), PathNonce)
  {
    var orders := ToOrders(vs, routes);
    forall i, j | 0 <= i < j < |orders|
      ensures PathNonce(orders[i]) != PathNonce(orders[j])
    {
      assert RevealNonce(vs[i]) != RevealNonce(vs[j]);
    }
  }

  /**
   The settlement theorem. Suppose the accumulator commits to a sequence of orders
   with distinct nonces and a cycle gets as far as submitting. Then for every active
   slot and both tokens, what the submitted fills pay out plus the gross flow into
   the pool is at most what the filled committed orders put in plus the flow out of
   the pool.
   */
  lemma SubmittedSettlementConserves(w: World, epoch: EpochInfo, payloads: seq<Payload>,
                                     committed: seq<Reveal>, slot: nat)
    requires Injective(w.h) && NeverZero(w.h) && epoch.orderAcc == OrderAcc(w.h, Cis(w.h, committed))
    requires epoch.orderCount > 0 && DistinctBy(committed, RevealNonce)
    requires Plan(w, epoch, payloads).Ok? && Plan(w, epoch, payloads).value.Settle?
    requires slot < |Plan(w, epoch, payloads).value.public.pools|
    ensures
      var public := Plan(w, epoch, payloads).value.public;
      |public.flows| == |public.pools| &&
      var flows := public.flows[slot];
      && Accepted(w, epoch, payloads) == committed
      && SlotTotal(committed, public.fills, slot, true, true) + flows.aToPool
         <= SlotTotal(committed, public.fills, slot, false, false) + flows.aFromPool
      && SlotTotal(committed, public.fills, slot, false, true) + flows.bToPool
         <= SlotTotal(committed, public.fills, slot, true, false) + flows.bFromPool
  {
    hide Plan, Accepted, ClearMulti, Commit, ToOrders, OrderAcc, Cis, SlotTotal, Emitted, AggregateFlows,
         SettledEval, Unrouted, Withheld, Clear, FlowsOf, RemapAll, ToLeaves, Root, HopLeaves, Injective, NeverZero,
         RecoveredFees, Liquidities, SubOrders;
    var public := Plan(w, epoch, payloads).value.public;
    var routes, active, fills := SettledPlan(w, epoch, payloads);
    AcceptedNonEmpty(w, epoch, payloads);
    AcceptedIsCommitted(w, epoch, payloads, committed);
    OrdersDistinct(committed, routes);
    var orders := ToOrders(committed, routes);
    CommitKeepsPools(w, epoch, public.pools, fills);
    ActiveDistinct(orders, active, w.reg);
    var pc := public.pools[slot];
    SettlementConserves(orders, active, w.reg, pc);
    FlowsAt(public.pools, slot);
    SlotTotalsMatch(committed, routes, fills, public.pools, slot, true, true);
    SlotTotalsMatch(committed, routes, fills, public.pools, slot, false, true);
    SlotTotalsMatch(committed, routes, fills, public.pools, slot, false, false);
    SlotTotalsMatch(committed, routes, fills, public.pools, slot, true, false);
  }

  lemma AcceptedNonEmpty(w: World, epoch: EpochInfo, payloads: seq<Payload>)
    requires Plan(w, epoch, payloads).Ok? && Plan(w, epoch, payloads).value.Settle? && epoch.orderCount > 0
    ensures |Accepted(w, epoch, payloads)| > 0
  {
    hide Accepted, RouteReveals, ClearMulti, Commit, ToOrders, FallbackEntry;
  }

  /**
   Whoever claims against a submitted root with a path of the right length holds one
   of its fills, unless the claim is the empty sentinel; and every fill can be claimed.
   */
  lemma SubmittedClaimsAreFills(w: World, epoch: EpochInfo, payloads: seq<Payload>,
                                claim: HopLeaf, idx: nat, path: seq<int>)
    requires Injective(w.h)
    requires Plan(w, epoch, payloads).Ok? && Plan(w, epoch, payloads).value.Settle?
    requires idx < CLAIM_LEAVES && |path| == CLAIM_DEPTH
    ensures
      var public := Plan(w, epoch, payloads).value.public;
      && (FoldPath(w.h, HopFillLeaf(w.h, claim), idx, path) == public.fillsRoot && claim != EMPTY_HOP
          ==> claim in public.fills && idx < |public.fills| && public.fills[idx] == claim)
      && (idx < |public.fills| ==>
            exists path' :: |path'| == CLAIM_DEPTH
              && FoldPath(w.h, HopFillLeaf(w.h, public.fills[idx]), idx, path') == public.fillsRoot)
  {
    hide Plan, FoldPath, HopFillLeaf, Root, HopLeaves, Harvest, Injective, Commit, Accepted, ClearMulti;
    var public := Plan(w, epoch, payloads).value.public;
    var routes, active, fills := SettledPlan(w, epoch, payloads);
    CommitKeepsPools(w, epoch, public.pools, fills);
    ClaimsAreEmittedFills(w.h, public.fills, CLAIM_DEPTH, claim, idx, path);
    var leaves := HopLeaves(w.h, public.fills, CLAIM_LEAVES);
    HarvestedPathFolds(w.h, leaves, CLAIM_DEPTH, 0, idx);
    if idx < |public.fills| {
      var own := Harvest(w.h, leaves, CLAIM_DEPTH, 0, idx);
      assert FoldPath(w.h, HopFillLeaf(w.h, public.fills[idx]), idx, own) == public.fillsRoot;
    }
  }
}
