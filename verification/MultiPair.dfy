/**
 The multi-pair router: every direct order is cleared in the pool its path
 resolves to, and one fill per settled order is emitted. Spec functions first,
 then the loops.
 */
module MultiPair {
  import opened FixedPoint
  import opened Sequences
  import opened Swap
  import opened Price
  import opened Clearing
  import opened Registry

  datatype PathOrder = PathOrder(order: Order, path: Path, pathLen: PathLen)

  datatype Routed = Routed(order: Order, pathLen: PathLen, hops: seq<nat>)

  datatype PoolClearing = PoolClearing(poolId: nat, result: ClearingV2)

  datatype HopFill = HopFill(orderNonce: int, hopIndex: nat, amountOut: int, poolId: nat, owner: int)

  datatype MultiResult =
    | NotCleared
    | MultiCleared(perPool: seq<PoolClearing>, fills: seq<HopFill>)

  function RoutedNonce(r: Routed): int { r.order.orderNonce }

  function PathNonce(o: PathOrder): int { o.order.orderNonce }

  // ----------------------------------------------------------- spec functions

  function RouteAll(reg: seq<PoolEntry>, orders: seq<PathOrder>): (r: Result<seq<Routed>>)
    ensures r.Ok? ==> |r.value| == |orders| && forall i :: 0 <= i < |orders| ==>
      && r.value[i].order == orders[i].order && r.value[i].pathLen == orders[i].pathLen
      && Hops(reg, orders[i].path, orders[i].pathLen - 1) == Ok(r.value[i].hops)
    ensures r.Err? ==> r.error == NoPool
  {
    if |orders| == 0 then Ok([])
    else
      var earlier :- RouteAll(reg, orders[..|orders| - 1]);
      var o := orders[|orders| - 1];
      var hops :- Hops(reg, o.path, o.pathLen - 1);
      Ok(earlier + [Routed(o.order, o.pathLen, hops)])
  }

  /** Two-hop orders are disabled and dust orders would brick the circuit: both are dropped. */
  predicate IsDropped(r: Routed) {
    r.pathLen == 3 || r.order.amountIn < MIN_FILL_AMOUNT_IN
  }

  function Dropped(routed: seq<Routed>): (r: set<int>)
    ensures forall n :: n in r <==>
      exists i :: 0 <= i < |routed| && IsDropped(routed[i]) && routed[i].order.orderNonce == n
  {
    set i | 0 <= i < |routed| && IsDropped(routed[i]) :: routed[i].order.orderNonce
  }

  /** One entry per hop that visits the pool. */
  function Visits(order: Order, hops: seq<nat>, pid: nat): seq<Order> {
    if |hops| == 0 then []
    else Visits(order, hops[..|hops| - 1], pid) + (if hops[|hops| - 1] == pid then [order] else [])
  }

  /** The sub-batch of one pool, in submission order. */
  function SubBatch(routed: seq<Routed>, dropped: set<int>, pid: nat): seq<Order> {
    if |routed| == 0 then []
    else
      var r := routed[|routed| - 1];
      SubBatch(routed[..|routed| - 1], dropped, pid)
      + (if r.order.orderNonce in dropped then [] else Visits(r.order, r.hops, pid))
  }

  function AddPool(ids: seq<nat>, pid: nat): seq<nat> {
    if pid in ids then ids else ids + [pid]
  }

  function AddPools(ids: seq<nat>, hops: seq<nat>): seq<nat> {
    if |hops| == 0 then ids else AddPool(AddPools(ids, hops[..|hops| - 1]), hops[|hops| - 1])
  }

  /** Visited pools in order of first visit. */
  function PoolIds(routed: seq<Routed>, dropped: set<int>): seq<nat> {
    if |routed| == 0 then []
    else
      var r := routed[|routed| - 1];
      var earlier := PoolIds(routed[..|routed| - 1], dropped);
      if r.order.orderNonce in dropped then earlier else AddPools(earlier, r.hops)
  }

  /** Clear the given pools one by one; pools that are unknown or skip are left out. */
  function ClearPools(pools: map<nat, Pool>, routed: seq<Routed>, dropped: set<int>, ids: seq<nat>)
    : Result<seq<PoolClearing>>
  {
    if |ids| == 0 then Ok([])
    else
      var earlier :- ClearPools(pools, routed, dropped, ids[..|ids| - 1]);
      var pid := ids[|ids| - 1];
      if pid !in pools then Ok(earlier)
      else
        var c :- ClearV2(pools[pid], SubBatch(routed, dropped, pid));
        Ok(if c.ClearedV2? then earlier + [PoolClearing(pid, c)] else earlier)
  }

  function FindClearing(perPool: seq<PoolClearing>, pid: nat): (r: Option<PoolClearing>)
    ensures r.Some? ==> r.value in perPool && r.value.poolId == pid
  {
    if |perPool| == 0 then None
    else if perPool[0].poolId == pid then Some(perPool[0])
    else FindClearing(perPool[1..], pid)
  }

  function FindFill(fills: seq<Fill>, nonce: int): (r: Option<Fill>)
    ensures r.Some? ==> r.value in fills && r.value.orderNonce == nonce
    ensures r.None? ==> forall f :: f in fills ==> f.orderNonce != nonce
  {
    if |fills| == 0 then None
    else if fills[0].orderNonce == nonce then Some(fills[0])
    else FindFill(fills[1..], nonce)
  }

  function FillsOfPool(pc: PoolClearing): seq<Fill> {
    if pc.result.ClearedV2? then pc.result.fills else []
  }

  /** The fill one routed order gets, if any. */
  function FillFor(r: Routed, dropped: set<int>, perPool: seq<PoolClearing>): Option<HopFill> {
    if r.order.orderNonce in dropped || |r.hops| == 0 then None
    else match FindClearing(perPool, r.hops[0])
      case None => None
      case Some(pc) =>
        match FindFill(FillsOfPool(pc), r.order.orderNonce)
        case None => None
        case Some(f) => Some(HopFill(r.order.orderNonce, 0, f.amountOut, r.hops[0], r.order.owner))
  }

  function Emit(routed: seq<Routed>, dropped: set<int>, perPool: seq<PoolClearing>): seq<HopFill> {
    if |routed| == 0 then []
    else
      var earlier := Emit(routed[..|routed| - 1], dropped, perPool);
      match FillFor(routed[|routed| - 1], dropped, perPool)
      case None => earlier
      case Some(f) => earlier + [f]
  }

  predicate PoolIdOrder(a: PoolClearing, b: PoolClearing) {
    a.poolId <= b.poolId
  }

  function ClearMulti(orders: seq<PathOrder>, pools: map<nat, Pool>, reg: seq<PoolEntry>): Result<MultiResult> {
    var routed :- RouteAll(reg, orders);
    var dropped := Dropped(routed);
    var perPool :- ClearPools(pools, routed, dropped, PoolIds(routed, dropped));
    Ok(if |perPool| == 0 then NotCleared
       else MultiCleared(Sort(perPool, PoolIdOrder), Emit(routed, dropped, perPool)))
  }

  // --------------------------------------------------------------- the loops

  method RouteOrders(reg: seq<PoolEntry>, orders: seq<PathOrder>) returns (r: Result<seq<Routed>>)
    ensures r == RouteAll(reg, orders)
  {
    hide Hops;
    var routed: seq<Routed> := [];
    for i := 0 to |orders|
      invariant RouteAll(reg, orders[..i]) == Ok(routed)
    {
      assert orders[..i + 1][..i] == orders[..i];
      var o := orders[i];
      var path := if o.pathLen == 2 then [o.path.0, o.path.1] else [o.path.0, o.path.1, o.path.2];
      var hops := ResolveHopPools(reg, path);
      SamePath(reg, o.path, o.pathLen);
      if hops.Err? {
        FailedRoute(reg, orders, i + 1);
        return Err(NoPool);
      }
      routed := routed + [Routed(o.order, o.pathLen, hops.value)];
    }
    assert orders[..|orders|] == orders;
    return Ok(routed);
  }

  lemma SamePath(reg: seq<PoolEntry>, path: Path, len: PathLen)
    ensures Hops(reg, (path.0, path.1, if len == 3 then path.2 else 0), len - 1) == Hops(reg, path, len - 1)
  {
    assert Hops(reg, path, 1) == Hops(reg, (path.0, path.1, if len == 3 then path.2 else 0), 1) by {
      assert Hops(reg, path, 0) == Ok([]);
    }
  }

  lemma {:induction false} FailedRoute(reg: seq<PoolEntry>, orders: seq<PathOrder>, i: nat)
    requires i <= |orders| && RouteAll(reg, orders[..i]).Err?
    ensures RouteAll(reg, orders) == Err(NoPool)
  {
    if i < |orders| {
      assert orders[..|orders| - 1][..i] == orders[..i];
      FailedRoute(reg, orders[..|orders| - 1], i);
    } else {
      assert orders[..i] == orders;
    }
  }

  method DropUnroutable(routed: seq<Routed>) returns (dropped: set<int>)
    ensures dropped == Dropped(routed)
  {
    dropped := {};
    for i := 0 to |routed|
      invariant dropped == set k | 0 <= k < i && routed[k].pathLen == 3 :: routed[k].order.orderNonce
    {
      if routed[i].pathLen == 3 {
        dropped := dropped + {routed[i].order.orderNonce};
      }
    }
    ghost var twoHop := dropped;
    for i := 0 to |routed|
      invariant dropped == twoHop
        + set k | 0 <= k < i && routed[k].order.amountIn < MIN_FILL_AMOUNT_IN :: routed[k].order.orderNonce
    {
      if routed[i].order.amountIn < MIN_FILL_AMOUNT_IN {
        dropped := dropped + {routed[i].order.orderNonce};
      }
    }
    forall n
      ensures n in dropped <==> n in Dropped(routed)
    {
      if n in Dropped(routed) {
        var i :| 0 <= i < |routed| && IsDropped(routed[i]) && routed[i].order.orderNonce == n;
        assert routed[i].pathLen == 3 || routed[i].order.amountIn < MIN_FILL_AMOUNT_IN;
      }
    }
  }

  function Lookup(m: map<nat, seq<Order>>, pid: nat): seq<Order> {
    if pid in m then m[pid] else []
  }

  ghost predicate SameKeys(m: map<nat, seq<Order>>, ids: seq<nat>) {
    forall pid :: pid in m <==> pid in ids
  }

  /** Append an order to the batch of every pool its hops visit. */
  method AddVisits(order: Order, hops: seq<nat>, ids0: seq<nat>, batches0: map<nat, seq<Order>>)
    returns (ids: seq<nat>, batches: map<nat, seq<Order>>)
    requires SameKeys(batches0, ids0)
    ensures ids == AddPools(ids0, hops) && SameKeys(batches, ids)
    ensures forall pid :: Lookup(batches, pid) == Lookup(batches0, pid) + Visits(order, hops, pid)
  {
    hide Visits, Lookup, AddPool;
    ids, batches := ids0, batches0;
    NoVisits(order);
    for k := 0 to |hops|
      invariant ids == AddPools(ids0, hops[..k]) && SameKeys(batches, ids)
      invariant forall pid :: Lookup(batches, pid) == Lookup(batches0, pid) + Visits(order, hops[..k], pid)
    {
      assert hops[..k + 1][..k] == hops[..k];
      forall pid {
        OneVisit(order, hops, k, pid, batches, batches0);
      }
      AddPoolKeys(batches, ids, hops[k], Lookup(batches, hops[k]) + [order]);
      batches := batches[hops[k] := Lookup(batches, hops[k]) + [order]];
      ids := AddPool(ids, hops[k]);
    }
    assert hops[..|hops|] == hops;
  }

  lemma NoVisits(order: Order)
    ensures forall pid :: Visits(order, [], pid) == []
  {}

  lemma OneVisit(order: Order, hops: seq<nat>, k: nat, pid: nat,
                 batches: map<nat, seq<Order>>, batches0: map<nat, seq<Order>>)
    requires k < |hops|
    requires Lookup(batches, pid) == Lookup(batches0, pid) + Visits(order, hops[..k], pid)
    ensures Lookup(batches[hops[k] := Lookup(batches, hops[k]) + [order]], pid)
         == Lookup(batches0, pid) + Visits(order, hops[..k + 1], pid)
  {
    assert hops[..k + 1][..k] == hops[..k];
    assert Visits(order, hops[..k + 1], pid)
        == Visits(order, hops[..k], pid) + (if hops[k] == pid then [order] else []);
  }

  lemma AddPoolKeys(batches: map<nat, seq<Order>>, ids: seq<nat>, pid: nat, batch: seq<Order>)
    requires SameKeys(batches, ids)
    ensures SameKeys(batches[pid := batch], AddPool(ids, pid))
  {}

  method BucketOrders(routed: seq<Routed>, dropped: set<int>)
    returns (ids: seq<nat>, batches: map<nat, seq<Order>>)
    ensures ids == PoolIds(routed, dropped) && SameKeys(batches, ids)
    ensures forall pid :: Lookup(batches, pid) == SubBatch(routed, dropped, pid)
  {
    hide SameKeys, Lookup, Visits, AddPools;
    ids, batches := [], map[];
    NoBatches();
    for i := 0 to |routed|
      invariant ids == PoolIds(routed[..i], dropped) && SameKeys(batches, ids)
      invariant forall pid :: Lookup(batches, pid) == SubBatch(routed[..i], dropped, pid)
    {
      assert routed[..i + 1][..i] == routed[..i];
      if routed[i].order.orderNonce !in dropped {
        ids, batches := AddVisits(routed[i].order, routed[i].hops, ids, batches);
      }
    }
    assert routed[..|routed|] == routed;
  }

  lemma NoBatches()
    ensures SameKeys(map[], []) && forall pid :: Lookup(map[], pid) == []
  {}

  method ClearEachPool(pools: map<nat, Pool>, routed: seq<Routed>, dropped: set<int>)
    returns (r: Result<seq<PoolClearing>>)
    ensures r == ClearPools(pools, routed, dropped, PoolIds(routed, dropped))
  {
    hide ClearV2, SubBatch, PoolIds;
    var ids, batches := BucketOrders(routed, dropped);
    var perPool: seq<PoolClearing> := [];
    for i := 0 to |ids|
      invariant ClearPools(pools, routed, dropped, ids[..i]) == Ok(perPool)
    {
      assert ids[..i + 1][..i] == ids[..i];
      var pid := ids[i];
      if pid !in pools {
        continue;
      }
      var c := ComputeClearingV2(pools[pid], Lookup(batches, pid));
      if c.Err? {
        FailedPool(pools, routed, dropped, ids, i + 1, c.error);
        return Err(c.error);
      }
      if c.value.SkippedV2? {
        continue;
      }
      perPool := perPool + [PoolClearing(pid, c.value)];
    }
    assert ids[..|ids|] == ids;
    return Ok(perPool);
  }

  lemma {:induction false} FailedPool(pools: map<nat, Pool>, routed: seq<Routed>, dropped: set<int>,
                                      ids: seq<nat>, i: nat, e: Error)
    requires i <= |ids| && ClearPools(pools, routed, dropped, ids[..i]) == Err(e)
    ensures ClearPools(pools, routed, dropped, ids) == Err(e)
  {
    hide ClearV2, SubBatch;
    if i < |ids| {
      assert ids[..|ids| - 1][..i] == ids[..i];
      FailedPool(pools, routed, dropped, ids[..|ids| - 1], i, e);
    } else {
      assert ids[..i] == ids;
    }
  }

  method EmitFills(routed: seq<Routed>, dropped: set<int>, perPool: seq<PoolClearing>)
    returns (fills: seq<HopFill>)
    ensures fills == Emit(routed, dropped, perPool)
  {
    hide FillFor;
    fills := [];
    for i := 0 to |routed|
      invariant fills == Emit(routed[..i], dropped, perPool)
    {
      assert routed[..i + 1][..i] == routed[..i];
      var f := FillFor(routed[i], dropped, perPool);
      if f.Some? {
        fills := fills + [f.value];
      }
    }
    assert routed[..|routed|] == routed;
  }

  /**
   The router. Its fixed-point loop re-clears while the composite pass drops two-hop
   orders; every two-hop order is already dropped, so one clearing is always enough.
   */
  method ComputeClearingMultiPair(orders: seq<PathOrder>, pools: map<nat, Pool>, reg: seq<PoolEntry>)
    returns (r: Result<MultiResult>)
    ensures r == ClearMulti(orders, pools, reg)
  {
    hide RouteAll, ClearPools, PoolIds, Emit, Sort, Dropped;
    var routing := RouteOrders(reg, orders);
    if routing.Err? {
      return Err(routing.error);
    }
    var routed := routing.value;
    var dropped := DropUnroutable(routed);
    var prevDroppedSize := -1;
    var perPool: seq<PoolClearing> := [];
    for iter := 0 to MULTI_PAIR_MAX_ITERS
      invariant dropped == Dropped(routed)
      invariant iter > 0 ==> prevDroppedSize == |dropped|
      invariant iter > 0 ==> ClearPools(pools, routed, dropped, PoolIds(routed, dropped)) == Ok(perPool)
    {
      if iter > 0 && |dropped| == prevDroppedSize {
        break;
      }
      prevDroppedSize := |dropped|;
      var cleared := ClearEachPool(pools, routed, dropped);
      if cleared.Err? {
        return Err(cleared.error);
      }
      perPool := cleared.value;
      for i := 0 to |routed| {
        if routed[i].pathLen == 3 && routed[i].order.orderNonce !in dropped {
          TwoHopIsDropped(routed, i);
          assert false;
        }
      }
    }
    if |perPool| == 0 {
      return Ok(NotCleared);
    }
    var fills := EmitFills(routed, dropped, perPool);
    return Ok(MultiCleared(Sort(perPool, PoolIdOrder), fills));
  }

  lemma TwoHopIsDropped(routed: seq<Routed>, i: nat)
    requires i < |routed| && routed[i].pathLen == 3
    ensures routed[i].order.orderNonce in Dropped(routed)
  {
    assert IsDropped(routed[i]);
  }
}
