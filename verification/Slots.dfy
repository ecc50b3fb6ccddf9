/**
 Rewriting each fill's pool id from the global id to the slot of that pool among
 the active pools, in place.
 */
module Slots {
  import opened FixedPoint
  import opened Sequences
  import opened MultiPair
  import Registry
  import Swap

  /** Slot of a pool id in the ascending list of active pools. */
  function SlotOf(active: seq<PoolClearing>, pid: nat): (r: Option<nat>)
    ensures r.Some? ==> r.value < |active| && active[r.value].poolId == pid
    ensures r.None? ==> forall pc :: pc in active ==> pc.poolId != pid
  {
    if |active| == 0 then None
    else
      match SlotOf(active[..|active| - 1], pid)
      case Some(slot) => Some(slot)
      case None => if active[|active| - 1].poolId == pid then Some(|active| - 1) else None
  }

  function Remapped(f: HopFill, active: seq<PoolClearing>): Result<HopFill> {
    match SlotOf(active, f.poolId)
    case None => Err(UnknownFillPool)
    case Some(slot) => Ok(f.(poolId := slot))
  }

  function RemapAll(fills: seq<HopFill>, active: seq<PoolClearing>): (r: Result<seq<HopFill>>)
    ensures r.Ok? ==> |r.value| == |fills| && forall i :: 0 <= i < |fills| ==>
      Remapped(fills[i], active) == Ok(r.value[i])
    ensures r.Err? ==> exists i :: 0 <= i < |fills| && Remapped(fills[i], active).Err?
    ensures r.Err? ==> r.error == UnknownFillPool
  {
    if |fills| == 0 then Ok([])
    else
      var earlier :- RemapAll(fills[..|fills| - 1], active);
      var last :- Remapped(fills[|fills| - 1], active);
      Ok(earlier + [last])
  }

  /** Throws at the first unknown pool; the fills before it are already rewritten by then. */
  method RemapFillPoolIdsToSlots(fills: array<HopFill>, active: seq<PoolClearing>) returns (r: Option<Error>)
    modifies fills
    ensures r.None? <==> RemapAll(old(fills[..]), active).Ok?
    ensures r.None? ==> RemapAll(old(fills[..]), active) == Ok(fills[..])
    ensures r.Some? ==> r.value == UnknownFillPool
  {
    for i := 0 to fills.Length
      invariant RemapAll(old(fills[..])[..i], active) == Ok(fills[..i])
      invariant fills[i..] == old(fills[..])[i..]
    {
      assert old(fills[..])[..i + 1][..i] == old(fills[..])[..i];
      assert fills[i] == old(fills[..])[i];
      var slot := SlotOf(active, fills[i].poolId);
      if slot.None? {
        assert Remapped(old(fills[..])[i], active).Err?;
        return Some(UnknownFillPool);
      }
      ghost var before := fills[..i];
      ghost var rest := fills[i + 1..];
      fills[i] := fills[i].(poolId := slot.value);
      assert fills[..i] == before;
      assert fills[..i + 1] == before + [fills[i]];
      assert fills[i + 1..] == rest;
    }
    assert old(fills[..])[..fills.Length] == old(fills[..]);
    assert fills[..fills.Length] == fills[..];
    return None;
  }

  /** Looking a slot up again gives the global id back: remapping is one-to-one. */
  lemma SlotRoundTrip(fills: seq<HopFill>, active: seq<PoolClearing>, i: nat)
    requires RemapAll(fills, active).Ok? && i < |fills|
    ensures
      var g := RemapAll(fills, active).value[i];
      && g.poolId < |active| && active[g.poolId].poolId == fills[i].poolId
      && g.(poolId := fills[i].poolId) == fills[i]
  {
    assert Remapped(fills[i], active).Ok?;
  }

  /** Every emitted fill comes from a surviving order and names a cleared pool. */
  lemma {:induction false} EmittedFillsNamePools(routed: seq<Routed>, dropped: set<int>,
                                                 perPool: seq<PoolClearing>, f: HopFill)
    requires f in Emit(routed, dropped, perPool)
    ensures exists pc :: pc in perPool && pc.poolId == f.poolId
    ensures exists r :: r in routed && r.order.orderNonce == f.orderNonce && r.order.owner == f.owner
                        && r.order.orderNonce !in dropped && |r.hops| > 0 && r.hops[0] == f.poolId
    ensures f.hopIndex == 0
  {
    hide FindClearing, FindFill;
    var n := |routed| - 1;
    if f in Emit(routed[..n], dropped, perPool) {
      EmittedFillsNamePools(routed[..n], dropped, perPool, f);
      var r :| r in routed[..n] && r.order.orderNonce == f.orderNonce && r.order.owner == f.owner
               && r.order.orderNonce !in dropped && |r.hops| > 0 && r.hops[0] == f.poolId;
      assert r in routed;
    } else {
      assert FillFor(routed[n], dropped, perPool) == Some(f);
      var pc := FindClearing(perPool, f.poolId).value;
      assert pc in perPool && pc.poolId == f.poolId;
      assert routed[n] in routed;
    }
  }

  /** The remapping of a cleared result never meets an unknown pool. */
  lemma ClearedFillsRemap(orders: seq<PathOrder>, pools: map<nat, Swap.Pool>, reg: seq<Registry.PoolEntry>)
    requires ClearMulti(orders, pools, reg).Ok? && ClearMulti(orders, pools, reg).value.MultiCleared?
    ensures
      var r := ClearMulti(orders, pools, reg).value;
      RemapAll(r.fills, r.perPool).Ok?
  {
    hide Emit, Dropped, ClearPools, PoolIds, RouteAll, Sort, SlotOf;
    var routed := RouteAll(reg, orders).value;
    var dropped := Dropped(routed);
    var perPool := ClearPools(pools, routed, dropped, PoolIds(routed, dropped)).value;
    var r := ClearMulti(orders, pools, reg).value;
    forall f | f in r.fills
      ensures Remapped(f, r.perPool).Ok?
    {
      EmittedFillsNamePools(routed, dropped, perPool, f);
      var pc :| pc in perPool && pc.poolId == f.poolId;
      SortPermutes(perPool, PoolIdOrder);
      assert pc in multiset(Sort(perPool, PoolIdOrder));
      assert pc in r.perPool;
    }
  }
}
