/**
 From a submission to what makers redeem: no run of claims takes more than the submitted
 fills, and every order the clearing filled can be redeemed by its owner, for its own fill.
 */
module Redemption {
  import opened FixedPoint
  import opened Sequences
  import opened Swap
  import opened Price
  import opened Clearing
  import opened Conservation
  import opened Reveals
  import opened Registry
  import opened MultiPair
  import opened Settlement
  import opened Slots
  import opened Merkle
  import opened Cycle
  import opened Pipeline
  import opened Payouts
  import opened Entitlement
  import opened Claims

  // -------------------------------------------------------- no negative payout

  lemma SideNonNeg(side: seq<Order>, total: nat)
    requires SideFills(side, total).Ok?
    ensures forall f :: f in SideFills(side, total).value ==> f.amountOut >= 0
  {
    hide SideFills;
    SideIsExact(side, total);
    var fills := SideFills(side, total).value;
    forall i | 0 <= i < |fills|
      ensures fills[i].amountOut >= 0
    {
      SideIsFair(side, total, i);
    }
  }

  /** No clearing pays a negative amount. */
  lemma FillsNonNeg(pool: Pool, orders: seq<Order>)
    requires Clear(pool, orders).Ok? && Clear(pool, orders).value.Cleared?
    ensures forall f :: f in Clear(pool, orders).value.fills ==> f.amountOut >= 0
  {
    hide RouteNet, SideFills, Clear, SelectBatch, YTotal, XTotal, Buys, Sells, FindPrice, TotalIn;
    ClearedUnfolds(pool, orders);
    var c, ev := Clear(pool, orders).value, SettledEval(pool, orders);
    SettlementPrice(ev, c.price);
    TotalsAreNonNegative(pool, SelectBatch(orders), c.price);
    SideNonNeg(ev.eligibleBuys, YTotal(ev));
    SideNonNeg(ev.eligibleSells, XTotal(ev));
    var n := |ev.eligibleBuys|;
    assert c.fills == c.fills[..n] + c.fills[n..];
  }

  lemma {:induction false} EmittedNonNeg(routed: seq<Routed>, dropped: set<int>, perPool: seq<PoolClearing>)
    requires forall pc, f :: pc in perPool && f in FillsOfPool(pc) ==> f.amountOut >= 0
    ensures forall f :: f in Emit(routed, dropped, perPool) ==> f.amountOut >= 0 && f.hopIndex == 0
  {
    hide FindClearing, FindFill;
    if |routed| > 0 {
      EmittedNonNeg(routed[..|routed| - 1], dropped, perPool);
    }
  }

  lemma RouterNonNeg(orders: seq<PathOrder>, pools: map<nat, Pool>, reg: seq<PoolEntry>)
    requires ClearMulti(orders, pools, reg).Ok? && ClearMulti(orders, pools, reg).value.MultiCleared?
    ensures forall f :: f in ClearMulti(orders, pools, reg).value.fills ==> f.amountOut >= 0 && f.hopIndex == 0
  {
    hide ClearV2, Emit, SubBatch, Dropped, RouteAll, PoolIds, ClearPools, Sort, Clear;
    var routed := RouteAll(reg, orders).value;
    var dropped := Dropped(routed);
    var ids := PoolIds(routed, dropped);
    var perPool := ClearPools(pools, routed, dropped, ids).value;
    PoolIdsDistinct(routed, dropped);
    ClearedPools(pools, routed, dropped, ids);
    forall pc, f | pc in perPool && f in FillsOfPool(pc)
      ensures f.amountOut >= 0
    {
      V2Fills(pools[pc.poolId], SubBatch(routed, dropped, pc.poolId));
      FillsNonNeg(pools[pc.poolId], SubBatch(routed, dropped, pc.poolId));
    }
    EmittedNonNeg(routed, dropped, perPool);
  }

  lemma LeavesNonNeg(fills: seq<HopFill>, active: seq<PoolClearing>)
    requires RemapAll(fills, active).Ok? && forall f :: f in fills ==> f.amountOut >= 0 && f.hopIndex == 0
    ensures forall l :: l in ToLeaves(RemapAll(fills, active).value) ==> l.amountOut >= 0 && l.hopIndex == 0
  {
    hide RemapAll, SlotOf;
    var slotted := RemapAll(fills, active).value;
    forall i | 0 <= i < |slotted|
      ensures slotted[i].amountOut >= 0 && slotted[i].hopIndex == 0
    {
      assert Remapped(fills[i], active) == Ok(slotted[i]) && fills[i] in fills;
    }
  }

  /** What a submission commits to: a root over leaves that pay nothing negative. */
  lemma SubmittedLeaves(w: World, epoch: EpochInfo, payloads: seq<Payload>)
    requires Plan(w, epoch, payloads).Ok? && Plan(w, epoch, payloads).value.Settle?
    ensures
      var public := Plan(w, epoch, payloads).value.public;
      && RootOf(w.h, public.fillsRoot, public.fills)
      && forall l :: l in public.fills ==> l.amountOut >= 0 && l.hopIndex == 0
  {
    hide Plan, Accepted, ClearMulti, Commit, RemapAll, ToLeaves, Root, HopLeaves, ToOrders, FlowsOf, DistinctLeaves;
    var public := Plan(w, epoch, payloads).value.public;
    var routes, active, fills := SettledPlan(w, epoch, payloads);
    CommitKeepsPools(w, epoch, public.pools, fills);
    RouterNonNeg(ToOrders(Accepted(w, epoch, payloads), routes), active, w.reg);
    LeavesNonNeg(fills, public.pools);
  }

  // ------------------------------------------------------------- the redemption

  /** Whoever claims whatever against a submitted root, in whatever order: never more than the submitted fills. */
  lemma RedeemedWithinFills(w: World, epoch: EpochInfo, payloads: seq<Payload>, claims: seq<Claim>)
    requires Injective(w.h) && Plan(w, epoch, payloads).Ok? && Plan(w, epoch, payloads).value.Settle?
    ensures
      var public := Plan(w, epoch, payloads).value.public;
      PaidOut(w.h, Book(public.fillsRoot, {}), claims) <= SumOver(public.fills, LeafAmount)
  {
    hide Plan, RootOf, Injective, PaidOut, Run;
    var public := Plan(w, epoch, payloads).value.public;
    SubmittedLeaves(w, epoch, payloads);
    ClaimsNeverExceedFills(w.h, public.fillsRoot, public.fills, claims);
  }

  lemma {:induction false} LeafSlot(leaves: seq<HopLeaf>, nonce: int) returns (slot: nat)
    requires FindLeaf(leaves, nonce).Some?
    ensures slot < |leaves| && leaves[slot] == FindLeaf(leaves, nonce).value
  {
    if leaves[|leaves| - 1].orderNonce == nonce {
      slot := |leaves| - 1;
    } else {
      slot := LeafSlot(leaves[..|leaves| - 1], nonce);
    }
  }

  /**
   From commitment to payout: a committed order that its pool's clearing fills has a slot
   in the submission, and as long as that slot is unpaid its owner has a claim on it that
   the contract pays, for the order's own fill.
   */
  lemma EntitledOrderIsRedeemed(w: World, epoch: EpochInfo, payloads: seq<Payload>, committed: seq<Reveal>, i: nat,
                                pid: nat, paid: set<nat>)
    returns (c: Claim, k: nat)
    requires Injective(w.h) && NeverZero(w.h) && epoch.orderAcc == OrderAcc(w.h, Cis(w.h, committed))
    requires epoch.orderCount > 0 && DistinctBy(committed, RevealNonce) && i < |committed|
    requires Plan(w, epoch, payloads).Ok? && Plan(w, epoch, payloads).value.Settle?
    requires Entitled(w, committed, committed[i], pid)
    ensures
      var public, v := Plan(w, epoch, payloads).value.public, committed[i];
      && c.maker == v.owner && c.orderNonce == v.orderNonce && c.leafIndex < |public.fills|
      && (c.leafIndex !in paid ==> Pays(w.h, Book(public.fillsRoot, paid), c))
      && OwnFill(w.pools[pid], Entrants(w, committed, pid), OrderOf(v), k, c.amountOut)
      && KeepsPromise(w.pools[pid], Entrants(w, committed, pid), OrderOf(v), c.amountOut)
  {
    hide Plan, OrderAcc, Cis, Injective, NeverZero, Entitled, RootOf, OwnFill, KeepsPromise, FindLeaf, ClearV2, Pays,
         Enters, Entrants;
    var public, v := Plan(w, epoch, payloads).value.public, committed[i];
    SubmittedLeafExactly(w, epoch, payloads, committed, i);
    IsEntitled(w, committed, v, pid);
    SubmittedLeaves(w, epoch, payloads);
    var slot := LeafSlot(public.fills, v.orderNonce);
    c := EveryFillIsClaimable(w.h, Book(public.fillsRoot, paid - {slot}), public.fills, slot);
    k := SubmittedLeafPays(w, epoch, payloads, committed, i);
    OnePoolOnly(w, committed, v, pid, public.pools[FindLeaf(public.fills, v.orderNonce).value.poolId].poolId);
    if slot !in paid {
      assert paid - {slot} == paid;
    }
  }

  lemma IsEntitled(w: World, committed: seq<Reveal>, v: Reveal, pid: nat)
    requires Entitled(w, committed, v, pid)
    ensures pid in w.pools && exists p :: Entitled(w, committed, v, p)
  {}

  lemma OnePoolOnly(w: World, committed: seq<Reveal>, v: Reveal, pid: nat, pid': nat)
    requires Entitled(w, committed, v, pid) && Enters(w, v, pid')
    ensures pid == pid'
  {
    hide RouteOf, ResolvePoolId, Fills;
  }
}
