/**
 End to end: what the router emits for a pool is exactly what that pool's clearing
 paid, so conservation holds for the emitted fills and the gross pool flows.
 */
module Settlement {
  import opened FixedPoint
  import opened Sequences
  import opened Swap
  import opened Price
  import opened PriceTheory
  import opened Clearing
  import opened Conservation
  import opened Registry
  import opened MultiPair

  // ---------------------------------------------------- one pool's own fills

  /** What a fill is worth: its payout, or the input it consumed. */
  function Worth(paid: bool, o: Order, f: Fill): int {
    if paid then f.amountOut else o.amountIn
  }

  /** An order's part in a pool's fills, on one side of the book. */
  function PartIn(fills: seq<Fill>, side: bool, paid: bool, o: Order): int {
    if o.side != side then 0
    else match FindFill(fills, o.orderNonce)
      case None => 0
      case Some(f) => Worth(paid, o, f)
  }

  function FillNonce(f: Fill): int { f.orderNonce }

  lemma {:induction false} FindFillAt(fills: seq<Fill>, i: nat)
    requires DistinctBy(fills, FillNonce) && i < |fills|
    ensures FindFill(fills, fills[i].orderNonce) == Some(fills[i])
  {
    if i > 0 {
      assert FillNonce(fills[0]) != FillNonce(fills[i]);
      FindFillAt(fills[1..], i - 1);
    }
  }

  /** Fills that name the buys and then the sells of a batch, in turn. */
  ghost predicate NamesSides(fills: seq<Fill>, buys: seq<Order>, sells: seq<Order>) {
    && |fills| == |buys| + |sells|
    && (forall i :: 0 <= i < |buys| ==> fills[i].orderNonce == buys[i].orderNonce)
    && (forall i :: 0 <= i < |sells| ==> fills[|buys| + i].orderNonce == sells[i].orderNonce)
  }

  lemma SidesAreDistinct(batch: seq<Order>, p: nat, fills: seq<Fill>)
    requires DistinctBy(batch, Nonce) && NamesSides(fills, Buys(batch, p), Sells(batch, p))
    ensures DistinctBy(fills, FillNonce)
  {
    var buys, sells := Buys(batch, p), Sells(batch, p);
    DistinctFilter(batch, o => BuyEligible(o, p), Nonce);
    DistinctFilter(batch, o => SellEligible(o, p), Nonce);
    forall i, j | 0 <= i < j < |fills|
      ensures FillNonce(fills[i]) != FillNonce(fills[j])
    {
      if j < |buys| {
        assert Nonce(buys[i]) != Nonce(buys[j]);
      } else if i >= |buys| {
        assert fills[|buys| + (i - |buys|)] == fills[i] && fills[|buys| + (j - |buys|)] == fills[j];
        assert Nonce(sells[i - |buys|]) != Nonce(sells[j - |buys|]);
      } else {
        assert fills[|buys| + (j - |buys|)] == fills[j];
        DifferentSides(batch, buys[i], sells[j - |buys|]);
      }
    }
  }

  lemma DifferentSides(batch: seq<Order>, a: Order, b: Order)
    requires DistinctBy(batch, Nonce) && a in batch && b in batch && a.side != b.side
    ensures a.orderNonce != b.orderNonce
  {
    var i :| 0 <= i < |batch| && batch[i] == a;
    var j :| 0 <= j < |batch| && batch[j] == b;
    assert Nonce(batch[i]) != Nonce(batch[j]);
  }

  lemma SameNonceSameOrder(batch: seq<Order>, a: Order, b: Order)
    requires DistinctBy(batch, Nonce) && a in batch && b in batch && a.orderNonce == b.orderNonce
    ensures a == b
  {
    var i :| 0 <= i < |batch| && batch[i] == a;
    var j :| 0 <= j < |batch| && batch[j] == b;
    assert i != j ==> Nonce(batch[i]) != Nonce(batch[j]);
  }

  function EligibleOn(side: bool, o: Order, p: nat): bool {
    if side then SellEligible(o, p) else BuyEligible(o, p)
  }

  /** Every fill names an eligible order of the batch. */
  lemma FillNamesOrder(batch: seq<Order>, p: nat, fills: seq<Fill>, f: Fill) returns (o: Order)
    requires NamesSides(fills, Buys(batch, p), Sells(batch, p)) && f in fills
    ensures o in batch && o.orderNonce == f.orderNonce && EligibleOn(o.side, o, p)
  {
    var buys, sells := Buys(batch, p), Sells(batch, p);
    var k :| 0 <= k < |fills| && fills[k] == f;
    if k < |buys| {
      o := buys[k];
    } else {
      o := sells[k - |buys|];
      assert fills[|buys| + (k - |buys|)] == fills[k];
    }
  }

  lemma EligibleHasFill(batch: seq<Order>, p: nat, fills: seq<Fill>, o: Order)
    requires NamesSides(fills, Buys(batch, p), Sells(batch, p))
    requires o in batch && EligibleOn(o.side, o, p)
    ensures exists f :: f in fills && f.orderNonce == o.orderNonce
  {
    var buys, sells := Buys(batch, p), Sells(batch, p);
    if o.side {
      var i :| 0 <= i < |sells| && sells[i] == o;
      assert fills[|buys| + i] in fills;
    } else {
      var i :| 0 <= i < |buys| && buys[i] == o;
      assert fills[i] in fills;
    }
  }

  /** A batch order has a fill exactly when it is eligible. */
  lemma FillIffEligible(batch: seq<Order>, p: nat, fills: seq<Fill>, o: Order)
    requires DistinctBy(batch, Nonce) && NamesSides(fills, Buys(batch, p), Sells(batch, p)) && o in batch
    ensures FindFill(fills, o.orderNonce).Some? <==> EligibleOn(o.side, o, p)
  {
    hide NamesSides, FindFill;
    if EligibleOn(o.side, o, p) {
      EligibleHasFill(batch, p, fills, o);
    }
    if FindFill(fills, o.orderNonce).Some? {
      var e := FillNamesOrder(batch, p, fills, FindFill(fills, o.orderNonce).value);
      SameNonceSameOrder(batch, e, o);
    }
  }

  /** Summed over the batch, the parts of one side are that side's fills. */
  lemma BatchParts(batch: seq<Order>, p: nat, fills: seq<Fill>, side: bool, paid: bool, part: Order -> int)
    requires DistinctBy(batch, Nonce) && NamesSides(fills, Buys(batch, p), Sells(batch, p))
    requires forall o :: part(o) == PartIn(fills, side, paid, o)
    ensures SumOver(batch, part) == SumOver(Eligible(batch, side, p), part)
  {
    forall i | 0 <= i < |batch|
      ensures part(batch[i]) == if EligibleOn(side, batch[i], p) then part(batch[i]) else 0
    {
      FillIffEligible(batch, p, fills, batch[i]);
    }
    if side {
      SumFilter(batch, o => SellEligible(o, p), part, part);
    } else {
      SumFilter(batch, o => BuyEligible(o, p), part, part);
    }
  }

  /** Position of a side's fills. */
  function SidePart(fills: seq<Fill>, n: nat, side: bool): seq<Fill>
    requires n <= |fills|
  {
    if side then fills[n..] else fills[..n]
  }

  lemma {:induction false} AlignedParts(orders: seq<Order>, fills: seq<Fill>, part: Order -> int, paid: bool)
    requires |orders| == |fills|
    requires forall i :: 0 <= i < |orders| ==> part(orders[i]) == Worth(paid, orders[i], fills[i])
    ensures SumOver(orders, part) == if paid then SumOver(fills, Out) else TotalIn(orders)
  {
    if |orders| > 0 {
      AlignedParts(orders[..|orders| - 1], fills[..|orders| - 1], part, paid);
    }
  }

  lemma SideParts(batch: seq<Order>, p: nat, fills: seq<Fill>, side: bool, paid: bool, part: Order -> int)
    requires DistinctBy(batch, Nonce) && NamesSides(fills, Buys(batch, p), Sells(batch, p))
    requires forall o :: part(o) == PartIn(fills, side, paid, o)
    ensures
      var orders := Eligible(batch, side, p);
      SumOver(orders, part)
      == if paid then SumOver(SidePart(fills, |Buys(batch, p)|, side), Out) else TotalIn(orders)
  {
    var orders, n := Eligible(batch, side, p), |Buys(batch, p)|;
    var mine := SidePart(fills, n, side);
    SidesAreDistinct(batch, p, fills);
    forall i | 0 <= i < |orders|
      ensures part(orders[i]) == Worth(paid, orders[i], mine[i])
    {
      FindFillAt(fills, if side then n + i else i);
    }
    AlignedParts(orders, mine, part, paid);
  }

  /** Summed over all submitted orders of the pool, the parts of one side are that side's fills. */
  lemma SubmittedParts(orders: seq<Order>, p: nat, fills: seq<Fill>, side: bool, paid: bool, part: Order -> int)
    requires DistinctBy(orders, Nonce)
    requires NamesSides(fills, Buys(SelectBatch(orders), p), Sells(SelectBatch(orders), p))
    requires forall o :: part(o) == PartIn(fills, side, paid, o)
    ensures
      var eligible := Eligible(SelectBatch(orders), side, p);
      SumOver(orders, part)
      == if paid then SumOver(SidePart(fills, |Buys(SelectBatch(orders), p)|, side), Out) else TotalIn(eligible)
  {
    hide Eligible, NamesSides, FindFill, SelectBatch, Buys, Sells;
    var batch := SelectBatch(orders);
    var rest := LeftOut(orders);
    SumPermutation(orders, batch + rest, part);
    SumAppend(batch, rest, part);
    LeftOutParts(batch, rest, p, fills, side, paid, part);
    BatchParts(batch, p, fills, side, paid, part);
    SideParts(batch, p, fills, side, paid, part);
  }

  /** The orders the cut leaves out. */
  lemma LeftOut(orders: seq<Order>) returns (rest: seq<Order>)
    requires DistinctBy(orders, Nonce)
    ensures multiset(orders) == multiset(SelectBatch(orders) + rest)
    ensures DistinctBy(SelectBatch(orders) + rest, Nonce) && DistinctBy(SelectBatch(orders), Nonce)
  {
    var batch, sorted := SelectBatch(orders), Sort(orders, Fifo);
    SortPermutes(orders, Fifo);
    DistinctPermutation(orders, sorted, Nonce);
    rest := sorted[|batch|..];
    assert sorted == batch + rest;
    forall i, j | 0 <= i < j < |batch|
      ensures Nonce(batch[i]) != Nonce(batch[j])
    {
      assert batch[i] == sorted[i] && batch[j] == sorted[j];
    }
  }

  lemma LeftOutParts(batch: seq<Order>, rest: seq<Order>, p: nat, fills: seq<Fill>, side: bool, paid: bool,
                     part: Order -> int)
    requires DistinctBy(batch + rest, Nonce)
    requires NamesSides(fills, Buys(batch, p), Sells(batch, p))
    requires forall o :: part(o) == PartIn(fills, side, paid, o)
    ensures SumOver(rest, part) == 0
  {
    hide NamesSides, FindFill, Buys, Sells;
    var sorted, n := batch + rest, |batch|;
    assert sorted[..n] == batch;
    forall i | 0 <= i < |rest|
      ensures part(rest[i]) == 0
    {
      OutsideBatch(sorted, n, i, fills, p);
      assert sorted[n..][i] == rest[i];
    }
    SumZero(rest, part);
  }

  lemma OutsideBatch(sorted: seq<Order>, n: nat, i: nat, fills: seq<Fill>, p: nat)
    requires DistinctBy(sorted, Nonce) && n + i < |sorted|
    requires NamesSides(fills, Buys(sorted[..n], p), Sells(sorted[..n], p))
    ensures FindFill(fills, sorted[n..][i].orderNonce) == None
  {
    hide NamesSides, FindFill;
    var found := FindFill(fills, sorted[n + i].orderNonce);
    if found.Some? {
      var o := FillNamesOrder(sorted[..n], p, fills, found.value);
      NonceOutside(sorted, n, i, o);
    }
  }

  lemma NonceOutside(sorted: seq<Order>, n: nat, i: nat, o: Order)
    requires DistinctBy(sorted, Nonce) && n + i < |sorted| && o in sorted[..n]
    ensures o.orderNonce != sorted[n + i].orderNonce
  {
    var j :| 0 <= j < n && sorted[j] == o;
    assert Nonce(sorted[j]) != Nonce(sorted[n + i]);
  }

  // ------------------------------------------------------- the emitted fills

  function FindHop(fills: seq<HopFill>, nonce: int): (r: Option<HopFill>)
    ensures r.Some? ==> r.value in fills && r.value.orderNonce == nonce
  {
    if |fills| == 0 then None
    else
      var f := fills[|fills| - 1];
      if f.orderNonce == nonce then Some(f) else FindHop(fills[..|fills| - 1], nonce)
  }

  /** What an order received (or put in) through a pool, read off the emitted fills. */
  function EmittedPart(fills: seq<HopFill>, pid: nat, side: bool, paid: bool, o: PathOrder): int {
    if o.order.side != side then 0
    else match FindHop(fills, o.order.orderNonce)
      case None => 0
      case Some(f) => if f.poolId != pid then 0 else if paid then f.amountOut else o.order.amountIn
  }

  /** Total paid out to, or put in by, the filled orders of one side of one pool. */
  function Emitted(orders: seq<PathOrder>, fills: seq<HopFill>, pid: nat, side: bool, paid: bool): int {
    SumOver(orders, o => EmittedPart(fills, pid, side, paid, o))
  }

  /** With distinct nonces, looking a nonce up in the emitted fills finds that order's own fill. */
  lemma {:induction false} EmittedFillFor(routed: seq<Routed>, dropped: set<int>, perPool: seq<PoolClearing>, i: nat)
    requires DistinctBy(routed, RoutedNonce) && i < |routed|
    ensures FindHop(Emit(routed, dropped, perPool), routed[i].order.orderNonce) == FillFor(routed[i], dropped, perPool)
  {
    hide FindClearing, FindFill;
    var n := |routed| - 1;
    var earlier := Emit(routed[..n], dropped, perPool);
    var nonce := routed[i].order.orderNonce;
    if FillFor(routed[n], dropped, perPool).Some? {
      assert Emit(routed, dropped, perPool)[..|earlier|] == earlier;
    }
    if i < n {
      assert RoutedNonce(routed[i]) != RoutedNonce(routed[n]);
      EmittedFillFor(routed[..n], dropped, perPool, i);
    } else {
      NeverEmitted(routed[..n], dropped, perPool, nonce);
    }
  }

  lemma {:induction false} NeverEmitted(routed: seq<Routed>, dropped: set<int>, perPool: seq<PoolClearing>, nonce: int)
    requires forall i :: 0 <= i < |routed| ==> routed[i].order.orderNonce != nonce
    ensures FindHop(Emit(routed, dropped, perPool), nonce) == None
  {
    hide FindClearing, FindFill;
    if |routed| > 0 {
      var n := |routed| - 1;
      NeverEmitted(routed[..n], dropped, perPool, nonce);
      if FillFor(routed[n], dropped, perPool).Some? {
        var earlier := Emit(routed[..n], dropped, perPool);
        assert Emit(routed, dropped, perPool)[..|earlier|] == earlier;
      }
    }
  }

  /** A surviving order visits exactly its one pool. */
  predicate DirectIn(r: Routed, dropped: set<int>, pid: nat) {
    r.order.orderNonce !in dropped && r.hops == [pid]
  }

  ghost predicate SurvivorsAreDirect(routed: seq<Routed>, dropped: set<int>) {
    forall i :: 0 <= i < |routed| && routed[i].order.orderNonce !in dropped ==> |routed[i].hops| == 1
  }

  /** A pool's sub-batch is its surviving direct orders, so sums over it are masked sums. */
  lemma {:induction false} SubBatchSum(routed: seq<Routed>, dropped: set<int>, pid: nat,
                                       part: Order -> int, masked: Routed -> int)
    requires SurvivorsAreDirect(routed, dropped)
    requires forall r :: masked(r) == if DirectIn(r, dropped, pid) then part(r.order) else 0
    ensures SumOver(SubBatch(routed, dropped, pid), part) == SumOver(routed, masked)
  {
    if |routed| > 0 {
      var n := |routed| - 1;
      assert SurvivorsAreDirect(routed[..n], dropped);
      SubBatchSum(routed[..n], dropped, pid, part, masked);
      if routed[n].order.orderNonce !in dropped {
        OneVisitOnly(routed[n], pid);
        if routed[n].hops == [pid] {
          SumSnoc(SubBatch(routed[..n], dropped, pid), routed[n].order, part);
        } else {
          assert SubBatch(routed[..n], dropped, pid) + [] == SubBatch(routed[..n], dropped, pid);
        }
      } else {
        assert SubBatch(routed[..n], dropped, pid) + [] == SubBatch(routed[..n], dropped, pid);
      }
    }
  }

  lemma OneVisitOnly(r: Routed, pid: nat)
    requires |r.hops| == 1
    ensures Visits(r.order, r.hops, pid) == if r.hops == [pid] then [r.order] else []
  {
    assert r.hops == [r.hops[0]];
    assert Visits(r.order, r.hops[..0], pid) == [];
  }

  /** Sub-batches inherit distinct nonces. */
  lemma {:induction false} SubBatchDistinct(routed: seq<Routed>, dropped: set<int>, pid: nat)
    requires DistinctBy(routed, RoutedNonce) && SurvivorsAreDirect(routed, dropped)
    ensures DistinctBy(SubBatch(routed, dropped, pid), Nonce)
    ensures forall o :: o in SubBatch(routed, dropped, pid) ==> DirectMember(routed, dropped, pid, o)
  {
    hide DirectMember, SubBatch, DirectIn;
    if |routed| > 0 {
      var n := |routed| - 1;
      var init, last := routed[..n], routed[n];
      SubBatchDistinct(init, dropped, pid);
      SubBatchStep(routed, dropped, pid);
      var earlier := SubBatch(init, dropped, pid);
      forall o | o in earlier
        ensures DirectMember(routed, dropped, pid, o) && Nonce(o) != Nonce(last.order)
      {
        MemberStays(routed, dropped, pid, o);
      }
      if DirectIn(last, dropped, pid) {
        LastMember(routed, dropped, pid);
        DistinctSnoc(earlier, last.order);
      }
    } else {
      NoSubBatch(dropped, pid);
    }
  }

  lemma {:induction false} AddPoolsKeeps(ids: seq<nat>, hops: seq<nat>, pid: nat)
    requires pid in ids || pid in hops
    ensures pid in AddPools(ids, hops)
  {
    if |hops| > 0 {
      if pid != hops[|hops| - 1] {
        AddPoolsKeeps(ids, hops[..|hops| - 1], pid);
      }
    }
  }

  /** Every pool that a surviving order visits is cleared. */
  lemma {:induction false} SurvivorIsVisited(routed: seq<Routed>, dropped: set<int>, i: nat, pid: nat)
    requires i < |routed| && DirectIn(routed[i], dropped, pid)
    ensures pid in PoolIds(routed, dropped)
  {
    var n := |routed| - 1;
    if i < n {
      SurvivorIsVisited(routed[..n], dropped, i, pid);
    }
    if routed[n].order.orderNonce !in dropped {
      AddPoolsKeeps(PoolIds(routed[..n], dropped), routed[n].hops, pid);
    }
  }

  /** No visited pool that clears is left out of the result. */
  lemma {:induction false} ClearedIsKept(pools: map<nat, Pool>, routed: seq<Routed>, dropped: set<int>, ids: seq<nat>,
                                         pid: nat)
    requires ClearPools(pools, routed, dropped, ids).Ok? && pid in ids && pid in pools
    ensures ClearV2(pools[pid], SubBatch(routed, dropped, pid)).Ok?
    ensures
      var c := ClearV2(pools[pid], SubBatch(routed, dropped, pid)).value;
      c.ClearedV2? ==> PoolClearing(pid, c) in ClearPools(pools, routed, dropped, ids).value
  {
    hide ClearV2, SubBatch;
    if pid != ids[|ids| - 1] {
      ClearedIsKept(pools, routed, dropped, ids[..|ids| - 1], pid);
    }
  }

  lemma NoSubBatch(dropped: set<int>, pid: nat)
    ensures SubBatch([], dropped, pid) == []
  {}

  lemma SubBatchStep(routed: seq<Routed>, dropped: set<int>, pid: nat)
    requires |routed| > 0 && SurvivorsAreDirect(routed, dropped)
    ensures
      var earlier, last := SubBatch(routed[..|routed| - 1], dropped, pid), routed[|routed| - 1];
      SubBatch(routed, dropped, pid) == if DirectIn(last, dropped, pid) then earlier + [last.order] else earlier
  {
    var last := routed[|routed| - 1];
    if last.order.orderNonce !in dropped {
      OneVisitOnly(last, pid);
    }
    var earlier := SubBatch(routed[..|routed| - 1], dropped, pid);
    assert earlier + [] == earlier;
  }

  lemma DistinctSnoc(orders: seq<Order>, o: Order)
    requires DistinctBy(orders, Nonce) && forall x :: x in orders ==> Nonce(x) != Nonce(o)
    ensures DistinctBy(orders + [o], Nonce)
  {
    var r := orders + [o];
    forall i, j | 0 <= i < j < |r|
      ensures Nonce(r[i]) != Nonce(r[j])
    {
      assert r[i] == orders[i] && orders[i] in orders;
    }
  }

  /** The order belongs to a surviving direct order of the pool. */
  ghost predicate DirectMember(routed: seq<Routed>, dropped: set<int>, pid: nat, o: Order) {
    exists i :: 0 <= i < |routed| && routed[i].order == o && DirectIn(routed[i], dropped, pid)
  }

  lemma MemberStays(routed: seq<Routed>, dropped: set<int>, pid: nat, o: Order)
    requires |routed| > 0 && DistinctBy(routed, RoutedNonce)
    requires DirectMember(routed[..|routed| - 1], dropped, pid, o)
    ensures DirectMember(routed, dropped, pid, o) && Nonce(o) != Nonce(routed[|routed| - 1].order)
  {
    var n := |routed| - 1;
    var i :| 0 <= i < n && routed[..n][i].order == o && DirectIn(routed[..n][i], dropped, pid);
    assert routed[i] == routed[..n][i];
    assert RoutedNonce(routed[i]) != RoutedNonce(routed[n]);
  }

  lemma LastMember(routed: seq<Routed>, dropped: set<int>, pid: nat)
    requires |routed| > 0 && DirectIn(routed[|routed| - 1], dropped, pid)
    ensures DirectMember(routed, dropped, pid, routed[|routed| - 1].order)
  {}

  // ------------------------------------------------------------ cleared pools

  ghost predicate DistinctIds(ids: seq<nat>) {
    forall i, j :: 0 <= i < j < |ids| ==> ids[i] != ids[j]
  }

  /** Each pool of the result was cleared on its own sub-batch, once. */
  lemma {:induction false} ClearedPools(pools: map<nat, Pool>, routed: seq<Routed>, dropped: set<int>, ids: seq<nat>)
    requires ClearPools(pools, routed, dropped, ids).Ok?
    requires DistinctIds(ids)
    ensures
      var perPool := ClearPools(pools, routed, dropped, ids).value;
      && (forall pc :: pc in perPool ==>
            && pc.poolId in ids && pc.poolId in pools && pc.result.ClearedV2?
            && ClearV2(pools[pc.poolId], SubBatch(routed, dropped, pc.poolId)) == Ok(pc.result))
      && (forall i, j :: 0 <= i < j < |perPool| ==> perPool[i].poolId != perPool[j].poolId)
  {
    hide ClearV2, SubBatch;
    if |ids| > 0 {
      ClearedPools(pools, routed, dropped, ids[..|ids| - 1]);
    }
  }

  lemma {:induction false} AddPoolsDistinct(ids: seq<nat>, hops: seq<nat>)
    requires DistinctIds(ids)
    ensures DistinctIds(AddPools(ids, hops))
  {
    if |hops| > 0 {
      AddPoolsDistinct(ids, hops[..|hops| - 1]);
    }
  }

  lemma {:induction false} PoolIdsDistinct(routed: seq<Routed>, dropped: set<int>)
    ensures DistinctIds(PoolIds(routed, dropped))
  {
    if |routed| > 0 {
      PoolIdsDistinct(routed[..|routed| - 1], dropped);
      AddPoolsDistinct(PoolIds(routed[..|routed| - 1], dropped), routed[|routed| - 1].hops);
    }
  }

  lemma {:induction false} FindClearingIn(perPool: seq<PoolClearing>, pc: PoolClearing)
    requires pc in perPool
    requires forall i, j :: 0 <= i < j < |perPool| ==> perPool[i].poolId != perPool[j].poolId
    ensures FindClearing(perPool, pc.poolId) == Some(pc)
  {
    if perPool[0] != pc {
      var i :| 0 <= i < |perPool| && perPool[i] == pc;
      assert perPool[0].poolId != perPool[i].poolId;
      assert pc == perPool[1..][i - 1];
      FindClearingIn(perPool[1..], pc);
    }
  }

  /** The internal list behind a cleared result. */
  function RoutedOf(orders: seq<PathOrder>, pools: map<nat, Pool>, reg: seq<PoolEntry>): seq<Routed>
    requires ClearMulti(orders, pools, reg).Ok?
  {
    RouteAll(reg, orders).value
  }

  /** The sub-batch a pool was cleared on. */
  function SubOrders(orders: seq<PathOrder>, pools: map<nat, Pool>, reg: seq<PoolEntry>, pid: nat): seq<Order>
    requires ClearMulti(orders, pools, reg).Ok?
  {
    var routed := RoutedOf(orders, pools, reg);
    SubBatch(routed, Dropped(routed), pid)
  }

  lemma RoutedShape(orders: seq<PathOrder>, reg: seq<PoolEntry>)
    requires RouteAll(reg, orders).Ok? && DistinctBy(orders, PathNonce)
    ensures
      var routed := RouteAll(reg, orders).value;
      && |routed| == |orders| && DistinctBy(routed, RoutedNonce)
      && SurvivorsAreDirect(routed, Dropped(routed))
      && forall i :: 0 <= i < |orders| ==> routed[i].order == orders[i].order
  {
    hide Hops;
    var routed := RouteAll(reg, orders).value;
    forall i, j | 0 <= i < j < |routed|
      ensures RoutedNonce(routed[i]) != RoutedNonce(routed[j])
    {
      assert PathNonce(orders[i]) != PathNonce(orders[j]);
    }
    forall i | 0 <= i < |routed| && routed[i].order.orderNonce !in Dropped(routed)
      ensures |routed[i].hops| == 1
    {
      assert !IsDropped(routed[i]);
    }
  }

  /** What a routed order's own fill amounts to. */
  lemma OrderPart(routed: seq<Routed>, dropped: set<int>, perPool: seq<PoolClearing>, pc: PoolClearing,
                  i: nat, side: bool, paid: bool)
    requires DistinctBy(routed, RoutedNonce) && SurvivorsAreDirect(routed, dropped) && i < |routed|
    requires FindClearing(perPool, pc.poolId) == Some(pc) && pc.result.ClearedV2?
    ensures
      var o := PathOrder(routed[i].order, (0, 0, 0), 2);
      EmittedPart(Emit(routed, dropped, perPool), pc.poolId, side, paid, o)
      == if DirectIn(routed[i], dropped, pc.poolId) then PartIn(pc.result.fills, side, paid, routed[i].order) else 0
  {
    hide FindClearing, FindFill, FindHop, Emit;
    EmittedFillFor(routed, dropped, perPool, i);
    var r := routed[i];
    if r.order.orderNonce !in dropped {
      assert r.hops == [r.hops[0]];
    }
  }

  /** Emission loses and adds nothing: per pool and side it is the pool's own fills. */
  lemma EmissionIsFaithful(orders: seq<PathOrder>, reg: seq<PoolEntry>, perPool: seq<PoolClearing>,
                           pc: PoolClearing, side: bool, paid: bool)
    requires RouteAll(reg, orders).Ok? && DistinctBy(orders, PathNonce)
    requires FindClearing(perPool, pc.poolId) == Some(pc) && pc.result.ClearedV2?
    ensures
      var routed := RouteAll(reg, orders).value;
      Emitted(orders, Emit(routed, Dropped(routed), perPool), pc.poolId, side, paid)
      == SumOver(SubBatch(routed, Dropped(routed), pc.poolId), o => PartIn(pc.result.fills, side, paid, o))
  {
    hide FindClearing, FindFill, FindHop, Emit, Dropped, RouteAll, SubBatch, PartIn;
    RoutedShape(orders, reg);
    var routed := RouteAll(reg, orders).value;
    var dropped, pid := Dropped(routed), pc.poolId;
    var fills := Emit(routed, dropped, perPool);
    var part := (o: Order) => PartIn(pc.result.fills, side, paid, o);
    var masked := (r: Routed) => if DirectIn(r, dropped, pid) then part(r.order) else 0;
    SubBatchSum(routed, dropped, pid, part, masked);
    SumCong(SubBatch(routed, dropped, pid), part, o => PartIn(pc.result.fills, side, paid, o));
    forall i | 0 <= i < |orders|
      ensures EmittedPart(fills, pid, side, paid, orders[i]) == masked(routed[i])
    {
      OrderPart(routed, dropped, perPool, pc, i, side, paid);
    }
    SumAligned(orders, routed, o => EmittedPart(fills, pid, side, paid, o), masked);
  }

  lemma {:induction false} SumAligned<S, T>(xs: seq<S>, ys: seq<T>, f: S -> int, g: T -> int)
    requires |xs| == |ys|
    requires forall i :: 0 <= i < |xs| ==> f(xs[i]) == g(ys[i])
    ensures SumOver(xs, f) == SumOver(ys, g)
  {
    if |xs| > 0 {
      SumAligned(xs[..|xs| - 1], ys[..|ys| - 1], f, g);
    }
  }

  lemma ClearedNamesSides(pool: Pool, orders: seq<Order>)
    requires Clear(pool, orders).Ok? && Clear(pool, orders).value.Cleared?
    ensures
      var c, batch := Clear(pool, orders).value, SelectBatch(orders);
      && NamesSides(c.fills, Buys(batch, c.price), Sells(batch, c.price))
      && SettledEval(pool, orders).eligibleBuys == Buys(batch, c.price)
      && SettledEval(pool, orders).eligibleSells == Sells(batch, c.price)
  {
    hide RouteNet, SideFills, Clear, SelectBatch, YTotal, XTotal, Buys, Sells, FindPrice;
    ClearedUnfolds(pool, orders);
    var c, ev := Clear(pool, orders).value, SettledEval(pool, orders);
    SettlementPrice(ev, c.price);
    SideIsExact(ev.eligibleBuys, YTotal(ev));
    SideIsExact(ev.eligibleSells, XTotal(ev));
    var n := |ev.eligibleBuys|;
    forall i | 0 <= i < |ev.eligibleSells|
      ensures c.fills[n + i].orderNonce == ev.eligibleSells[i].orderNonce
    {
      assert c.fills[n..][i] == c.fills[n + i];
    }
  }

  /** Emitted totals of a cleared pool, in terms of its own settlement. */
  lemma PoolTotals(pool: Pool, sub: seq<Order>, side: bool, paid: bool)
    requires DistinctBy(sub, Nonce)
    requires Clear(pool, sub).Ok? && Clear(pool, sub).value.Cleared?
    ensures
      var fills, ev := Clear(pool, sub).value.fills, SettledEval(pool, sub);
      |fills| == |ev.eligibleBuys| + |ev.eligibleSells| &&
      SumOver(sub, o => PartIn(fills, side, paid, o))
      == if paid then SumOver(SidePart(fills, |ev.eligibleBuys|, side), Out)
         else TotalIn(if side then ev.eligibleSells else ev.eligibleBuys)
  {
    hide Clear, SelectBatch, Buys, Sells, TotalIn, SettledEval, PartIn;
    ClearedNamesSides(pool, sub);
    var c := Clear(pool, sub).value;
    SubmittedParts(sub, c.price, c.fills, side, paid, o => PartIn(c.fills, side, paid, o));
  }

  /**
   End-to-end conservation, for every cleared pool and both tokens. Payouts emitted
   for the pool, plus its gross to-pool flow, plus the fee dust (and, with no buyer,
   the unrouted input) equal the inputs of its filled orders plus its from-pool flow;
   the dust is non-negative and at most the rounding allowance of the touched buckets.
   */
  lemma SettlementConserves(orders: seq<PathOrder>, pools: map<nat, Pool>, reg: seq<PoolEntry>, pc: PoolClearing)
    requires DistinctBy(orders, PathNonce)
    requires ClearMulti(orders, pools, reg).Ok? && ClearMulti(orders, pools, reg).value.MultiCleared?
    requires pc in ClearMulti(orders, pools, reg).value.perPool
    ensures pc.poolId in pools && pc.result.ClearedV2? && |pc.result.before| == |pc.result.deltas|
    ensures
      var sub := SubOrders(orders, pools, reg, pc.poolId);
      Clear(pools[pc.poolId], sub).Ok? && Clear(pools[pc.poolId], sub).value.Cleared? &&
      var ev := SettledEval(pools[pc.poolId], sub);
      var fills := ClearMulti(orders, pools, reg).value.fills;
      var liquidity := Liquidities(pc.result.before);
      var fees := RecoveredFees(pc.result.deltas, liquidity);
      var flows := AggregateFlows(pc.result.deltas, liquidity);
      var dustA, dustB := Withheld(ev.swap.ammAIn) - fees.0, Withheld(ev.swap.ammBIn) - fees.1;
      && flows.Ok? && dustA >= 0 && dustB >= 0 && Unrouted(ev) >= 0
      && (AfterFee(ev.swap.ammAIn) > 0 ==> dustA <= DustCap(liquidity))
      && (AfterFee(ev.swap.ammBIn) > 0 ==> dustB <= DustCap(liquidity))
      && Emitted(orders, fills, pc.poolId, true, true) + flows.value.aToPool + dustA
         == Emitted(orders, fills, pc.poolId, false, false) + flows.value.aFromPool
      && Emitted(orders, fills, pc.poolId, false, true) + flows.value.bToPool + dustB + Unrouted(ev)
         == Emitted(orders, fills, pc.poolId, true, false) + flows.value.bFromPool
  {
    hide Clear, ClearV2, TotalIn, RecoveredFees, Emit, SubBatch, Dropped, RouteAll, Emitted, PartIn,
         SettledEval, Unrouted, Withheld, Liquidities, AggregateFlows, PoolIds, ClearPools, Sort, DustCap, AfterFee;
    var routed := RouteAll(reg, orders).value;
    var dropped := Dropped(routed);
    var ids := PoolIds(routed, dropped);
    var perPool := ClearPools(pools, routed, dropped, ids).value;
    PoolIdsDistinct(routed, dropped);
    ClearedPools(pools, routed, dropped, ids);
    SortedMember(perPool, pc);
    FindClearingIn(perPool, pc);
    RoutedShape(orders, reg);
    SubBatchDistinct(routed, dropped, pc.poolId);
    var pool, sub := pools[pc.poolId], SubBatch(routed, dropped, pc.poolId);
    V2IsSwap(pool, sub);
    ClearingConserves(pool, sub);
    PoolEmission(orders, reg, perPool, pc, pool);
  }

  lemma SortedMember(perPool: seq<PoolClearing>, pc: PoolClearing)
    requires pc in Sort(perPool, PoolIdOrder)
    ensures pc in perPool
  {
    SortPermutes(perPool, PoolIdOrder);
    assert pc in multiset(Sort(perPool, PoolIdOrder));
  }

  /** The four emitted totals of a cleared pool. */
  lemma PoolEmission(orders: seq<PathOrder>, reg: seq<PoolEntry>, perPool: seq<PoolClearing>,
                     pc: PoolClearing, pool: Pool)
    requires RouteAll(reg, orders).Ok? && DistinctBy(orders, PathNonce)
    requires FindClearing(perPool, pc.poolId) == Some(pc) && pc.result.ClearedV2?
    requires
      var sub := SubBatch(RouteAll(reg, orders).value, Dropped(RouteAll(reg, orders).value), pc.poolId);
      && Clear(pool, sub).Ok? && Clear(pool, sub).value.Cleared? && Clear(pool, sub).value.fills == pc.result.fills
      && DistinctBy(sub, Nonce)
    ensures
      var routed := RouteAll(reg, orders).value;
      var sub := SubBatch(routed, Dropped(routed), pc.poolId);
      var out := Emit(routed, Dropped(routed), perPool);
      var fills, ev := pc.result.fills, SettledEval(pool, sub);
      var n := |ev.eligibleBuys|;
      && |fills| == n + |ev.eligibleSells|
      && Emitted(orders, out, pc.poolId, true, true) == SumOver(fills[n..], Out)
      && Emitted(orders, out, pc.poolId, false, true) == SumOver(fills[..n], Out)
      && Emitted(orders, out, pc.poolId, false, false) == TotalIn(ev.eligibleBuys)
      && Emitted(orders, out, pc.poolId, true, false) == TotalIn(ev.eligibleSells)
  {
    hide Clear, TotalIn, Emit, SubBatch, Dropped, RouteAll, Emitted, PartIn, SettledEval, FindClearing;
    var routed := RouteAll(reg, orders).value;
    var sub := SubBatch(routed, Dropped(routed), pc.poolId);
    EmissionIsFaithful(orders, reg, perPool, pc, true, true);
    EmissionIsFaithful(orders, reg, perPool, pc, false, true);
    EmissionIsFaithful(orders, reg, perPool, pc, false, false);
    EmissionIsFaithful(orders, reg, perPool, pc, true, false);
    PoolTotals(pool, sub, true, true);
    PoolTotals(pool, sub, false, true);
    PoolTotals(pool, sub, false, false);
    PoolTotals(pool, sub, true, false);
  }
}
