/**
 One clearing cycle. `Plan` is what happens between the drained reveals and the
 submitted result; `Aggregator.RunCycle` is the gated, flag-guarded cycle around
 it, with every read and every send as a parameter that may fail.
 */
module Cycle {
  import opened FixedPoint
  import opened Sequences
  import opened Swap
  import opened Price
  import opened Clearing
  import opened Reveals
  import opened Registry
  import opened MultiPair
  import opened Slots
  import opened Merkle
  import Queue

  const CLAIM_LEAVES: nat := 64
  const CLAIM_DEPTH: nat := 6
  const REPAIR_MAX_OFFSET: nat := 3
  const REPAIR_MAX_ORDERS: nat := 6

  datatype EpochInfo = EpochInfo(
    epochId: int, closesAtBlock: int, orderAcc: int, orderCount: nat, cancelCount: nat)

  /** What the plan reads: hash, parsers, registry and the readable pool states. */
  datatype World = World(h: Hash, codec: Codec, reg: seq<PoolEntry>, pools: map<nat, Pool>)

  datatype PublicInputs = PublicInputs(
    orderAcc: int, pools: seq<PoolClearing>, flows: seq<Flows>, fills: seq<HopLeaf>, fillsRoot: int)

  datatype Outcome = NoReveals | ReplayMismatch | NoCross | Settle(public: PublicInputs)

  // --------------------------------------------------------- spec of the plan

  /** Amounts and prices arrive as decimal digits, so they are never negative. */
  function Natural(x: int): nat {
    if x < 0 then 0 else x
  }

  function NaturalPath(p: (int, int, int)): Path {
    (Natural(p.0), Natural(p.1), Natural(p.2))
  }

  function FallbackEntry(reg: seq<PoolEntry>): Option<PoolEntry> {
    if |reg| == 0 then None
    else if reg[0].poolId == 0 then Some(reg[0])
    else FallbackEntry(reg[1..])
  }

  /** Replay, and the drift repair when the replay rejects a non-empty epoch. */
  function Accepted(w: World, epoch: EpochInfo, payloads: seq<Payload>): seq<Reveal> {
    var replayed := Validated(w.h, w.codec, payloads, epoch.orderAcc);
    if |replayed| == 0 && epoch.orderCount > 0 then
      match Repair(w.h, w.codec, payloads, epoch.orderAcc, REPAIR_MAX_OFFSET, REPAIR_MAX_ORDERS)
      case Some(fixed) => fixed.validated
      case None => replayed
    else replayed
  }

  function RouteReveals(reg: seq<PoolEntry>, vs: seq<Reveal>, fallback: Path): (r: Result<seq<RoutedPath>>)
    ensures r.Ok? ==> |r.value| == |vs| && forall i :: 0 <= i < |vs| ==>
      RevealRoute(reg, vs[i].pathLen, NaturalPath(vs[i].path), fallback) == Ok(r.value[i])
    ensures r.Err? ==> r.error == NoPool
  {
    if |vs| == 0 then Ok([])
    else
      var earlier :- RouteReveals(reg, vs[..|vs| - 1], fallback);
      var v := vs[|vs| - 1];
      var last :- RevealRoute(reg, v.pathLen, NaturalPath(v.path), fallback);
      Ok(earlier + [last])
  }

  function OrderOf(v: Reveal): Order {
    Order(v.side, Natural(v.amountIn), Natural(v.limitPrice), v.submittedAtBlock, v.orderNonce, v.owner)
  }

  function ToOrder(v: Reveal, r: RoutedPath): PathOrder {
    PathOrder(OrderOf(v), r.routingPath, r.pathLen)
  }

  function ToOrders(vs: seq<Reveal>, rs: seq<RoutedPath>): (r: seq<PathOrder>)
    requires |rs| == |vs|
    ensures |r| == |vs|
  {
    seq(|vs|, i requires 0 <= i < |vs| => ToOrder(vs[i], rs[i]))
  }

  function IdsIn(ids: seq<nat>): set<nat> {
    set pid | pid in ids
  }

  /** Every pool some order's path visits. */
  function ActivePools(rs: seq<RoutedPath>): (r: set<nat>)
    ensures forall pid :: pid in r <==> exists i :: 0 <= i < |rs| && pid in rs[i].hops
  {
    if |rs| == 0 then {}
    else ActivePools(rs[..|rs| - 1]) + IdsIn(rs[|rs| - 1].hops)
  }

  function ToLeaf(f: HopFill): HopLeaf {
    HopLeaf(f.owner, f.orderNonce, f.hopIndex, f.amountOut, f.poolId)
  }

  function ToLeaves(fills: seq<HopFill>): (r: seq<HopLeaf>)
    ensures |r| == |fills|
  {
    seq(|fills|, i requires 0 <= i < |fills| => ToLeaf(fills[i]))
  }

  function FlowsOf(perPool: seq<PoolClearing>): Result<seq<Flows>> {
    if |perPool| == 0 then Ok([])
    else
      var earlier :- FlowsOf(perPool[..|perPool| - 1]);
      var c := perPool[|perPool| - 1].result;
      if c.SkippedV2? then Ok(earlier + [Flows(0, 0, 0, 0)])
      else
        var flows :- AggregateFlows(c.deltas, Liquidities(c.before));
        Ok(earlier + [flows])
  }

  lemma ClaimTreeShape()
    ensures CLAIM_LEAVES == Arithmetic.Pow2(CLAIM_DEPTH)
    ensures IsPow2(CLAIM_LEAVES) && Log2(CLAIM_LEAVES) == CLAIM_DEPTH
  {
    assert Arithmetic.Pow2(1) == 2 && Arithmetic.Pow2(2) == 4 && Arithmetic.Pow2(3) == 8;
    assert Arithmetic.Pow2(4) == 16 && Arithmetic.Pow2(5) == 32;
    assert IsPow2(2) && IsPow2(4) && IsPow2(8) && IsPow2(16) && IsPow2(32);
    assert Log2(2) == 1 && Log2(4) == 2 && Log2(8) == 3 && Log2(16) == 4 && Log2(32) == 5;
  }

  /** From a cleared result to what is committed: slots, tree root and gross flows. */
  function Commit(w: World, epoch: EpochInfo, perPool: seq<PoolClearing>, fills: seq<HopFill>): Result<Outcome> {
    var slotted :- RemapAll(fills, perPool);
    var leaves := ToLeaves(slotted);
    var flows :- FlowsOf(perPool);
    if |leaves| > CLAIM_LEAVES then Err(TooManyFills)
    else if !DistinctLeaves(leaves) then Err(DuplicateFill)
    else
      ClaimTreeShape();
      Ok(Settle(PublicInputs(epoch.orderAcc, perPool, flows, leaves,
                             Root(w.h, HopLeaves(w.h, leaves, CLAIM_LEAVES), CLAIM_DEPTH))))
  }

  predicate DistinctLeaves(leaves: seq<HopLeaf>) {
    forall i, j :: 0 <= i < j < |leaves| ==> HopKey(leaves[i]) != HopKey(leaves[j])
  }

  /** Read the visited pools, clear them, and commit to the result. */
  function ClearRouted(w: World, epoch: EpochInfo, vs: seq<Reveal>, routes: seq<RoutedPath>): Result<Outcome>
    requires |routes| == |vs|
  {
    if exists pid :: pid in ActivePools(routes) && pid !in w.pools then Err(Unavailable)
    else
      var cleared :- ClearMulti(ToOrders(vs, routes), ReadPools(w, routes), w.reg);
      match cleared
      case NotCleared => Ok(NoCross)
      case MultiCleared(perPool, fills) => Commit(w, epoch, perPool, fills)
  }

  function ReadPools(w: World, routes: seq<RoutedPath>): map<nat, Pool> {
    map pid | pid in ActivePools(routes) && pid in w.pools :: w.pools[pid]
  }

  /** Everything after the drain, up to the proof and the submission. */
  function Plan(w: World, epoch: EpochInfo, payloads: seq<Payload>): Result<Outcome> {
    if |payloads| == 0 && epoch.orderCount > 0 then Ok(NoReveals)
    else
      var vs := Accepted(w, epoch, payloads);
      if |vs| == 0 && epoch.orderCount > 0 then Ok(ReplayMismatch)
      else
        match FallbackEntry(w.reg)
        case None => Err(NoPool)
        case Some(entry) =>
          var routes :- RouteReveals(w.reg, vs, (entry.tokenAFull, entry.tokenBFull, 0));
          ClearRouted(w, epoch, vs, routes)
  }

  // ---------------------------------------------------------- the plan's loops

  method RouteAllReveals(reg: seq<PoolEntry>, vs: seq<Reveal>, fallback: Path) returns (r: Result<seq<RoutedPath>>)
    ensures r == RouteReveals(reg, vs, fallback)
  {
    hide RevealRoute;
    var routes: seq<RoutedPath> := [];
    for i := 0 to |vs|
      invariant RouteReveals(reg, vs[..i], fallback) == Ok(routes)
    {
      assert vs[..i + 1][..i] == vs[..i];
      var route := ResolveRevealPath(reg, vs[i].pathLen, NaturalPath(vs[i].path), fallback);
      if route.Err? {
        FailedReveal(reg, vs, fallback, i + 1);
        return Err(NoPool);
      }
      routes := routes + [route.value];
    }
    assert vs[..|vs|] == vs;
    return Ok(routes);
  }

  lemma {:induction false} FailedReveal(reg: seq<PoolEntry>, vs: seq<Reveal>, fallback: Path, i: nat)
    requires i <= |vs| && RouteReveals(reg, vs[..i], fallback).Err?
    ensures RouteReveals(reg, vs, fallback) == Err(NoPool)
  {
    hide RevealRoute;
    if i < |vs| {
      assert vs[..|vs| - 1][..i] == vs[..i];
      FailedReveal(reg, vs[..|vs| - 1], fallback, i);
    } else {
      assert vs[..i] == vs;
    }
  }

  method CollectFlows(perPool: seq<PoolClearing>) returns (r: Result<seq<Flows>>)
    ensures r == FlowsOf(perPool)
  {
    hide AggregateFlows;
    var flows: seq<Flows> := [];
    for i := 0 to |perPool|
      invariant FlowsOf(perPool[..i]) == Ok(flows)
    {
      assert perPool[..i + 1][..i] == perPool[..i];
      var c := perPool[i].result;
      if c.SkippedV2? {
        flows := flows + [Flows(0, 0, 0, 0)];
      } else {
        var f := DeriveAggregateFlows(c.deltas, Liquidities(c.before));
        if f.Err? {
          FailedFlows(perPool, i + 1);
          return Err(f.error);
        }
        flows := flows + [f.value];
      }
    }
    assert perPool[..|perPool|] == perPool;
    return Ok(flows);
  }

  lemma {:induction false} FailedFlows(perPool: seq<PoolClearing>, i: nat)
    requires i <= |perPool| && FlowsOf(perPool[..i]).Err?
    ensures FlowsOf(perPool) == FlowsOf(perPool[..i])
  {
    hide AggregateFlows;
    if i < |perPool| {
      assert perPool[..|perPool| - 1][..i] == perPool[..i];
      FailedFlows(perPool[..|perPool| - 1], i);
    } else {
      assert perPool[..i] == perPool;
    }
  }

  method CommitResult(w: World, epoch: EpochInfo, perPool: seq<PoolClearing>, fills: seq<HopFill>)
    returns (r: Result<Outcome>)
    ensures r == Commit(w, epoch, perPool, fills)
  {
    hide RemapAll, FlowsOf, Root, HopLeaves, Log2, IsPow2;
    var slots := new HopFill[|fills|](i requires 0 <= i < |fills| => fills[i]);
    assert slots[..] == fills;
    var failure := RemapFillPoolIdsToSlots(slots, perPool);
    if failure.Some? {
      RemapError(fills, perPool);
      return Err(failure.value);
    }
    var leaves := ToLeaves(slots[..]);
    var flows := CollectFlows(perPool);
    if flows.Err? {
      return Err(flows.error);
    }
    ClaimTreeShape();
    if |leaves| > CLAIM_LEAVES {
      return Err(TooManyFills);
    }
    var tree := BuildHopFillsTree(w.h, leaves, CLAIM_LEAVES);
    if tree.Err? {
      return Err(DuplicateFill);
    }
    return Ok(Settle(PublicInputs(epoch.orderAcc, perPool, flows.value, leaves, tree.value.value.root)));
  }

  lemma RemapError(fills: seq<HopFill>, perPool: seq<PoolClearing>)
    ensures RemapAll(fills, perPool).Err? ==> RemapAll(fills, perPool).error == UnknownFillPool
  {}

  method PlanClearing(w: World, epoch: EpochInfo, payloads: seq<Payload>) returns (r: Result<Outcome>)
    ensures r == Plan(w, epoch, payloads)
  {
    hide Validated, Repair, RouteReveals, ClearMulti, Commit, ToOrders, FallbackEntry;
    if |payloads| == 0 && epoch.orderCount > 0 {
      return Ok(NoReveals);
    }
    var validated := ValidateReveals(w.h, w.codec, payloads, epoch.orderAcc);
    if |validated| == 0 && epoch.orderCount > 0 {
      var repaired := RepairReveals(w.h, w.codec, payloads, epoch.orderAcc, REPAIR_MAX_OFFSET, REPAIR_MAX_ORDERS);
      if repaired.Some? {
        validated := repaired.value.validated;
      }
    }
    if |validated| == 0 && epoch.orderCount > 0 {
      return Ok(ReplayMismatch);
    }
    var entry := FallbackEntry(w.reg);
    if entry.None? {
      return Err(NoPool);
    }
    var routes := RouteAllReveals(w.reg, validated, (entry.value.tokenAFull, entry.value.tokenBFull, 0));
    if routes.Err? {
      return Err(routes.error);
    }
    if exists pid :: pid in ActivePools(routes.value) && pid !in w.pools {
      return Err(Unavailable);
    }
    var states := ReadPools(w, routes.value);
    var cleared := ComputeClearingMultiPair(ToOrders(validated, routes.value), states, w.reg);
    if cleared.Err? {
      return Err(cleared.error);
    }
    match cleared.value {
      case NotCleared =>
        return Ok(NoCross);
      case MultiCleared(perPool, fills) =>
        r := CommitResult(w, epoch, perPool, fills);
    }
  }

  // ------------------------------------------------------- the gated cycle

  datatype Balance = NoReader | ReadFailed | Unreadable | Amount(juice: nat)

  /** One cycle's surroundings. A `None` is a call that throws. */
  datatype Env = Env(
    block: Option<int>, epoch: Option<EpochInfo>, balance: Balance, minBalance: nat, world: World,
    proves: bool, submits: bool, closeOnly: Option<bool>)

  datatype Status =
    | SkippedInFlight | SkippedNotClosed | SkippedEmptyEpoch | SkippedCancels | SkippedLowFee
    | SkippedNoReveals | SkippedReplayMismatch | NoCrossAdvanced | NoCrossAdvanceFailed | SkippedNoCross
    | ClearedFills(n: nat)

  predicate LowFee(env: Env) {
    env.balance.Amount? && env.balance.juice < env.minBalance
  }

  /** The gates before the drain: a skip, a throw, or the epoch to clear. */
  datatype Gate = Stop(status: Status) | Thrown | Proceed(epoch: EpochInfo)

  function GateOf(env: Env, queued: nat): Gate {
    if env.block.None? || env.epoch.None? then Thrown
    else
      var e := env.epoch.value;
      if env.block.value < e.closesAtBlock then Stop(SkippedNotClosed)
      else if e.orderCount == 0 && queued == 0 then Stop(SkippedEmptyEpoch)
      else if e.cancelCount > 0 then Stop(SkippedCancels)
      else if LowFee(env) then Stop(SkippedLowFee)
      else Proceed(e)
  }

  /** How the drained part of a cycle ends. */
  function EndOf(env: Env, e: EpochInfo, payloads: seq<Payload>): Result<Status> {
    match Plan(env.world, e, payloads)
    case Err(err) => Err(err)
    case Ok(NoReveals) => Ok(SkippedNoReveals)
    case Ok(ReplayMismatch) => Ok(SkippedReplayMismatch)
    case Ok(NoCross) =>
      if env.closeOnly.Some? && |payloads| > 0 then
        Ok(if env.closeOnly.value then NoCrossAdvanced else NoCrossAdvanceFailed)
      else Ok(SkippedNoCross)
    case Ok(Settle(public)) =>
      if env.proves && env.submits then Ok(ClearedFills(|public.fills|)) else Err(Unavailable)
  }

  function StatusOf(env: Env, inFlight: bool, q: Queue.State): Result<Status> {
    if inFlight then Ok(SkippedInFlight)
    else match GateOf(env, |Queue.Slots(q)|)
      case Stop(s) => Ok(s)
      case Thrown => Err(Unavailable)
      case Proceed(e) => EndOf(env, e, Queue.Inner(q, e.epochId))
  }

  /** The queue after a cycle with no other queue activity. */
  function QueueAfter(env: Env, inFlight: bool, q: Queue.State): Queue.State {
    if inFlight then q
    else match GateOf(env, |Queue.Slots(q)|)
      case Stop(_) => q
      case Thrown => q
      case Proceed(e) =>
        var drained := Queue.Inner(q, e.epochId);
        var taken := Queue.Take(q, e.epochId);
        if EndOf(env, e, drained).Err? then Queue.PutAll(taken, drained) else taken
  }

  class Aggregator {
    var cycleInFlight: bool
    const queue: Queue.RevealQueue

    constructor (queue: Queue.RevealQueue)
      ensures !cycleInFlight && this.queue == queue
    {
      cycleInFlight := false;
      this.queue := queue;
    }

    /** From the drain to the end of the cycle. */
    method Finish(env: Env, e: EpochInfo, drained: seq<Payload>) returns (r: Result<Status>)
      ensures r == EndOf(env, e, drained)
    {
      hide Plan;
      var plan := PlanClearing(env.world, e, drained);
      if plan.Err? {
        return Err(plan.error);
      }
      match plan.value {
        case NoReveals => return Ok(SkippedNoReveals);
        case ReplayMismatch => return Ok(SkippedReplayMismatch);
        case NoCross =>
          if env.closeOnly.Some? && |drained| > 0 {
            return Ok(if env.closeOnly.value then NoCrossAdvanced else NoCrossAdvanceFailed);
          }
          return Ok(SkippedNoCross);
        case Settle(public) =>
          if !env.proves || !env.submits {
            return Err(Unavailable);
          }
          return Ok(ClearedFills(|public.fills|));
      }
    }

    /** One guarded cycle. An error is a throw; the flag is released on every way out. */
    method RunCycle(env: Env) returns (r: Result<Status>)
      modifies this, queue
      ensures r == StatusOf(env, old(cycleInFlight), old(queue.Value()))
      ensures queue.Value() == QueueAfter(env, old(cycleInFlight), old(queue.Value()))
      ensures cycleInFlight == old(cycleInFlight)
    {
      hide EndOf;
      if cycleInFlight {
        return Ok(SkippedInFlight);
      }
      cycleInFlight := true;
      var queued := queue.Size();
      var gate := GateOf(env, queued);
      match gate {
        case Stop(s) => r := Ok(s);
        case Thrown => r := Err(Unavailable);
        case Proceed(e) =>
          var drained := queue.DrainEpoch(e.epochId);
          r := Finish(env, e, drained);
          if r.Err? {
            queue.EnqueueAll(drained);
          }
      }
      cycleInFlight := false;
    }
  }

  // ------------------------------------------------------------------ lemmas

  /** A reveal without a path falls back to the first entry of pool 0; there is a fallback exactly when there is one. */
  lemma {:induction false} FallbackIsPoolZero(reg: seq<PoolEntry>)
    ensures FallbackEntry(reg).Some? <==> exists k :: 0 <= k < |reg| && reg[k].poolId == 0
    ensures FallbackEntry(reg).Some? ==>
      exists k :: 0 <= k < |reg| && reg[k] == FallbackEntry(reg).value && reg[k].poolId == 0
                  && forall j :: 0 <= j < k ==> reg[j].poolId != 0
  {
    if |reg| > 0 {
      if reg[0].poolId != 0 {
        FallbackIsPoolZero(reg[1..]);
        if FallbackEntry(reg).Some? {
          var k :| 0 <= k < |reg[1..]| && reg[1..][k] == FallbackEntry(reg).value && reg[1..][k].poolId == 0
                   && forall j :: 0 <= j < k ==> reg[1..][j].poolId != 0;
          forall j | 0 <= j < k + 1
            ensures reg[j].poolId != 0
          {
            assert j > 0 ==> reg[j] == reg[1..][j - 1];
          }
          assert reg[k + 1] == FallbackEntry(reg).value;
        }
        if exists k :: 0 <= k < |reg| && reg[k].poolId == 0 {
          var k :| 0 <= k < |reg| && reg[k].poolId == 0;
          assert reg[1..][k - 1].poolId == 0;
        }
      }
    }
  }

  /** The replay, repair included, accepts nothing of a non-empty epoch. */
  predicate Rejected(w: World, e: EpochInfo, payloads: seq<Payload>) {
    e.orderCount > 0 && |Accepted(w, e, payloads)| == 0
  }

  /** The accepted orders are routed and their pools read, and no pool clears. */
  predicate NothingClears(w: World, e: EpochInfo, payloads: seq<Payload>) {
    var vs, entry := Accepted(w, e, payloads), FallbackEntry(w.reg);
    entry.Some? &&
    var routes := RouteReveals(w.reg, vs, (entry.value.tokenAFull, entry.value.tokenBFull, 0));
    && routes.Ok? && (forall pid :: pid in ActivePools(routes.value) ==> pid in w.pools)
    && ClearMulti(ToOrders(vs, routes.value), ReadPools(w, routes.value), w.reg) == Ok(NotCleared)
  }

  /** The plan settles, and proof and submission succeed. */
  predicate Submits(env: Env, e: EpochInfo, payloads: seq<Payload>) {
    var plan := Plan(env.world, e, payloads);
    plan.Ok? && plan.value.Settle? && env.proves && env.submits
  }

  lemma PlanEnds(w: World, e: EpochInfo, payloads: seq<Payload>)
    requires |payloads| > 0
    ensures Plan(w, e, payloads) == Ok(ReplayMismatch) <==> Rejected(w, e, payloads)
    ensures Plan(w, e, payloads) == Ok(NoCross) <==> !Rejected(w, e, payloads) && NothingClears(w, e, payloads)
    ensures Plan(w, e, payloads) != Ok(NoReveals)
  {
    hide Accepted, RouteReveals, ClearRouted, FallbackEntry;
    var vs, entry := Accepted(w, e, payloads), FallbackEntry(w.reg);
    if entry.Some? {
      var routes := RouteReveals(w.reg, vs, (entry.value.tokenAFull, entry.value.tokenBFull, 0));
      if routes.Ok? {
        RoutedEnds(w, e, vs, routes.value);
      }
    }
  }

  lemma RoutedEnds(w: World, e: EpochInfo, vs: seq<Reveal>, routes: seq<RoutedPath>)
    requires |routes| == |vs|
    ensures ClearRouted(w, e, vs, routes) == Ok(NoCross) <==>
      && (forall pid :: pid in ActivePools(routes) ==> pid in w.pools)
      && ClearMulti(ToOrders(vs, routes), ReadPools(w, routes), w.reg) == Ok(NotCleared)
    ensures ClearRouted(w, e, vs, routes) != Ok(ReplayMismatch) && ClearRouted(w, e, vs, routes) != Ok(NoReveals)
  {
    hide ClearMulti, ToOrders, ReadPools, ActivePools, RemapAll, FlowsOf, Root, HopLeaves, DistinctLeaves, ToLeaves;
    ClaimTreeShape();
  }

  /**
   When a cycle leaves the queue as it was: exactly when it stops or throws before the
   drain, finds nothing queued for its epoch, or fails after the drain; and not when
   the replay rejects what was drained, nothing clears, or the result is submitted.
   */
  lemma CycleKeepsQueue(env: Env, q: Queue.State)
    requires Queue.Valid(q)
    ensures
      var gate := GateOf(env, |Queue.Slots(q)|);
      QueueAfter(env, false, q) == q <==>
      || !gate.Proceed?
      || var e, drained := gate.epoch, Queue.Inner(q, gate.epoch.epochId);
         || |drained| == 0
         || (&& !Rejected(env.world, e, drained)
             && !NothingClears(env.world, e, drained)
             && !Submits(env, e, drained))
  {
    hide Plan, Queue.PutAll, Queue.Valid, Queue.Slots, Rejected, NothingClears;
    var gate := GateOf(env, |Queue.Slots(q)|);
    if gate.Proceed? {
      var e := gate.epoch;
      var drained := Queue.Inner(q, e.epochId);
      Queue.RequeueRestores(q, e.epochId);
      if |drained| > 0 {
        PlanEnds(env.world, e, drained);
        DrainChanges(q, e.epochId);
      } else {
        NothingQueued(q, e.epochId);
      }
    }
  }

  lemma DrainChanges(q: Queue.State, epoch: int)
    requires |Queue.Inner(q, epoch)| > 0
    ensures Queue.Take(q, epoch) != q
  {
    assert epoch in q.byEpoch && epoch !in (q.byEpoch - {epoch});
  }

  lemma NothingQueued(q: Queue.State, epoch: int)
    requires Queue.Valid(q) && |Queue.Inner(q, epoch)| == 0
    ensures Queue.Take(q, epoch) == q && Queue.PutAll(q, Queue.Inner(q, epoch)) == q
  {
    assert epoch !in q.byEpoch;
    assert q.byEpoch - {epoch} == q.byEpoch;
  }

  lemma GateNamesEpoch(env: Env, queued: nat)
    ensures GateOf(env, queued).Proceed? ==> env.epoch == Some(GateOf(env, queued).epoch)
    ensures GateOf(env, queued).Stop? ==> Spared(Ok(GateOf(env, queued).status))
  {}

  /**
   What an idle cycle does first, on the chain's answers: it throws when a read fails, and
   otherwise meets the gates in turn; past them it drains the epoch it read.
   */
  lemma GatesInTurn(env: Env, q: Queue.State)
    ensures
      var read := env.block.Some? && env.epoch.Some?;
      var queued := |Queue.Slots(q)| > 0;
      var low := env.balance.Amount? && env.balance.juice < env.minBalance;
      && (!read ==> StatusOf(env, false, q) == Err(Unavailable))
      && (read ==>
            var e := env.epoch.value;
            var closed := env.block.value >= e.closesAtBlock;
            && (!closed ==> StatusOf(env, false, q) == Ok(SkippedNotClosed))
            && (closed && e.orderCount == 0 && !queued ==> StatusOf(env, false, q) == Ok(SkippedEmptyEpoch))
            && (closed && (e.orderCount > 0 || queued) && e.cancelCount > 0 ==>
                  StatusOf(env, false, q) == Ok(SkippedCancels))
            && (closed && (e.orderCount > 0 || queued) && e.cancelCount == 0 && low ==>
                  StatusOf(env, false, q) == Ok(SkippedLowFee))
            && (closed && (e.orderCount > 0 || queued) && e.cancelCount == 0 && !low <==> Drains(env, q, e)))
  {
    hide EndOf, Queue.Slots;
  }

  /** A cycle reports n cleared fills exactly when it drains, settles n fills, and proof and submission succeed. */
  lemma ClearsExactly(env: Env, q: Queue.State, n: nat)
    ensures StatusOf(env, false, q) == Ok(ClearedFills(n)) <==>
      && env.epoch.Some? && Drains(env, q, env.epoch.value)
      && var plan := Plan(env.world, env.epoch.value, Queue.Inner(q, env.epoch.value.epochId));
         plan.Ok? && plan.value.Settle? && |plan.value.public.fills| == n && env.proves && env.submits
  {
    hide Plan, Queue.Slots;
  }

  /** A book that does not cross: the epoch is advanced by a bare close when there is one and something was drained. */
  lemma NoCrossEnds(env: Env, q: Queue.State, e: EpochInfo)
    requires Drains(env, q, e) && env.epoch == Some(e)
    ensures
      var drained := Queue.Inner(q, e.epochId);
      Plan(env.world, e, drained) == Ok(NoCross) ==>
        StatusOf(env, false, q) == Ok(
          if |drained| > 0 && env.closeOnly == Some(true) then NoCrossAdvanced
          else if |drained| > 0 && env.closeOnly == Some(false) then NoCrossAdvanceFailed
          else SkippedNoCross)
  {
    hide Plan, Queue.Slots;
  }

  /** A cycle that ended before the drain, found nothing to drain, or threw. */
  predicate Spared(r: Result<Status>) {
    r.Err? || r.value.SkippedInFlight? || r.value.SkippedNotClosed? || r.value.SkippedEmptyEpoch?
    || r.value.SkippedCancels? || r.value.SkippedLowFee? || r.value.SkippedNoReveals?
  }

  /**
   The same by the cycle's own status: a spared cycle leaves the queue exactly as it
   was; any other cycle removes exactly the cleared epoch's reveals.
   */
  lemma CycleQueueContents(env: Env, inFlight: bool, q: Queue.State)
    requires Queue.Valid(q)
    ensures Spared(StatusOf(env, inFlight, q)) ==> QueueAfter(env, inFlight, q) == q
    ensures !Spared(StatusOf(env, inFlight, q)) ==>
      env.epoch.Some? && QueueAfter(env, inFlight, q) == Queue.Take(q, env.epoch.value.epochId)
    ensures Queue.Valid(QueueAfter(env, inFlight, q))
  {
    hide Plan, Queue.PutAll, Queue.Valid, Queue.Slots, Rejected, NothingClears, GateOf;
    var gate := GateOf(env, |Queue.Slots(q)|);
    GateNamesEpoch(env, |Queue.Slots(q)|);
    if !inFlight && gate.Proceed? {
      var e := gate.epoch;
      var drained := Queue.Inner(q, e.epochId);
      Queue.RequeueRestores(q, e.epochId);
      Queue.ApplyKeepsValid(q, Queue.Drain(e.epochId));
      if |drained| > 0 {
        PlanEnds(env.world, e, drained);
      } else {
        NothingQueued(q, e.epochId);
      }
    }
  }

  /** The cycle gets as far as the drain with no other cycle running. */
  predicate Drains(env: Env, q: Queue.State, e: EpochInfo) {
    GateOf(env, |Queue.Slots(q)|) == Proceed(e)
  }

  /**
   One missing reveal loses the rest: when the queue holds fewer parseable reveals than
   orders were committed, the cycle accepts none and drops all it drained.
   */
  lemma MissingRevealLosesTheRest(env: Env, q: Queue.State, e: EpochInfo, committed: seq<Reveal>)
    requires Queue.Valid(q) && Drains(env, q, e) && e.orderCount > 0
    requires Injective(env.world.h) && NeverZero(env.world.h)
    requires e.orderAcc == OrderAcc(env.world.h, Cis(env.world.h, committed))
    requires |Parsed(env.world.codec, Queue.Inner(q, e.epochId))| < |committed| && |Queue.Inner(q, e.epochId)| > 0
    ensures StatusOf(env, false, q) == Ok(SkippedReplayMismatch)
    ensures QueueAfter(env, false, q) == Queue.Take(q, e.epochId) != q
  {
    hide Plan, Queue.PutAll, Queue.Valid, Queue.Slots, Rejected, NothingClears, OrderAcc, Cis, Injective, NeverZero,
         Accepted, Parsed;
    var drained := Queue.Inner(q, e.epochId);
    ShortReplayIsRejected(env.world, e, drained, committed);
    PlanEnds(env.world, e, drained);
    DrainChanges(q, e.epochId);
  }

  lemma ShortReplayIsRejected(w: World, e: EpochInfo, payloads: seq<Payload>, committed: seq<Reveal>)
    requires Injective(w.h) && NeverZero(w.h) && e.orderAcc == OrderAcc(w.h, Cis(w.h, committed)) && e.orderCount > 0
    requires |Parsed(w.codec, payloads)| < |committed|
    ensures Rejected(w, e, payloads)
  {
    hide OrderAcc, Cis, Injective, NeverZero, Repair, Validated, Matches;
    ReplayIsSound(w.h, w.codec, payloads, committed);
    SortPermutes(Parsed(w.codec, payloads), Canonical);
    RepairRecoversCommitted(w.h, w.codec, payloads, committed, REPAIR_MAX_OFFSET, REPAIR_MAX_ORDERS);
    RepairKeepsCount(w, payloads, e.orderAcc);
  }

  lemma RepairKeepsCount(w: World, payloads: seq<Payload>, acc: int)
    ensures
      var r := Repair(w.h, w.codec, payloads, acc, REPAIR_MAX_OFFSET, REPAIR_MAX_ORDERS);
      r.Some? ==> |r.value.validated| == |Parsed(w.codec, payloads)|
  {
    hide OrderAcc, Cis, Matches, FirstMatch, Digits, Corrections, Parsed;
    var rs := Parsed(w.codec, payloads);
    var base := REPAIR_MAX_OFFSET + 1;
    var found := FirstMatch(w.h, rs, acc, base, 0);
    if found.Some? {
      SortPermutes(Shift(rs, Digits(found.value, base, |rs|)), Canonical);
    }
  }

  /**
   A reveal that is lost although nothing is wrong with it: two well-formed reveals were
   committed and only one of them is queued. The cycle drains it, rejects the epoch, and
   does not put it back; had the other been queued too, both would have been accepted.
   */
  lemma RevealIsLost(env: Env, e: EpochInfo, p: Payload, other: Payload)
    requires Injective(env.world.h) && NeverZero(env.world.h)
    requires ParseReveal(env.world.codec, p).Some? && ParseReveal(env.world.codec, other).Some?
    requires
      var committed := Sort(Parsed(env.world.codec, [p, other]), Canonical);
      e.orderAcc == OrderAcc(env.world.h, Cis(env.world.h, committed)) && e.orderCount == 2
    requires p.epochId == e.epochId && Drains(env, Queue.State(map[e.epochId := [p]], Some(e.epochId)), e)
    ensures
      var q := Queue.State(map[e.epochId := [p]], Some(e.epochId));
      && Queue.Valid(q) && p in Queue.Inner(q, e.epochId)
      && StatusOf(env, false, q) == Ok(SkippedReplayMismatch)
      && Queue.Inner(QueueAfter(env, false, q), e.epochId) == []
      && Accepted(env.world, e, [p, other]) == Sort(Parsed(env.world.codec, [p, other]), Canonical)
  {
    hide Plan, Queue.Slots, OrderAcc, Cis, Injective, NeverZero, Repair, StatusOf, QueueAfter, ParseReveal, Drains;
    var w, q := env.world, Queue.State(map[e.epochId := [p]], Some(e.epochId));
    var committed := Sort(Parsed(w.codec, [p, other]), Canonical);
    assert Queue.Inner(q, e.epochId) == [p];
    TwoParsed(w.codec, p, other);
    SortPermutes(Parsed(w.codec, [p, other]), Canonical);
    MissingRevealLosesTheRest(env, q, e, committed);
    ReplayIsSound(w.h, w.codec, [p, other], committed);
  }

  lemma TwoParsed(c: Codec, p: Payload, other: Payload)
    requires ParseReveal(c, p).Some? && ParseReveal(c, other).Some?
    ensures |Parsed(c, [p])| == 1 && |Parsed(c, [p, other])| == 2
  {
    hide ParseReveal;
    assert [p, other][..1] == [p] && [p][..0] == [];
  }
}
