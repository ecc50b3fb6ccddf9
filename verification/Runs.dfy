/**
 Any number of clearings in a row: aggregate reserves stay the sum of the bucket
 reserves, and every bucket's token B keeps backing its liquidity up to a slack
 that grows by at most one rounding allowance per clearing.
 */
module Runs {
  import opened Arithmetic
  import opened FixedPoint
  import opened Sequences
  import opened Apportion
  import opened Swap
  import opened SwapTheory
  import opened Backing
  import opened Price
  import opened Clearing
  import opened Conservation

  /** The buckets after a clearing: each touched one takes its after-state. */
  function ApplyStates(bs: seq<Bucket>, deltas: seq<Delta>, after: seq<BucketState>): (r: seq<Bucket>)
    requires |after| == |deltas|
    ensures |r| == |bs|
  {
    if |deltas| == 0 then bs
    else
      var n := |deltas| - 1;
      var r := ApplyStates(bs, deltas[..n], after[..n]);
      if deltas[n].id < |bs| then r[deltas[n].id := Bucket(bs[deltas[n].id].bounds, after[n])] else r
  }

  /** The pool after an epoch; an epoch that skips or throws leaves it alone. */
  function Epoch(pool: Pool, orders: seq<Order>): Pool {
    var c := ClearV2(pool, orders);
    if c.Ok? && c.value.ClearedV2? && |c.value.after| == |c.value.deltas| then
      Pool(c.value.newReserveA, c.value.newReserveB, pool.lpSupply, c.value.sqrtPriceAfter,
           ApplyStates(pool.buckets, c.value.deltas, c.value.after))
    else pool
  }

  function Run(pool: Pool, epochs: seq<seq<Order>>): Pool {
    if |epochs| == 0 then pool else Epoch(Run(pool, epochs[..|epochs| - 1]), epochs[|epochs| - 1])
  }

  function ReserveA(b: Bucket): int { b.state.reserveA }

  function ReserveB(b: Bucket): int { b.state.reserveB }

  ghost predicate Aggregated(pool: Pool) {
    && pool.reserveA == SumOver(pool.buckets, ReserveA)
    && pool.reserveB == SumOver(pool.buckets, ReserveB)
  }

  /** Grid and liquidity do not move. */
  ghost predicate SameShape(bs: seq<Bucket>, bs': seq<Bucket>) {
    |bs| == |bs'| && forall k :: 0 <= k < |bs| ==>
      bs'[k].bounds == bs[k].bounds && bs'[k].state.liquidity == bs[k].state.liquidity
  }

  function OnlyA(k: nat, d: Delta): int {
    if d.id == k then NetAddA(d) else 0
  }

  function OnlyB(k: nat, d: Delta): int {
    if d.id == k then NetAddB(d) else 0
  }

  // ------------------------------------------------------------- one clearing

  lemma {:induction false} ApplyEffect(bs: seq<Bucket>, ds: seq<Delta>)
    requires AllBelow(ds, |bs|) && Ascending(ds)
    ensures
      var r := ApplyStates(bs, ds, StatesAfter(bs, ds));
      && SameShape(bs, r)
      && SumOver(r, ReserveA) == SumOver(bs, ReserveA) + SumOver(ds, NetAddA)
      && SumOver(r, ReserveB) == SumOver(bs, ReserveB) + SumOver(ds, NetAddB)
      && forall k :: 0 <= k < |bs| && (forall i :: 0 <= i < |ds| ==> ds[i].id != k) ==> r[k] == bs[k]
  {
    if |ds| > 0 {
      var n := |ds| - 1;
      var id := ds[n].id;
      assert AllBelow(ds[..n], |bs|) && Ascending(ds[..n]);
      ApplyEffect(bs, ds[..n]);
      assert StatesAfter(bs, ds)[..n] == StatesAfter(bs, ds[..n]);
      var r := ApplyStates(bs, ds[..n], StatesAfter(bs, ds[..n]));
      assert r[id] == bs[id];
      var b := Bucket(bs[id].bounds, StateAfter(bs[id].state, ds[n]));
      assert ApplyStates(bs, ds, StatesAfter(bs, ds)) == r[id := b];
      UpdateEffect(r, id, b, ds[n]);
    }
  }

  lemma UpdateEffect(r: seq<Bucket>, id: nat, b: Bucket, d: Delta)
    requires id < |r| && b.bounds == r[id].bounds && b.state == StateAfter(r[id].state, d)
    ensures SameShape(r, r[id := b])
    ensures SumOver(r[id := b], ReserveA) == SumOver(r, ReserveA) + NetAddA(d)
    ensures SumOver(r[id := b], ReserveB) == SumOver(r, ReserveB) + NetAddB(d)
  {
    SumUpdate(r, id, b, ReserveA);
    SumUpdate(r, id, b, ReserveB);
  }

  lemma {:induction false} ApplyReserves(bs: seq<Bucket>, ds: seq<Delta>, k: nat)
    requires AllBelow(ds, |bs|) && Ascending(ds) && k < |bs|
    ensures
      var state := ApplyStates(bs, ds, StatesAfter(bs, ds))[k].state;
      && state.reserveA == bs[k].state.reserveA + SumOver(ds, d => OnlyA(k, d))
      && state.reserveB == bs[k].state.reserveB + SumOver(ds, d => OnlyB(k, d))
  {
    hide OnlyA, OnlyB;
    var onlyA, onlyB := (d: Delta) => OnlyA(k, d), (d: Delta) => OnlyB(k, d);
    SumCong(ds, onlyA, d => OnlyA(k, d));
    SumCong(ds, onlyB, d => OnlyB(k, d));
    if |ds| > 0 {
      var n := |ds| - 1;
      assert AllBelow(ds[..n], |bs|) && Ascending(ds[..n]);
      ApplyReserves(bs, ds[..n], k);
      SumCong(ds[..n], onlyA, d => OnlyA(k, d));
      SumCong(ds[..n], onlyB, d => OnlyB(k, d));
      assert StatesAfter(bs, ds)[..n] == StatesAfter(bs, ds[..n]);
      OnlyOwn(k, ds[n]);
      if ds[n].id == k {
        forall i | 0 <= i < n
          ensures onlyA(ds[i]) == 0 && onlyB(ds[i]) == 0
        {
          OnlyOwn(k, ds[i]);
        }
        SumZero(ds[..n], onlyA);
        SumZero(ds[..n], onlyB);
      }
    }
  }

  lemma OnlyOwn(k: nat, d: Delta)
    ensures OnlyA(k, d) == if d.id == k then NetAddA(d) else 0
    ensures OnlyB(k, d) == if d.id == k then NetAddB(d) else 0
  {}

  /** Direction and gross input of the swap behind an epoch; an idle epoch swaps nothing. */
  function EpochFlow(pool: Pool, orders: seq<Order>): (bool, nat) {
    var c := Clear(pool, orders);
    if c.Ok? && c.value.Cleared? then
      var ev := SettledEval(pool, orders);
      (GoesUp(ev), GrossInput(ev))
    else (true, 0)
  }

  function AfterTrace(pool: Pool, t: TraceOutput): Pool
    requires AllBelow(t.deltas, |pool.buckets|)
  {
    Pool(t.newReserveA, t.newReserveB, pool.lpSupply, t.newSqrtPrice,
         ApplyStates(pool.buckets, t.deltas, StatesAfter(pool.buckets, t.deltas)))
  }

  /** Every epoch is one directed swap. */
  lemma EpochIsSwap(pool: Pool, orders: seq<Order>)
    ensures
      var (up, input) := EpochFlow(pool, orders);
      var t := DirectedTrace(pool, up, input);
      && t.Ok? && AllBelow(t.value.deltas, |pool.buckets|) && Ascending(t.value.deltas)
      && Epoch(pool, orders) == AfterTrace(pool, t.value)
  {
    hide Clear, StatesAfter, StatesBefore, AllBelow, Ascending, TraceSwap, SettledEval;
    TraceZero(pool);
    EmptyStates(pool.buckets);
    NoDeltas(|pool.buckets|);
    var c := ClearV2(pool, orders);
    if c.Ok? && c.value.ClearedV2? {
      V2IsSwap(pool, orders);
    }
  }

  /** Aggregates and shape survive an epoch. */
  lemma EpochKeepsAggregates(pool: Pool, orders: seq<Order>)
    ensures SameShape(pool.buckets, Epoch(pool, orders).buckets)
    ensures Aggregated(pool) ==> Aggregated(Epoch(pool, orders))
  {
    hide Epoch, EpochFlow, StatesAfter, StatesBefore, AllBelow, Ascending, DirectedTrace, ApplyStates, RecoveredFees;
    EpochIsSwap(pool, orders);
    var (up, input) := EpochFlow(pool, orders);
    var t := DirectedTrace(pool, up, input).value;
    SwapFlows(pool, up, input);
    SumDifference(t.deltas);
    ApplyEffect(pool.buckets, t.deltas);
  }

  /** The steps of the swap behind an epoch. */
  function EpochSteps(pool: Pool, orders: seq<Order>): seq<Step> {
    var (up, input) := EpochFlow(pool, orders);
    var route := RouteSwap(pool, up, input);
    if route.Ok? then route.value.steps else []
  }

  function EpochSlack(pool: Pool, orders: seq<Order>, k: nat): int
    requires k < |pool.buckets|
  {
    Slack(pool.buckets, EpochFlow(pool, orders).0, k, EpochSteps(pool, orders))
  }

  /** Token B booked to bucket k by the deltas is what its steps moved. */
  lemma DeltasMatchSteps(up: bool, steps: seq<Step>, fees: seq<int>, k: nat)
    requires |fees| == |steps|
    ensures SumOver(SwapDeltas(up, steps, fees), d => OnlyB(k, d)) == BNet(up, k, steps)
  {
    hide SwapDeltas;
    DeltaSum(up, steps, fees, d => OnlyB(k, d), st => BIn(up, k, st));
  }

  lemma SwapBacked(pool: Pool, up: bool, input: nat, k: nat)
    requires Contiguous(pool.buckets) && k < |pool.buckets| && DirectedTrace(pool, up, input).Ok?
    ensures RouteSwap(pool, up, input).Ok?
    ensures
      var t, steps := DirectedTrace(pool, up, input).value, RouteSwap(pool, up, input).value.steps;
      var b := pool.buckets[k];
      SCALE * SumOver(t.deltas, d => OnlyB(k, d)) >=
        b.state.liquidity * (Clamp(b.bounds, t.newSqrtPrice) - Clamp(b.bounds, pool.currentSqrtPrice))
        - Slack(pool.buckets, up, k, steps)
  {
    hide Walk, Slack, BNet, Clamp, Contiguous, SwapDeltas, Split;
    if input == 0 {
      EmptySwapBacked(pool, up, k);
    } else {
      RouteNeedsInput(pool, up, input);
      var steps := RouteSwap(pool, up, input).value.steps;
      WalkBacked(pool.buckets, up, StartBucket(pool), pool.currentSqrtPrice, AfterFee(input), k);
      DeltasMatchSteps(up, steps, Split(input - AfterFee(input), Inputs(steps), AfterFee(input)), k);
    }
  }

  lemma EmptySwapBacked(pool: Pool, up: bool, k: nat)
    requires k < |pool.buckets|
    ensures RouteSwap(pool, up, 0) == Ok(Route([], pool.currentSqrtPrice))
    ensures SumOver([], d => OnlyB(k, d)) == 0 && Slack(pool.buckets, up, k, []) == 0
  {}

  /** One epoch, any bucket: its token B moves at least as far as its liquidity owes, less the slack. */
  lemma EpochBacked(pool: Pool, orders: seq<Order>, k: nat)
    requires Contiguous(pool.buckets) && k < |pool.buckets|
    ensures
      var pool' := Epoch(pool, orders);
      var b, b' := pool.buckets[k], pool'.buckets[k];
      SCALE * (b'.state.reserveB - b.state.reserveB) >=
        b.state.liquidity * (Clamp(b.bounds, pool'.currentSqrtPrice) - Clamp(b.bounds, pool.currentSqrtPrice))
        - EpochSlack(pool, orders, k)
  {
    hide Epoch, EpochFlow, StatesAfter, AllBelow, Ascending, ApplyStates, Slack, RouteSwap,
         DirectedTrace, Clamp, Contiguous;
    EpochIsSwap(pool, orders);
    var (up, input) := EpochFlow(pool, orders);
    SwapBacked(pool, up, input, k);
    ApplyReserves(pool.buckets, DirectedTrace(pool, up, input).value.deltas, k);
  }

  // ------------------------------------------------------------------- runs

  lemma {:induction false} RunKeepsAggregates(pool: Pool, epochs: seq<seq<Order>>)
    ensures SameShape(pool.buckets, Run(pool, epochs).buckets)
    ensures Aggregated(pool) ==> Aggregated(Run(pool, epochs))
  {
    hide Epoch, Aggregated;
    if |epochs| > 0 {
      RunKeepsAggregates(pool, epochs[..|epochs| - 1]);
      EpochKeepsAggregates(Run(pool, epochs[..|epochs| - 1]), epochs[|epochs| - 1]);
    }
  }

  lemma SameShapeContiguous(bs: seq<Bucket>, bs': seq<Bucket>)
    requires SameShape(bs, bs') && Contiguous(bs)
    ensures Contiguous(bs')
  {
    forall i | 0 < i < |bs'|
      ensures bs'[i - 1].bounds.upper == bs'[i].bounds.lower
    {
      assert bs'[i].bounds == bs[i].bounds;
    }
  }

  function RunSlack(pool: Pool, epochs: seq<seq<Order>>, k: nat): int
    requires k < |pool.buckets|
  {
    if |epochs| == 0 then 0
    else
      RunKeepsAggregates(pool, epochs[..|epochs| - 1]);
      RunSlack(pool, epochs[..|epochs| - 1], k)
      + EpochSlack(Run(pool, epochs[..|epochs| - 1]), epochs[|epochs| - 1], k)
  }

  /** What one clearing can cost bucket b: one upward crossing, or one downward landing. */
  function Allowance(b: Bucket): nat {
    var landing := b.state.liquidity * Undershoot(b.bounds);
    if SCALE >= landing then SCALE else landing
  }

  /**
   Over any run of clearings every bucket's token B stays within the slack of what
   its liquidity owes for the price move, and each clearing adds at most one
   allowance to that slack.
   */
  lemma {:induction false} RunBacked(pool: Pool, epochs: seq<seq<Order>>, k: nat)
    requires Contiguous(pool.buckets) && k < |pool.buckets|
    ensures |Run(pool, epochs).buckets| == |pool.buckets|
    ensures
      var pool' := Run(pool, epochs);
      var b, b' := pool.buckets[k], pool'.buckets[k];
      SCALE * (b'.state.reserveB - b.state.reserveB) >=
        b.state.liquidity * (Clamp(b.bounds, pool'.currentSqrtPrice) - Clamp(b.bounds, pool.currentSqrtPrice))
        - RunSlack(pool, epochs, k)
    ensures RunSlack(pool, epochs, k) <= |epochs| * Allowance(pool.buckets[k])
  {
    hide Epoch, Clamp, Contiguous, EpochSlack, Allowance;
    if |epochs| > 0 {
      var n := |epochs| - 1;
      var mid := Run(pool, epochs[..n]);
      RunBacked(pool, epochs[..n], k);
      RunKeepsAggregates(pool, epochs[..n]);
      SameShapeContiguous(pool.buckets, mid.buckets);
      EpochBacked(mid, epochs[n], k);
      EpochKeepsAggregates(mid, epochs[n]);
      EpochSlackBounded(mid, epochs[n], k);
      SameAllowance(pool.buckets[k], mid.buckets[k]);
      var b := pool.buckets[k];
      Telescope(b.state.liquidity, Clamp(b.bounds, pool.currentSqrtPrice), Clamp(b.bounds, mid.currentSqrtPrice),
                Clamp(b.bounds, Run(pool, epochs).currentSqrtPrice));
      assert |epochs| * Allowance(b) == n * Allowance(b) + Allowance(b);
    }
  }

  lemma SameAllowance(b: Bucket, b': Bucket)
    requires b.bounds == b'.bounds && b.state.liquidity == b'.state.liquidity
    ensures Allowance(b) == Allowance(b')
  {}

  lemma {:induction false} TouchedOnce(up: bool, from: int, steps: seq<Step>, k: nat, f: Step -> int)
    requires Directed(up, from, steps)
    requires forall st :: 0 <= f(st) <= if st.id == k then 1 else 0
    ensures 0 <= SumOver(steps, f) <= 1
  {
    if |steps| > 0 {
      var n := |steps| - 1;
      assert Directed(up, from, steps[..n]);
      TouchedOnce(up, from, steps[..n], k, f);
      if steps[n].id == k {
        assert forall i :: 0 <= i < n ==> Before(up, steps[i].id, steps[n].id);
        SumZero(steps[..n], f);
      }
    }
  }

  lemma EpochSlackBounded(pool: Pool, orders: seq<Order>, k: nat)
    requires k < |pool.buckets|
    ensures EpochSlack(pool, orders, k) <= Allowance(pool.buckets[k])
  {
    hide EpochFlow, Walk, Slack, Allowance;
    var (up, input) := EpochFlow(pool, orders);
    var from := StartBucket(pool);
    if RouteSwap(pool, up, input).Ok? {
      WalkIsDirected(pool.buckets, up, from, pool.currentSqrtPrice, AfterFee(input));
    }
    SlackBounded(pool.buckets, up, from, EpochSteps(pool, orders), k);
  }

  lemma SlackBounded(bs: seq<Bucket>, up: bool, from: int, steps: seq<Step>, k: nat)
    requires k < |bs| && Directed(up, from, steps)
    ensures Slack(bs, up, k, steps) <= Allowance(bs[k])
  {
    hide Undershoot, Directed;
    TouchedOnce(up, from, steps, k, st => Crossing(k, st));
    TouchedOnce(up, from, steps, k, st => Landing(k, st));
    MulMono(SumOver(steps, st => Crossing(k, st)), 1, SCALE);
    MulMono(SumOver(steps, st => Landing(k, st)), 1, bs[k].state.liquidity * Undershoot(bs[k].bounds));
  }

  // --------------------------------------------- runs, by each bucket's own moves

  /** The price moves an epoch makes inside bucket k. */
  function EpochMoved(pool: Pool, orders: seq<Order>, k: nat): int {
    Moved(k, EpochSteps(pool, orders))
  }

  /** Whether an epoch crosses the upper bound of bucket k. */
  function EpochCrossings(pool: Pool, orders: seq<Order>, k: nat): int {
    UpCrossings(EpochFlow(pool, orders).0, k, EpochSteps(pool, orders))
  }

  lemma SwapMoves(pool: Pool, up: bool, input: nat, k: nat)
    requires k < |pool.buckets| && DirectedTrace(pool, up, input).Ok?
    ensures RouteSwap(pool, up, input).Ok?
    ensures
      var t, steps := DirectedTrace(pool, up, input).value, RouteSwap(pool, up, input).value.steps;
      && SCALE * SumOver(t.deltas, d => OnlyB(k, d)) >=
           pool.buckets[k].state.liquidity * Moved(k, steps) - SCALE * UpCrossings(up, k, steps)
      && 0 <= UpCrossings(up, k, steps) <= 1
  {
    hide Walk, BNet, SwapDeltas, Split, Moved, StartBucket;
    if input == 0 {
      EmptySwapBacked(pool, up, k);
      NoMoves(up, k);
    } else {
      RouteNeedsInput(pool, up, input);
      var steps := RouteSwap(pool, up, input).value.steps;
      WalkMoves(pool.buckets, up, StartBucket(pool), pool.currentSqrtPrice, AfterFee(input), k);
      WalkIsDirected(pool.buckets, up, StartBucket(pool), pool.currentSqrtPrice, AfterFee(input));
      TouchedOnce(up, StartBucket(pool), steps, k, st => Crossing(k, st));
      DeltasMatchSteps(up, steps, Split(input - AfterFee(input), Inputs(steps), AfterFee(input)), k);
    }
  }

  /** One epoch, any grid: token B covers the price moves made inside the bucket, less one unit if crossed upward. */
  lemma EpochMoves(pool: Pool, orders: seq<Order>, k: nat)
    requires k < |pool.buckets|
    ensures |Epoch(pool, orders).buckets| == |pool.buckets|
    ensures
      var b, b' := pool.buckets[k], Epoch(pool, orders).buckets[k];
      && SCALE * (b'.state.reserveB - b.state.reserveB) >=
           b.state.liquidity * EpochMoved(pool, orders, k) - SCALE * EpochCrossings(pool, orders, k)
      && 0 <= EpochCrossings(pool, orders, k) <= 1
  {
    hide Epoch, EpochFlow, StatesAfter, AllBelow, Ascending, ApplyStates, RouteSwap, DirectedTrace, Moved, UpCrossings;
    EpochIsSwap(pool, orders);
    var (up, input) := EpochFlow(pool, orders);
    SwapMoves(pool, up, input, k);
    ApplyReserves(pool.buckets, DirectedTrace(pool, up, input).value.deltas, k);
  }

  function RunMoved(pool: Pool, epochs: seq<seq<Order>>, k: nat): int {
    if |epochs| == 0 then 0
    else
      var init := epochs[..|epochs| - 1];
      RunMoved(pool, init, k) + EpochMoved(Run(pool, init), epochs[|epochs| - 1], k)
  }

  function RunCrossings(pool: Pool, epochs: seq<seq<Order>>, k: nat): int {
    if |epochs| == 0 then 0
    else
      var init := epochs[..|epochs| - 1];
      RunCrossings(pool, init, k) + EpochCrossings(Run(pool, init), epochs[|epochs| - 1], k)
  }

  /**
   Over any run, on any grid, every bucket's token B covers the price moves made inside
   it, less one unit per upward crossing, of which each epoch makes at most one.
   */
  lemma {:induction false} RunMoves(pool: Pool, epochs: seq<seq<Order>>, k: nat)
    requires k < |pool.buckets|
    ensures |Run(pool, epochs).buckets| == |pool.buckets|
    ensures
      var b, b' := pool.buckets[k], Run(pool, epochs).buckets[k];
      && SCALE * (b'.state.reserveB - b.state.reserveB) >=
           b.state.liquidity * RunMoved(pool, epochs, k) - SCALE * RunCrossings(pool, epochs, k)
      && 0 <= RunCrossings(pool, epochs, k) <= |epochs|
  {
    hide Epoch, EpochMoved, EpochCrossings;
    RunKeepsAggregates(pool, epochs);
    if |epochs| > 0 {
      var init, last := epochs[..|epochs| - 1], epochs[|epochs| - 1];
      var mid := Run(pool, init);
      RunMoves(pool, init, k);
      RunKeepsAggregates(pool, init);
      EpochMoves(mid, last, k);
      var L := pool.buckets[k].state.liquidity;
      assert L * (RunMoved(pool, init, k) + EpochMoved(mid, last, k))
          == L * RunMoved(pool, init, k) + L * EpochMoved(mid, last, k);
    }
  }

  // ---------------------------------------------------- no more than is owed

  /** What one clearing can leave in bucket b beyond what it owes: a visit's rounding and a landing's undershoot. */
  function Excess(b: Bucket): nat {
    b.state.liquidity + SCALE + b.state.liquidity * Undershoot(b.bounds)
  }

  lemma SwapTracks(pool: Pool, up: bool, input: nat, k: nat)
    requires Contiguous(pool.buckets) && k < |pool.buckets| && 0 < pool.buckets[k].bounds.lower
    requires DirectedTrace(pool, up, input).Ok?
    ensures
      var t, b := DirectedTrace(pool, up, input).value, pool.buckets[k];
      SCALE * SumOver(t.deltas, d => OnlyB(k, d))
      <= b.state.liquidity * (Clamp(b.bounds, t.newSqrtPrice) - Clamp(b.bounds, pool.currentSqrtPrice)) + Excess(b)
  {
    hide Walk, BNet, Clamp, Contiguous, SwapDeltas, Split, Visited, StartBucket, Undershoot;
    if input == 0 {
      NothingOwed(pool, k);
    } else {
      RouteNeedsInput(pool, up, input);
      var steps := RouteSwap(pool, up, input).value.steps;
      var from, b := StartBucket(pool), pool.buckets[k];
      WalkTracks(pool.buckets, up, from, pool.currentSqrtPrice, AfterFee(input), k);
      WalkIsDirected(pool.buckets, up, from, pool.currentSqrtPrice, AfterFee(input));
      OneVisit(up, from, steps, k);
      MulMono(Visited(k, steps), 1, b.state.liquidity + SCALE);
      DeltasMatchSteps(up, steps, Split(input - AfterFee(input), Inputs(steps), AfterFee(input)), k);
    }
  }

  lemma NothingOwed(pool: Pool, k: nat)
    requires k < |pool.buckets|
    ensures SumOver([], d => OnlyB(k, d)) == 0 && Excess(pool.buckets[k]) >= 0
  {}

  lemma OneVisit(up: bool, from: int, steps: seq<Step>, k: nat)
    requires Directed(up, from, steps)
    ensures 0 <= Visited(k, steps) <= 1
  {
    hide Directed;
    TouchedOnce(up, from, steps, k, st => Visit(k, st));
  }

  /** One epoch, any bucket: its token B moves at most as far as its liquidity owes, and the excess. */
  lemma EpochTracks(pool: Pool, orders: seq<Order>, k: nat)
    requires Contiguous(pool.buckets) && k < |pool.buckets| && 0 < pool.buckets[k].bounds.lower
    ensures
      var pool' := Epoch(pool, orders);
      var b, b' := pool.buckets[k], pool'.buckets[k];
      SCALE * (b'.state.reserveB - b.state.reserveB) <=
        b.state.liquidity * (Clamp(b.bounds, pool'.currentSqrtPrice) - Clamp(b.bounds, pool.currentSqrtPrice))
        + Excess(b)
  {
    hide Epoch, EpochFlow, StatesAfter, AllBelow, Ascending, ApplyStates, RouteSwap, DirectedTrace, Clamp, Contiguous,
         Excess;
    EpochIsSwap(pool, orders);
    var (up, input) := EpochFlow(pool, orders);
    SwapTracks(pool, up, input, k);
    ApplyReserves(pool.buckets, DirectedTrace(pool, up, input).value.deltas, k);
  }

  lemma {:induction false} RunTracksAbove(pool: Pool, epochs: seq<seq<Order>>, k: nat)
    requires Contiguous(pool.buckets) && k < |pool.buckets| && 0 < pool.buckets[k].bounds.lower
    ensures |Run(pool, epochs).buckets| == |pool.buckets|
    ensures
      var pool' := Run(pool, epochs);
      var b, b' := pool.buckets[k], pool'.buckets[k];
      SCALE * (b'.state.reserveB - b.state.reserveB) <=
        b.state.liquidity * (Clamp(b.bounds, pool'.currentSqrtPrice) - Clamp(b.bounds, pool.currentSqrtPrice))
        + |epochs| * Excess(b)
  {
    hide Epoch, Clamp, Contiguous, Excess;
    if |epochs| > 0 {
      var n := |epochs| - 1;
      var mid, b := Run(pool, epochs[..n]), pool.buckets[k];
      RunTracksAbove(pool, epochs[..n], k);
      RunKeepsAggregates(pool, epochs[..n]);
      SameShapeContiguous(pool.buckets, mid.buckets);
      EpochTracks(mid, epochs[n], k);
      EpochKeepsAggregates(mid, epochs[n]);
      SameExcess(b, mid.buckets[k]);
      Telescope(b.state.liquidity, Clamp(b.bounds, pool.currentSqrtPrice), Clamp(b.bounds, mid.currentSqrtPrice),
                Clamp(b.bounds, Run(pool, epochs).currentSqrtPrice));
      assert |epochs| * Excess(b) == n * Excess(b) + Excess(b);
    }
  }

  /**
   So a bucket's token B follows the price from both sides: over any run it differs from
   what its liquidity owes for the price move by no more than one allowance below, and one
   excess above, for each clearing.
   */
  lemma RunTracks(pool: Pool, epochs: seq<seq<Order>>, k: nat)
    requires Contiguous(pool.buckets) && k < |pool.buckets| && 0 < pool.buckets[k].bounds.lower
    ensures |Run(pool, epochs).buckets| == |pool.buckets|
    ensures
      var pool' := Run(pool, epochs);
      var b, b' := pool.buckets[k], pool'.buckets[k];
      var owed := b.state.liquidity
                  * (Clamp(b.bounds, pool'.currentSqrtPrice) - Clamp(b.bounds, pool.currentSqrtPrice));
      && owed - |epochs| * Allowance(b) <= SCALE * (b'.state.reserveB - b.state.reserveB)
      && SCALE * (b'.state.reserveB - b.state.reserveB) <= owed + |epochs| * Excess(b)
  {
    hide Run, Clamp, Contiguous, Allowance, Excess, RunSlack;
    RunBacked(pool, epochs, k);
    RunTracksAbove(pool, epochs, k);
  }

  lemma SameExcess(b: Bucket, b': Bucket)
    requires b.bounds == b'.bounds && b.state.liquidity == b'.state.liquidity
    ensures Excess(b) == Excess(b')
  {}
}
