/**
 The bucket swap machine: one directed walk over concentrated-liquidity buckets.
 `Walk` is the price path on its own; `TraceSwap` adds the withheld fee and the
 per-bucket deltas; `TraceBucketSwap` is the loop, proved equal to `TraceSwap`.
 */
module Swap {
  import opened FixedPoint
  import opened Sequences
  import opened Apportion
  import opened Buckets

  type Pos = x: int | x > 0 witness 1

  datatype Bounds = Bounds(lower: nat, upper: nat)

  datatype BucketState = BucketState(
    reserveA: int, reserveB: int, liquidity: nat, cumFeeA: int, cumFeeB: int)

  datatype Bucket = Bucket(bounds: Bounds, state: BucketState)

  datatype Pool = Pool(
    reserveA: int, reserveB: int, lpSupply: nat, currentSqrtPrice: nat, buckets: seq<Bucket>)

  /** One touched bucket of a walk. `full` marks a boundary crossing. */
  datatype Step = Step(
    id: nat, liquidity: Pos, sqrtFrom: nat, sqrtTo: nat, amountIn: nat, amountOut: nat, full: bool)

  datatype Route = Route(steps: seq<Step>, sqrtEnd: nat)

  datatype Delta = Delta(
    id: nat, aAdd: int, aSub: int, bAdd: int, bSub: int, feeAInc: int, feeBInc: int)

  datatype TraceOutput = TraceOutput(
    newSqrtPrice: nat, deltas: seq<Delta>, newReserveA: int, newReserveB: int)

  // ------------------------------------------------------------- price path

  function Next(up: bool, id: int): int {
    if up then id + 1 else id - 1
  }

  function FarBound(up: bool, b: Bounds): nat {
    if up then b.upper else b.lower
  }

  /** The input that takes the price exactly to the far bound of the bucket. */
  function StepInMax(up: bool, L: nat, b: Bounds, s: nat): (r: Result<nat>)
    requires b.lower <= s <= b.upper
  {
    if up then Ok(L * (b.upper - s) / SCALE) else MulDiv(L, s - b.lower, s * b.lower / SCALE)
  }

  function StepOut(up: bool, L: nat, s: nat, t: nat): (r: Result<nat>)
    requires if up then s <= t else t <= s
  {
    if up then SwapStepOutA(L, s, t) else Ok(SwapStepOutB(L, s, t))
  }

  function SwapStep(up: bool, id: nat, b: Bucket, s: nat, remaining: nat): (r: Result<Step>)
    requires b.state.liquidity > 0 && b.bounds.lower <= s <= b.bounds.upper && remaining > 0
    ensures r.Ok? ==>
      var st := r.value;
      && st.id == id && st.liquidity == b.state.liquidity && st.sqrtFrom == s
      && st.amountIn <= remaining && (!st.full <==> st.amountIn == remaining)
      && (if up then s <= st.sqrtTo else st.sqrtTo <= s)
  {
    var L := b.state.liquidity;
    var most :- StepInMax(up, L, b.bounds, s);
    if remaining <= most then
      var t := if up then NextSqrtPUp(L, s, remaining) else NextSqrtPDown(L, s, remaining);
      var out :- StepOut(up, L, s, t);
      Ok(Step(id, L, s, t, remaining, out, false))
    else
      var out :- StepOut(up, L, s, FarBound(up, b.bounds));
      Ok(Step(id, L, s, FarBound(up, b.bounds), most, out, true))
  }

  /** The walk from bucket `id` at price `s` with `remaining` input still to route. */
  function Walk(bs: seq<Bucket>, up: bool, id: int, s: nat, remaining: nat): (r: Result<Route>)
    ensures remaining == 0 ==> r == Ok(Route([], s))
    ensures remaining > 0 && r.Ok? ==> |r.value.steps| > 0
    decreases if up then |bs| - id else id + 1
  {
    if remaining == 0 then Ok(Route([], s))
    else if !(0 <= id < |bs|) then Err(ExceededBuckets)
    else
      var b := bs[id];
      if !(b.bounds.lower <= s <= b.bounds.upper) then Err(OutsideGrid)
      else if b.state.liquidity == 0 then Walk(bs, up, Next(up, id), FarBound(up, b.bounds), remaining)
      else
        var st :- SwapStep(up, id, b, s, remaining);
        var rest :- Walk(bs, up, Next(up, id), st.sqrtTo, remaining - st.amountIn);
        Ok(Route([st] + rest.steps, rest.sqrtEnd))
  }

  /** First bucket whose half-open price range holds s, or -1. */
  function FindBucket(bs: seq<Bucket>, s: nat, i: nat): (r: int)
    requires i <= |bs|
    ensures r == -1 || i <= r < |bs|
    ensures r >= 0 ==> bs[r].bounds.lower <= s < bs[r].bounds.upper
    decreases |bs| - i
  {
    if i == |bs| then -1
    else if bs[i].bounds.lower <= s < bs[i].bounds.upper then i
    else FindBucket(bs, s, i + 1)
  }

  /** Start bucket, with the direction-free fallback for a price outside the grid. */
  function StartBucket(pool: Pool): int {
    var found := FindBucket(pool.buckets, pool.currentSqrtPrice, 0);
    var firstLower := if |pool.buckets| > 0 then pool.buckets[0].bounds.lower else 0;
    if found >= 0 then found
    else if pool.currentSqrtPrice < firstLower then 0
    else |pool.buckets| - 1
  }

  /** The path of a gross input: the fee comes off first. */
  function RouteSwap(pool: Pool, up: bool, input: nat): Result<Route> {
    Walk(pool.buckets, up, StartBucket(pool), pool.currentSqrtPrice, AfterFee(input))
  }

  /** Nothing is touched unless something is left after the fee. */
  lemma RouteNeedsInput(pool: Pool, up: bool, input: nat)
    requires RouteSwap(pool, up, input).Ok?
    ensures AfterFee(input) == 0 <==> |RouteSwap(pool, up, input).value.steps| == 0
  {
    hide AfterFee;
  }

  // ----------------------------------------------------------------- deltas

  function AmountIn(st: Step): int { st.amountIn }

  function AmountOut(st: Step): int { st.amountOut }

  function Inputs(steps: seq<Step>): (r: seq<nat>)
    ensures |r| == |steps|
  {
    seq(|steps|, i requires 0 <= i < |steps| => steps[i].amountIn)
  }

  function DeltaOf(up: bool, st: Step, fee: int): Delta {
    var inc := fee * SCALE / st.liquidity;
    if up then Delta(st.id, 0, st.amountOut, st.amountIn, 0, 0, inc)
    else Delta(st.id, st.amountIn, 0, 0, st.amountOut, inc, 0)
  }

  function RawDeltas(up: bool, steps: seq<Step>, fees: seq<int>): (r: seq<Delta>)
    requires |fees| == |steps|
    ensures |r| == |steps|
  {
    seq(|steps|, i requires 0 <= i < |steps| => DeltaOf(up, steps[i], fees[i]))
  }

  function Reverse<T>(xs: seq<T>): (r: seq<T>)
    ensures |r| == |xs|
  {
    seq(|xs|, i requires 0 <= i < |xs| => xs[|xs| - 1 - i])
  }

  /** Deltas in ascending bucket order: a downward walk is turned around. */
  function SwapDeltas(up: bool, steps: seq<Step>, fees: seq<int>): (r: seq<Delta>)
    requires |fees| == |steps|
    ensures |r| == |steps|
  {
    if up then RawDeltas(up, steps, fees) else Reverse(RawDeltas(up, steps, fees))
  }

  function NetAddA(d: Delta): int { d.aAdd - d.aSub }

  function NetAddB(d: Delta): int { d.bAdd - d.bSub }

  /** The result of swapping gross netB upward, or gross netA downward. */
  function TraceSwap(pool: Pool, netA: nat, netB: nat): Result<TraceOutput> {
    if netA == 0 && netB == 0 then
      Ok(TraceOutput(pool.currentSqrtPrice, [], pool.reserveA, pool.reserveB))
    else
      var up := netB > 0;
      var input := if up then netB else netA;
      var total := AfterFee(input);
      var route :- RouteSwap(pool, up, input);
      if |route.steps| > MAX_BUCKET_HOPS then Err(TooManyBuckets)
      else
        var fees := Split(input - total, Inputs(route.steps), total);
        var deltas := SwapDeltas(up, route.steps, fees);
        Ok(TraceOutput(route.sqrtEnd, deltas,
                       pool.reserveA + SumOver(deltas, NetAddA),
                       pool.reserveB + SumOver(deltas, NetAddB)))
  }

  // ------------------------------------------------------------ id ordering

  /** Bucket a comes before bucket b in the direction of travel. */
  predicate Before(up: bool, a: int, b: int) {
    if up then a < b else b < a
  }

  /** A walk visits buckets in one strict id direction, each at most once. */
  ghost predicate Directed(up: bool, from: int, steps: seq<Step>) {
    && (forall i :: 0 <= i < |steps| ==> !Before(up, steps[i].id, from))
    && (forall i, j :: 0 <= i < j < |steps| ==> Before(up, steps[i].id, steps[j].id))
  }

  lemma {:induction false} WalkIsDirected(bs: seq<Bucket>, up: bool, id: int, s: nat, remaining: nat)
    requires Walk(bs, up, id, s, remaining).Ok?
    ensures Directed(up, id, Walk(bs, up, id, s, remaining).value.steps)
    ensures forall st :: st in Walk(bs, up, id, s, remaining).value.steps ==>
      st.id < |bs| && st.liquidity == bs[st.id].state.liquidity
    decreases if up then |bs| - id else id + 1
  {
    if remaining > 0 {
      var b := bs[id];
      if b.state.liquidity == 0 {
        WalkIsDirected(bs, up, Next(up, id), FarBound(up, b.bounds), remaining);
      } else {
        var st := SwapStep(up, id, b, s, remaining).value;
        WalkIsDirected(bs, up, Next(up, id), st.sqrtTo, remaining - st.amountIn);
      }
    }
  }

  // --------------------------------------------------------------- the loop

  function Prepend(done: seq<Step>, r: Result<Route>): Result<Route> {
    match r
    case Ok(route) => Ok(Route(done + route.steps, route.sqrtEnd))
    case Err(e) => Err(e)
  }

  /** A bucket's delta so far, plus one more step in it. */
  function Merge(prev: Delta, d: Delta): Delta {
    Delta(d.id, prev.aAdd + d.aAdd, prev.aSub + d.aSub, prev.bAdd + d.bAdd, prev.bSub + d.bSub,
          prev.feeAInc + d.feeAInc, prev.feeBInc + d.feeBInc)
  }

  /** One bucket: part of it when the input runs out, else up to its far bound. */
  method TraceStep(direction: bool, bucketId: nat, bucket: Bucket, sqrtP: nat, inAfterFee: nat)
    returns (r: Result<Step>)
    requires bucket.state.liquidity > 0 && inAfterFee > 0
    requires bucket.bounds.lower <= sqrtP <= bucket.bounds.upper
    ensures r == SwapStep(direction, bucketId, bucket, sqrtP, inAfterFee)
  {
    var L := bucket.state.liquidity;
    var limit := StepInMax(direction, L, bucket.bounds, sqrtP);
    if limit.Err? {
      return Err(limit.error);
    }
    var stepInMax := limit.value;
    var stepIn, sqrtPNew;
    if inAfterFee <= stepInMax {
      stepIn := inAfterFee;
      sqrtPNew := if direction then NextSqrtPUp(L, sqrtP, stepIn) else NextSqrtPDown(L, sqrtP, stepIn);
    } else {
      stepIn := stepInMax;
      sqrtPNew := FarBound(direction, bucket.bounds);
    }
    var stepOut := StepOut(direction, L, sqrtP, sqrtPNew);
    if stepOut.Err? {
      return Err(stepOut.error);
    }
    return Ok(Step(bucketId, L, sqrtP, sqrtPNew, stepIn, stepOut.value, stepIn < inAfterFee));
  }

  /** Step through one funded bucket: the fee share of the step and the bucket's new delta. */
  method TouchBucket(pool: Pool, direction: bool, bucketId: nat, sqrtP: nat, inAfterFee: nat,
                     feeWithheld: nat, inAfterFeeTotal: nat, feeDistributed: int, deltas: map<nat, Delta>,
                     ghost input: nat)
    returns (r: Result<Step>, stepFee: int, updated: map<nat, Delta>)
    requires Traced(pool, direction, input, deltas, bucketId, sqrtP, inAfterFee, feeDistributed)
    requires inAfterFee > 0 && AtFunded(pool.buckets, bucketId, sqrtP)
    requires feeWithheld == input - AfterFee(input) && inAfterFeeTotal == AfterFee(input)
    ensures r == SwapStep(direction, bucketId, pool.buckets[bucketId], sqrtP, inAfterFee)
    ensures r.Ok? ==>
      var st := r.value;
      && st.amountIn <= inAfterFee
      && Traced(pool, direction, input, updated,
                if inAfterFee == st.amountIn then bucketId else Next(direction, bucketId),
                st.sqrtTo, inAfterFee - st.amountIn, feeDistributed + stepFee)
  {
    hide Progress, SwapStep, DeltaOf, FloorShare, AfterFee;
    r := TraceStep(direction, bucketId, pool.buckets[bucketId], sqrtP, inAfterFee);
    stepFee, updated := 0, deltas;
    if r.Ok? {
      var st := r.value;
      ghost var done, fees :| Progress(pool, direction, input, done, fees, deltas, bucketId, sqrtP, inAfterFee)
                              && feeDistributed == SumOver(fees, Share);
      ProgressPositive(pool, direction, input, done, fees, deltas, bucketId, sqrtP, inAfterFee);
      var prev := if bucketId in deltas then deltas[bucketId] else Delta(bucketId, 0, 0, 0, 0, 0, 0);
      stepFee := if inAfterFee == st.amountIn then feeWithheld - feeDistributed
                 else FloorShare(feeWithheld, st.amountIn, inAfterFeeTotal);
      ProgressStep(pool, direction, input, done, fees, deltas, bucketId, sqrtP, inAfterFee, st, stepFee);
      StepNamesBucket(direction, bucketId, pool.buckets[bucketId], sqrtP, inAfterFee);
      MergeFirst(bucketId, DeltaOf(direction, st, stepFee));
      updated := deltas[bucketId := Merge(prev, DeltaOf(direction, st, stepFee))];
    }
  }

  lemma ProgressPositive(pool: Pool, up: bool, input: nat, done: seq<Step>, fees: seq<int>,
                         deltas: map<nat, Delta>, id: int, s: nat, left: nat)
    requires Progress(pool, up, input, done, fees, deltas, id, s, left)
    ensures left > 0 ==> AfterFee(input) > 0
  {}

  lemma StepNamesBucket(up: bool, id: nat, b: Bucket, s: nat, left: nat)
    requires b.state.liquidity > 0 && left > 0 && b.bounds.lower <= s <= b.bounds.upper
    requires SwapStep(up, id, b, s, left).Ok?
    ensures
      var st := SwapStep(up, id, b, s, left).value;
      st.id == id && st.amountIn <= left && forall fee :: DeltaOf(up, st, fee).id == id
  {}

  lemma MergeFirst(id: nat, d: Delta)
    requires d.id == id
    ensures Merge(Delta(id, 0, 0, 0, 0, 0, 0), d) == d
  {}

  /** The loop's variables between two buckets. */
  datatype Cursor = Cursor(id: int, sqrtP: nat, left: nat, paid: int, deltas: map<nat, Delta>)

  /** One turn of the loop: leave the grid, skip an empty bucket, or step through a funded one. */
  method VisitBucket(pool: Pool, direction: bool, c: Cursor, feeWithheld: nat, inAfterFeeTotal: nat, ghost input: nat)
    returns (r: Result<Cursor>)
    requires c.left > 0 && 0 <= c.id < |pool.buckets|
    requires Traced(pool, direction, input, c.deltas, c.id, c.sqrtP, c.left, c.paid)
    requires feeWithheld == input - AfterFee(input) && inAfterFeeTotal == AfterFee(input)
    ensures r.Err? ==> RouteSwap(pool, direction, input) == Err(r.error)
    ensures r.Ok? ==>
      var n := r.value;
      && Traced(pool, direction, input, n.deltas, n.id, n.sqrtP, n.left, n.paid)
      && (n.left == 0 || n.id == Next(direction, c.id))
  {
    hide Traced, RouteSwap, SwapStep, AfterFee, Walk;
    var bucket := pool.buckets[c.id];
    if c.sqrtP < bucket.bounds.lower || c.sqrtP > bucket.bounds.upper {
      TracedOutside(pool, direction, input, c.deltas, c.id, c.sqrtP, c.left, c.paid);
      return Err(OutsideGrid);
    }
    if bucket.state.liquidity == 0 {
      TracedSkip(pool, direction, input, c.deltas, c.id, c.sqrtP, c.left, c.paid);
      return Ok(c.(id := Next(direction, c.id), sqrtP := FarBound(direction, bucket.bounds)));
    }
    var step, stepFee, updated := TouchBucket(pool, direction, c.id, c.sqrtP, c.left, feeWithheld,
                                              inAfterFeeTotal, c.paid, c.deltas, input);
    if step.Err? {
      TracedStepError(pool, direction, input, c.deltas, c.id, c.sqrtP, c.left, c.paid);
      return Err(step.error);
    }
    var st := step.value;
    var next := if c.left == st.amountIn then c.id else Next(direction, c.id);
    return Ok(Cursor(next, st.sqrtTo, c.left - st.amountIn, c.paid + stepFee, updated));
  }

  /** The walk itself: buckets are touched until nothing is left, or there is nowhere to go. */
  method TraceBuckets(pool: Pool, direction: bool, input: nat)
    returns (r: Result<(nat, map<nat, Delta>)>, ghost paid: int, ghost id: int)
    ensures r.Err? ==> RouteSwap(pool, direction, input) == Err(r.error)
    ensures r.Ok? ==> Traced(pool, direction, input, r.value.1, id, r.value.0, 0, paid)
  {
    var inAfterFeeTotal: nat := AfterFee(input);
    var feeWithheld: nat := input - inAfterFeeTotal;
    var c := Cursor(StartBucket(pool), pool.currentSqrtPrice, inAfterFeeTotal, 0, map[]);
    paid, id := 0, 0;
    TracedStart(pool, direction, input);
    hide Traced, RouteSwap, SwapStep, AfterFee, Walk, StartBucket, FindBucket;

    while c.left > 0 && 0 <= c.id < |pool.buckets|
      invariant Traced(pool, direction, input, c.deltas, c.id, c.sqrtP, c.left, c.paid)
      decreases c.left > 0, if direction then |pool.buckets| - c.id else c.id + 1
    {
      var next := VisitBucket(pool, direction, c, feeWithheld, inAfterFeeTotal, input);
      if next.Err? {
        return Err(next.error), 0, 0;
      }
      c := next.value;
    }

    if c.left > 0 {
      TracedExceeded(pool, direction, input, c.deltas, c.id, c.sqrtP, c.left, c.paid);
      return Err(ExceededBuckets), 0, 0;
    }
    return Ok((c.sqrtP, c.deltas)), c.paid, c.id;
  }

  method TraceBucketSwap(pool: Pool, netA: nat, netB: nat) returns (r: Result<TraceOutput>)
    ensures r == TraceSwap(pool, netA, netB)
  {
    hide Traced, RouteSwap, SwapDeltas, Split, AfterFee;
    if netA == 0 && netB == 0 {
      return Ok(TraceOutput(pool.currentSqrtPrice, [], pool.reserveA, pool.reserveB));
    }
    var walked;
    ghost var paid, id;
    walked, paid, id := TraceBuckets(pool, netB > 0, if netB > 0 then netB else netA);
    if walked.Err? {
      return Err(walked.error);
    }
    r := FinishTrace(pool, netA, netB, walked.value.1, walked.value.0, paid, id);
  }

  /** The cap on touched buckets, the sort and the aggregate reserve changes. */
  method FinishTrace(pool: Pool, netA: nat, netB: nat, deltas: map<nat, Delta>, sqrtP: nat,
                     ghost paid: int, ghost id: int)
    returns (r: Result<TraceOutput>)
    requires netA > 0 || netB > 0
    requires Traced(pool, netB > 0, if netB > 0 then netB else netA, deltas, id, sqrtP, 0, paid)
    ensures r == TraceSwap(pool, netA, netB)
  {
    hide Traced, Lists, Ascending, AllBelow, TraceSwap, RouteSwap, SwapDeltas, Split, AfterFee;
    ghost var input := if netB > 0 then netB else netA;
    ghost var done, fees := TracedEnd(pool, netB > 0, input, deltas, id, sqrtP, paid);
    TraceSwapFrom(pool, netA, netB, done, sqrtP, fees);
    if |deltas| > MAX_BUCKET_HOPS {
      return Err(TooManyBuckets);
    }
    var sorted, aggA, aggB := CollectDeltas(deltas, |pool.buckets|, SwapDeltas(netB > 0, done, fees));
    return Ok(TraceOutput(sqrtP, sorted, pool.reserveA + aggA, pool.reserveB + aggB));
  }

  /** `TraceSwap` of a nonzero flow, as a function of its route. */
  lemma TraceSwapFrom(pool: Pool, netA: nat, netB: nat, steps: seq<Step>, sqrtEnd: nat, fees: seq<int>)
    requires netA > 0 || netB > 0
    requires
      var input := if netB > 0 then netB else netA;
      && RouteSwap(pool, netB > 0, input) == Ok(Route(steps, sqrtEnd))
      && (AfterFee(input) > 0 || |steps| <= 1)
      && fees == Split(input - AfterFee(input), Inputs(steps), AfterFee(input))
    ensures
      var deltas := SwapDeltas(netB > 0, steps, fees);
      TraceSwap(pool, netA, netB) ==
      if |steps| > MAX_BUCKET_HOPS then Err(TooManyBuckets)
      else Ok(TraceOutput(sqrtEnd, deltas,
                          pool.reserveA + SumOver(deltas, NetAddA),
                          pool.reserveB + SumOver(deltas, NetAddB)))
  {
    hide RouteSwap, SwapDeltas, Split;
  }

  /** The deltas in ascending bucket order, with the two aggregate reserve changes. */
  method CollectDeltas(deltas: map<nat, Delta>, n: nat, ghost expected: seq<Delta>)
    returns (sorted: seq<Delta>, aggA: int, aggB: int)
    requires Ascending(expected)
    requires AllBelow(expected, n)
    requires Lists(deltas, expected)
    ensures sorted == expected
    ensures aggA == SumOver(expected, NetAddA) && aggB == SumOver(expected, NetAddB)
  {
    hide Lists, Cut, Ascending, AllBelow;
    aggA, aggB, sorted := 0, 0, [];
    CutNone(expected);
    for id := 0 to n
      invariant Cut(expected, |sorted|, id)
      invariant |sorted| <= |expected| && sorted == expected[..|sorted|]
      invariant aggA == SumOver(sorted, NetAddA) && aggB == SumOver(sorted, NetAddB)
    {
      if id in deltas {
        var d := deltas[id];
        CutNext(deltas, expected, |sorted|, id);
        SumSnoc(sorted, d, NetAddA);
        SumSnoc(sorted, d, NetAddB);
        aggA := aggA + (d.aAdd - d.aSub);
        aggB := aggB + (d.bAdd - d.bSub);
        sorted := sorted + [d];
      } else {
        CutSkip(deltas, expected, |sorted|, id);
      }
    }
    CutAll(expected, |sorted|, n);
  }

  /** Exactly the first m deltas have an id below `id`. */
  ghost predicate Cut(ds: seq<Delta>, m: nat, id: int) {
    m <= |ds| && forall k :: 0 <= k < |ds| ==> (k < m <==> ds[k].id < id)
  }

  lemma CutNone(ds: seq<Delta>)
    ensures Cut(ds, 0, 0)
  {}

  lemma CutAt(ds: seq<Delta>, m: nat, id: int, k: nat)
    requires Cut(ds, m, id) && k < |ds|
    ensures k < m <==> ds[k].id < id
  {}

  lemma CutNext(deltas: map<nat, Delta>, ds: seq<Delta>, m: nat, id: nat)
    requires Cut(ds, m, id) && Ascending(ds) && Lists(deltas, ds) && id in deltas
    ensures m < |ds| && ds[m] == deltas[id] && Cut(ds, m + 1, id + 1)
  {
    var k :| 0 <= k < |ds| && ds[k].id == id;
    CutAt(ds, m, id, k);
    CutAt(ds, m, id, m);
  }

  lemma CutSkip(deltas: map<nat, Delta>, ds: seq<Delta>, m: nat, id: nat)
    requires Cut(ds, m, id) && Lists(deltas, ds) && id !in deltas
    ensures Cut(ds, m, id + 1)
  {}

  lemma CutAll(ds: seq<Delta>, m: nat, n: nat)
    requires Cut(ds, m, n) && AllBelow(ds, n)
    ensures m == |ds|
  {
    if m < |ds| {
      CutAt(ds, m, n, m);
    }
  }

  // ------------------------------------------------- what the loop maintains

  ghost predicate FeesSoFar(done: seq<Step>, fees: seq<int>, withheld: nat, total: nat, left: nat) {
    && |fees| == |done|
    && (|done| > 0 ==> total > 0)
    && (left > 0 && |done| > 0 ==> fees == Floors(withheld, Inputs(done), total))
    && (left == 0 ==> (total > 0 || |done| <= 1) && fees == Split(withheld, Inputs(done), total))
  }

  ghost predicate Recorded(up: bool, deltas: map<nat, Delta>, done: seq<Step>, fees: seq<int>) {
    && |fees| == |done| == |deltas|
    && (forall i :: 0 <= i < |done| ==>
          done[i].id in deltas && deltas[done[i].id] == DeltaOf(up, done[i], fees[i]))
    && (forall k :: k in deltas ==> exists i :: 0 <= i < |done| && done[i].id == k)
  }

  ghost predicate Behind(up: bool, id: int, done: seq<Step>) {
    forall i :: 0 <= i < |done| ==> Before(up, done[i].id, id)
  }

  ghost predicate Ordered(up: bool, done: seq<Step>) {
    forall i, j :: 0 <= i < j < |done| ==> Before(up, done[i].id, done[j].id)
  }

  lemma OrderStep(up: bool, id: int, done: seq<Step>, st: Step)
    requires Ordered(up, done) && Behind(up, id, done) && st.id == id
    ensures Ordered(up, done + [st])
    ensures Behind(up, Next(up, id), done + [st])
  {
    var r := done + [st];
    forall i, j | 0 <= i < j < |r|
      ensures Before(up, r[i].id, r[j].id)
    {
      assert r[i] == done[i];
    }
    forall i | 0 <= i < |r|
      ensures Before(up, r[i].id, Next(up, id))
    {
      assert i < |done| ==> Before(up, done[i].id, id);
    }
  }

  lemma PrependNothing(r: Result<Route>)
    ensures Prepend([], r) == r
  {
    if r.Ok? {
      assert [] + r.value.steps == r.value.steps;
    }
  }

  lemma PrependDone(done: seq<Step>, s: nat)
    ensures Prepend(done, Ok(Route([], s))) == Ok(Route(done, s))
  {
    assert done + [] == done;
  }

  /** The walk stands inside a bucket that holds liquidity. */
  predicate AtFunded(bs: seq<Bucket>, id: int, s: nat) {
    0 <= id < |bs| && bs[id].state.liquidity > 0 && bs[id].bounds.lower <= s <= bs[id].bounds.upper
  }

  /** The loop invariant: what is done, plus the walk still to go, is the route. */
  ghost predicate Progress(pool: Pool, up: bool, input: nat, done: seq<Step>, fees: seq<int>,
                           deltas: map<nat, Delta>, id: int, s: nat, left: nat) {
    && RouteSwap(pool, up, input) == Prepend(done, Walk(pool.buckets, up, id, s, left))
    && (left > 0 ==> AfterFee(input) > 0 && Behind(up, id, done))
    && FeesSoFar(done, fees, input - AfterFee(input), AfterFee(input), left)
    && Recorded(up, deltas, done, fees)
    && Ordered(up, done)
  }

  /** Some list of steps and fees accounts for the loop's variables. */
  ghost predicate Traced(pool: Pool, up: bool, input: nat, deltas: map<nat, Delta>, id: int, s: nat, left: nat,
                         paid: int) {
    exists done, fees ::
      Progress(pool, up, input, done, fees, deltas, id, s, left) && paid == SumOver(fees, Share)
  }

  lemma TracedStart(pool: Pool, up: bool, input: nat)
    ensures Traced(pool, up, input, map[], StartBucket(pool), pool.currentSqrtPrice, AfterFee(input), 0)
  {
    PrependNothing(RouteSwap(pool, up, input));
    assert Progress(pool, up, input, [], [], map[], StartBucket(pool), pool.currentSqrtPrice, AfterFee(input));
    assert SumOver<int>([], Share) == 0;
  }

  lemma TracedSkip(pool: Pool, up: bool, input: nat, deltas: map<nat, Delta>, id: int, s: nat, left: nat, paid: int)
    requires Traced(pool, up, input, deltas, id, s, left, paid)
    requires left > 0 && 0 <= id < |pool.buckets| && pool.buckets[id].state.liquidity == 0
    requires pool.buckets[id].bounds.lower <= s <= pool.buckets[id].bounds.upper
    ensures Traced(pool, up, input, deltas, Next(up, id), FarBound(up, pool.buckets[id].bounds), left, paid)
  {
    hide FeesSoFar, Recorded, Ordered;
    var done: seq<Step>, fees: seq<int> :|
      Progress(pool, up, input, done, fees, deltas, id, s, left) && paid == SumOver(fees, Share);
    assert Behind(up, Next(up, id), done) by {
      assert forall i :: 0 <= i < |done| ==> Before(up, done[i].id, id);
    }
    assert Progress(pool, up, input, done, fees, deltas, Next(up, id), FarBound(up, pool.buckets[id].bounds), left);
  }

  lemma TracedError(pool: Pool, up: bool, input: nat, deltas: map<nat, Delta>, id: int, s: nat, left: nat, paid: int,
                    e: Error)
    requires Traced(pool, up, input, deltas, id, s, left, paid)
    requires Walk(pool.buckets, up, id, s, left) == Err(e)
    ensures RouteSwap(pool, up, input) == Err(e)
  {
    hide FeesSoFar, Recorded, Ordered, Behind;
  }

  lemma TracedOutside(pool: Pool, up: bool, input: nat, deltas: map<nat, Delta>, id: int, s: nat, left: nat, paid: int)
    requires Traced(pool, up, input, deltas, id, s, left, paid)
    requires left > 0 && 0 <= id < |pool.buckets|
    requires s < pool.buckets[id].bounds.lower || s > pool.buckets[id].bounds.upper
    ensures RouteSwap(pool, up, input) == Err(OutsideGrid)
  {
    TracedError(pool, up, input, deltas, id, s, left, paid, OutsideGrid);
  }

  lemma TracedExceeded(pool: Pool, up: bool, input: nat, deltas: map<nat, Delta>, id: int, s: nat, left: nat, paid: int)
    requires Traced(pool, up, input, deltas, id, s, left, paid)
    requires left > 0 && !(0 <= id < |pool.buckets|)
    ensures RouteSwap(pool, up, input) == Err(ExceededBuckets)
  {
    TracedError(pool, up, input, deltas, id, s, left, paid, ExceededBuckets);
  }

  lemma TracedStepError(pool: Pool, up: bool, input: nat, deltas: map<nat, Delta>, id: int, s: nat, left: nat,
                        paid: int)
    requires Traced(pool, up, input, deltas, id, s, left, paid)
    requires left > 0 && AtFunded(pool.buckets, id, s)
    requires SwapStep(up, id, pool.buckets[id], s, left).Err?
    ensures RouteSwap(pool, up, input) == Err(SwapStep(up, id, pool.buckets[id], s, left).error)
  {
    TracedError(pool, up, input, deltas, id, s, left, paid, SwapStep(up, id, pool.buckets[id], s, left).error);
  }

  lemma ProgressStep(pool: Pool, up: bool, input: nat, done: seq<Step>, fees: seq<int>,
                     deltas: map<nat, Delta>, id: int, s: nat, left: nat, st: Step, fee: int)
    requires Progress(pool, up, input, done, fees, deltas, id, s, left)
    requires left > 0 && AtFunded(pool.buckets, id, s)
    requires SwapStep(up, id, pool.buckets[id], s, left) == Ok(st)
    requires fee == if left == st.amountIn then input - AfterFee(input) - SumOver(fees, Share)
                    else FloorShare(input - AfterFee(input), st.amountIn, AfterFee(input))
    ensures id !in deltas
    ensures SumOver(fees + [fee], Share) == SumOver(fees, Share) + fee
    ensures Progress(pool, up, input, done + [st], fees + [fee], deltas[id := DeltaOf(up, st, fee)],
                     if left == st.amountIn then id else Next(up, id), st.sqrtTo, left - st.amountIn)
  {
    hide Recorded, Ordered, Behind, FeesSoFar, DeltaOf, FloorShare, Split, SwapStep;
    var left' := left - st.amountIn;
    assert Walk(pool.buckets, up, Next(up, id), st.sqrtTo, left')
        == Walk(pool.buckets, up, if left == st.amountIn then id else Next(up, id), st.sqrtTo, left');
    WalkStep(pool.buckets, up, id, s, left, st);
    PrependStep(done, st, Walk(pool.buckets, up, Next(up, id), st.sqrtTo, left'));
    RecordStep(up, deltas, done, fees, st, fee, id);
    FeeStep(done, fees, input - AfterFee(input), AfterFee(input), st, fee, left');
    OrderStep(up, id, done, st);
  }

  lemma WalkStep(bs: seq<Bucket>, up: bool, id: int, s: nat, left: nat, st: Step)
    requires left > 0 && AtFunded(bs, id, s)
    requires SwapStep(up, id, bs[id], s, left) == Ok(st)
    ensures Walk(bs, up, id, s, left) == Prepend([st], Walk(bs, up, Next(up, id), st.sqrtTo, left - st.amountIn))
  {}

  lemma TracedEnd(pool: Pool, up: bool, input: nat, deltas: map<nat, Delta>, id: int, s: nat, paid: int)
    returns (done: seq<Step>, fees: seq<int>)
    requires Traced(pool, up, input, deltas, id, s, 0, paid)
    ensures RouteSwap(pool, up, input) == Ok(Route(done, s))
    ensures |deltas| == |done| == |fees|
    ensures AfterFee(input) > 0 || |done| <= 1
    ensures fees == Split(input - AfterFee(input), Inputs(done), AfterFee(input))
    ensures
      var ds := SwapDeltas(up, done, fees);
      Ascending(ds) && Lists(deltas, ds) && AllBelow(ds, |pool.buckets|)
  {
    done, fees :| Progress(pool, up, input, done, fees, deltas, id, s, 0) && paid == SumOver(fees, Share);
    PrependDone(done, s);
    SortedDeltas(up, done, fees, deltas);
    RecordedInRange(up, pool, input, deltas, done, fees);
  }

  lemma PrependStep(done: seq<Step>, st: Step, rest: Result<Route>)
    ensures Prepend(done + [st], rest) == Prepend(done, Prepend([st], rest))
  {
    if rest.Ok? {
      assert done + [st] + rest.value.steps == done + ([st] + rest.value.steps);
    }
  }

  lemma RecordStep(up: bool, deltas: map<nat, Delta>, done: seq<Step>, fees: seq<int>,
                   st: Step, fee: int, id: int)
    requires Recorded(up, deltas, done, fees) && Behind(up, id, done) && st.id == id
    ensures st.id !in deltas
    ensures Recorded(up, deltas[st.id := DeltaOf(up, st, fee)], done + [st], fees + [fee])
  {
    hide DeltaOf;
    var more, paid := done + [st], fees + [fee];
    var d' := deltas[st.id := DeltaOf(up, st, fee)];
    forall i | 0 <= i < |more|
      ensures more[i].id in d' && d'[more[i].id] == DeltaOf(up, more[i], paid[i])
    {
      if i < |done| {
        assert Before(up, done[i].id, id);
      }
    }
    forall k | k in d'
      ensures exists i :: 0 <= i < |more| && more[i].id == k
    {
      if k == st.id {
        assert more[|done|].id == k;
      } else {
        var i :| 0 <= i < |done| && done[i].id == k;
        assert more[i].id == k;
      }
    }
  }

  lemma FeeStep(done: seq<Step>, fees: seq<int>, withheld: nat, total: nat,
                st: Step, fee: int, left: nat)
    requires FeesSoFar(done, fees, withheld, total, left + st.amountIn)
    requires left + st.amountIn > 0 && total > 0
    requires fee == if left == 0 then withheld - SumOver(fees, Share) else FloorShare(withheld, st.amountIn, total)
    ensures FeesSoFar(done + [st], fees + [fee], withheld, total, left)
    ensures SumOver(fees + [fee], Share) == SumOver(fees, Share) + fee
  {
    assert Inputs(done + [st]) == Inputs(done) + [st.amountIn];
    assert fees == Floors(withheld, Inputs(done), total);
    FloorsSnoc(withheld, Inputs(done), st.amountIn, total);
    assert Inputs(done + [st])[..|done|] == Inputs(done);
    SumSnoc(fees, fee, Share);
  }

  function Place(up: bool, n: nat, k: nat): nat
    requires k < n
  {
    if up then k else n - 1 - k
  }

  lemma DeltaAt(up: bool, steps: seq<Step>, fees: seq<int>, k: nat)
    requires |fees| == |steps| && k < |steps|
    ensures
      var i := Place(up, |steps|, k);
      SwapDeltas(up, steps, fees)[k] == DeltaOf(up, steps[i], fees[i])
  {}

  ghost predicate AllBelow(ds: seq<Delta>, n: nat) {
    forall k :: 0 <= k < |ds| ==> ds[k].id < n
  }

  ghost predicate Ascending(ds: seq<Delta>) {
    forall i, j :: 0 <= i < j < |ds| ==> ds[i].id < ds[j].id
  }

  /** The list and the map hold the same deltas. */
  ghost predicate Lists(deltas: map<nat, Delta>, ds: seq<Delta>) {
    && (forall k :: 0 <= k < |ds| ==> ds[k].id in deltas && deltas[ds[k].id] == ds[k])
    && (forall id :: id in deltas ==> exists k :: 0 <= k < |ds| && ds[k].id == id)
  }

  /** Reading the recorded deltas by ascending id gives the spec's list. */
  lemma SortedDeltas(up: bool, done: seq<Step>, fees: seq<int>, deltas: map<nat, Delta>)
    requires Recorded(up, deltas, done, fees) && Ordered(up, done)
    ensures Ascending(SwapDeltas(up, done, fees)) && Lists(deltas, SwapDeltas(up, done, fees))
  {
    var ds := SwapDeltas(up, done, fees);
    forall k | 0 <= k < |ds|
      ensures ds[k].id in deltas && deltas[ds[k].id] == ds[k]
    {
      DeltaAt(up, done, fees, k);
    }
    forall id | id in deltas
      ensures exists k :: 0 <= k < |ds| && ds[k].id == id
    {
      var i :| 0 <= i < |done| && done[i].id == id;
      ListedDelta(up, done, fees, i);
    }
    DeltasAscend(up, done, fees);
  }

  lemma ListedDelta(up: bool, steps: seq<Step>, fees: seq<int>, i: nat)
    requires |fees| == |steps| && i < |steps|
    ensures exists k :: 0 <= k < |SwapDeltas(up, steps, fees)| && SwapDeltas(up, steps, fees)[k].id == steps[i].id
  {
    DeltaAt(up, steps, fees, Place(up, |steps|, i));
    assert SwapDeltas(up, steps, fees)[Place(up, |steps|, i)].id == steps[i].id;
  }

  lemma DeltasAscend(up: bool, steps: seq<Step>, fees: seq<int>)
    requires |fees| == |steps| && Ordered(up, steps)
    ensures Ascending(SwapDeltas(up, steps, fees))
  {
    var ds := SwapDeltas(up, steps, fees);
    forall i, j | 0 <= i < j < |ds|
      ensures ds[i].id < ds[j].id
    {
      DeltaAt(up, steps, fees, i);
      DeltaAt(up, steps, fees, j);
    }
  }

  lemma RecordedInRange(up: bool, pool: Pool, input: nat, deltas: map<nat, Delta>,
                        done: seq<Step>, fees: seq<int>)
    requires |fees| == |done|
    requires RouteSwap(pool, up, input).Ok? && RouteSwap(pool, up, input).value.steps == done
    ensures AllBelow(SwapDeltas(up, done, fees), |pool.buckets|)
  {
    WalkIsDirected(pool.buckets, up, StartBucket(pool), pool.currentSqrtPrice, AfterFee(input));
    forall k | 0 <= k < |done|
      ensures SwapDeltas(up, done, fees)[k].id < |pool.buckets|
    {
      DeltaAt(up, done, fees, k);
      assert done[Place(up, |done|, k)] in done;
    }
  }
}
