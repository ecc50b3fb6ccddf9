/**
 How well each bucket's token B reserve backs its liquidity. The yardstick is the
 pool price clamped into the bucket: liquidity L owes L per SCALE units of clamped
 price movement. A swap falls behind that only by rounding, and by how much is
 counted per bucket.
 */
module Backing {
  import opened Arithmetic
  import opened FixedPoint
  import opened Sequences
  import opened Swap
  import opened SwapTheory

  /** The generated grid: increasing, and each bucket starts where the one before it ends. */
  ghost predicate Contiguous(bs: seq<Bucket>) {
    && (forall i :: 0 <= i < |bs| ==> bs[i].bounds.lower < bs[i].bounds.upper)
    && (forall i :: 0 < i < |bs| ==> bs[i - 1].bounds.upper == bs[i].bounds.lower)
  }

  lemma {:induction false} GridRises(bs: seq<Bucket>, i: nat, j: nat)
    requires Contiguous(bs) && i < j < |bs|
    ensures bs[i].bounds.upper <= bs[j].bounds.lower
  {
    if i + 1 < j {
      GridRises(bs, i, j - 1);
    }
  }

  function Clamp(b: Bounds, s: nat): nat {
    if s <= b.lower then b.lower else if s >= b.upper then b.upper else s
  }

  /** Net token B a step adds to bucket k. */
  function BIn(up: bool, k: nat, st: Step): int {
    if st.id != k then 0 else if up then st.amountIn else 0 - st.amountOut
  }

  /** Boundary crossings of bucket k by a step. */
  function Crossing(k: nat, st: Step): int {
    if st.id == k && st.full then 1 else 0
  }

  /** Steps that stopped inside bucket k. */
  function Landing(k: nat, st: Step): int {
    if st.id == k && !st.full then 1 else 0
  }

  /** The largest undershoot of a downward landing in a bucket. */
  function Undershoot(b: Bounds): nat {
    if b.lower == 0 then 0 else CeilDiv(SCALE, b.lower)
  }

  /** Rounding slack of a walk on bucket k, scaled. */
  function Slack(bs: seq<Bucket>, up: bool, k: nat, steps: seq<Step>): int
    requires k < |bs|
  {
    if up then SCALE * SumOver(steps, st => Crossing(k, st))
    else bs[k].state.liquidity * Undershoot(bs[k].bounds) * SumOver(steps, st => Landing(k, st))
  }

  function BNet(up: bool, k: nat, steps: seq<Step>): int {
    SumOver(steps, st => BIn(up, k, st))
  }

  lemma SlackCons(bs: seq<Bucket>, up: bool, k: nat, st: Step, rest: seq<Step>)
    requires k < |bs|
    ensures BNet(up, k, [st] + rest) == BIn(up, k, st) + BNet(up, k, rest)
    ensures Slack(bs, up, k, [st] + rest) == Slack(bs, up, k, [st]) + Slack(bs, up, k, rest)
    ensures Slack(bs, up, k, [st]) ==
      if up then SCALE * Crossing(k, st) else bs[k].state.liquidity * Undershoot(bs[k].bounds) * Landing(k, st)
  {
    var b := (st: Step) => BIn(up, k, st);
    var c := (st: Step) => Crossing(k, st);
    var l := (st: Step) => Landing(k, st);
    ConsAll(st, rest, b, st => BIn(up, k, st));
    ConsAll(st, rest, c, st => Crossing(k, st));
    ConsAll(st, rest, l, st => Landing(k, st));
    var w := bs[k].state.liquidity * Undershoot(bs[k].bounds);
    assert SCALE * (c(st) + SumOver(rest, c)) == SCALE * c(st) + SCALE * SumOver(rest, c);
    assert w * (l(st) + SumOver(rest, l)) == w * l(st) + w * SumOver(rest, l);
  }

  lemma ConsAll(st: Step, rest: seq<Step>, f: Step -> int, g: Step -> int)
    requires forall st :: f(st) == g(st)
    ensures SumOver([st] + rest, g) == f(st) + SumOver(rest, f)
    ensures SumOver([st], g) == f(st)
    ensures SumOver(rest, f) == SumOver(rest, g)
  {
    SumCons(st, rest, g);
    SumCons(st, [], g);
    assert [st] + [] == [st];
    SumCong(rest, f, g);
  }

  // ---------------------------------------------------------------- one step

  /** A step between two prices leaves the clamped price of every other bucket where it was, or lower. */
  lemma OtherBucketClamp(bs: seq<Bucket>, up: bool, id: nat, k: nat, s: nat, t: nat)
    requires Contiguous(bs) && id < |bs| && k < |bs| && id != k
    requires bs[id].bounds.lower <= s <= bs[id].bounds.upper
    requires if up then s <= t <= bs[id].bounds.upper else t <= s
    ensures Clamp(bs[k].bounds, t) <= Clamp(bs[k].bounds, s)
  {
    if k < id {
      GridRises(bs, k, id);
    } else {
      GridRises(bs, id, k);
    }
  }

  lemma UpStepBacked(L: nat, b: Bounds, s: nat, remaining: nat, id: nat, bucket: Bucket)
    requires bucket == Bucket(b, bucket.state) && bucket.state.liquidity == L > 0
    requires b.lower <= s <= b.upper && remaining > 0
    requires SwapStep(true, id, bucket, s, remaining).Ok?
    ensures
      var st := SwapStep(true, id, bucket, s, remaining).value;
      SCALE * st.amountIn >= L * (st.sqrtTo - s) - SCALE * (if st.full then 1 else 0)
  {
    var most := L * (b.upper - s) / SCALE;
    if remaining <= most {
      FloorBounds(remaining * SCALE, L);
    } else {
      FloorBounds(L * (b.upper - s), SCALE);
    }
  }

  lemma DownStepBacked(L: nat, b: Bounds, s: nat, remaining: nat, id: nat, bucket: Bucket)
    requires bucket == Bucket(b, bucket.state) && bucket.state.liquidity == L > 0
    requires b.lower <= s <= b.upper && b.lower < b.upper && remaining > 0
    requires SwapStep(false, id, bucket, s, remaining).Ok?
    ensures
      var st := SwapStep(false, id, bucket, s, remaining).value;
      -(SCALE * st.amountOut) >= L * (Clamp(b, st.sqrtTo) - s) - L * Undershoot(b) * (if st.full then 0 else 1)
  {
    var st := SwapStep(false, id, bucket, s, remaining).value;
    assert SCALE * st.amountOut <= L * (s - st.sqrtTo) by {
      FloorBounds(L * (s - st.sqrtTo), SCALE);
    }
    DownStepInBucket(id, bucket, s, remaining);
    CeilMono(SCALE, b.lower, s);
    UndershootCost(L, s, st.sqrtTo, Clamp(b, st.sqrtTo), Undershoot(b), st.full);
  }

  lemma UndershootCost(L: nat, s: nat, t: nat, c: nat, u: nat, full: bool)
    requires c <= t + (if full then 0 else u)
    ensures -(L * (s - t)) >= L * (c - s) - L * u * (if full then 0 else 1)
  {
    if full {
      MulMono(c - s, t - s, L);
      assert (t - s) * L == -(L * (s - t)) && (c - s) * L == L * (c - s);
    } else {
      MulMono(c - s, t - s + u, L);
      assert (t - s + u) * L == -(L * (s - t)) + L * u && (c - s) * L == L * (c - s);
    }
  }

  /** A larger divisor needs no larger ceiling. */
  lemma CeilMono(a: nat, b: nat, b': nat)
    requires 0 < b <= b'
    ensures CeilDiv(a, b') <= CeilDiv(a, b)
  {
    CeilBounds(a, b);
    CeilBounds(a, b');
    MulMono(b, b', CeilDiv(a, b));
    if CeilDiv(a, b') > CeilDiv(a, b) {
      MulMono(CeilDiv(a, b) + 1, CeilDiv(a, b'), b');
    }
    assert (CeilDiv(a, b) + 1) * b' == CeilDiv(a, b) * b' + b';
  }

  /** One step, seen from any bucket k. */
  lemma StepBacked(bs: seq<Bucket>, up: bool, id: nat, s: nat, remaining: nat, k: nat)
    requires Contiguous(bs) && k < |bs| && AtFunded(bs, id, s) && remaining > 0
    requires SwapStep(up, id, bs[id], s, remaining).Ok?
    ensures
      var st := SwapStep(up, id, bs[id], s, remaining).value;
      SCALE * BIn(up, k, st) >=
        bs[k].state.liquidity * (Clamp(bs[k].bounds, st.sqrtTo) - Clamp(bs[k].bounds, s)) - Slack(bs, up, k, [st])
  {
    hide SwapStep, Slack, Undershoot;
    var st := SwapStep(up, id, bs[id], s, remaining).value;
    SlackCons(bs, up, k, st, []);
    var b, L := bs[id], bs[k].state.liquidity;
    if up {
      UpStepInBucket(id, b, s, remaining);
    }
    if k == id {
      if up {
        UpStepBacked(L, b.bounds, s, remaining, id, b);
      } else {
        DownStepBacked(L, b.bounds, s, remaining, id, b);
      }
    } else {
      OtherBucketClamp(bs, up, id, k, s, st.sqrtTo);
      MulMono(Clamp(bs[k].bounds, st.sqrtTo), Clamp(bs[k].bounds, s), L);
      assert L * (Clamp(bs[k].bounds, st.sqrtTo) - Clamp(bs[k].bounds, s)) <= 0;
    }
  }

  // ------------------------------------------------- a bucket's own price moves

  /** The price move of a step inside bucket k. */
  function MoveIn(k: nat, st: Step): int {
    if st.id == k then st.sqrtTo - st.sqrtFrom else 0
  }

  /** The price moves made inside bucket k, downward ones negative. */
  function Moved(k: nat, steps: seq<Step>): int {
    SumOver(steps, st => MoveIn(k, st))
  }

  /** Upward crossings of bucket k. */
  function UpCrossings(up: bool, k: nat, steps: seq<Step>): int {
    if up then SumOver(steps, st => Crossing(k, st)) else 0
  }

  /** One step: downward nothing is lost, upward less than one unit per crossing. */
  lemma StepMoves(bs: seq<Bucket>, up: bool, id: nat, s: nat, remaining: nat, k: nat)
    requires k < |bs| && AtFunded(bs, id, s) && remaining > 0
    requires SwapStep(up, id, bs[id], s, remaining).Ok?
    ensures
      var st := SwapStep(up, id, bs[id], s, remaining).value;
      SCALE * BIn(up, k, st) >=
        bs[k].state.liquidity * MoveIn(k, st) - SCALE * (if up then Crossing(k, st) else 0)
  {
    var b, L := bs[id], bs[k].state.liquidity;
    if k == id {
      if up {
        UpStepBacked(L, b.bounds, s, remaining, id, b);
      } else {
        DownStepMoves(L, id, b, s, remaining);
      }
    }
  }

  lemma DownStepMoves(L: nat, id: nat, b: Bucket, s: nat, remaining: nat)
    requires b.state.liquidity == L > 0 && b.bounds.lower <= s <= b.bounds.upper && remaining > 0
    requires SwapStep(false, id, b, s, remaining).Ok?
    ensures
      var st := SwapStep(false, id, b, s, remaining).value;
      -(SCALE * st.amountOut) >= L * (st.sqrtTo - s)
  {
    var st := SwapStep(false, id, b, s, remaining).value;
    FloorBounds(L * (s - st.sqrtTo), SCALE);
    assert L * (st.sqrtTo - s) == -(L * (s - st.sqrtTo));
  }

  lemma MovesCons(up: bool, k: nat, st: Step, rest: seq<Step>)
    ensures Moved(k, [st] + rest) == MoveIn(k, st) + Moved(k, rest)
    ensures BNet(up, k, [st] + rest) == BIn(up, k, st) + BNet(up, k, rest)
    ensures UpCrossings(up, k, [st] + rest) == (if up then Crossing(k, st) else 0) + UpCrossings(up, k, rest)
  {
    ConsAll(st, rest, st => MoveIn(k, st), st => MoveIn(k, st));
    ConsAll(st, rest, st => BIn(up, k, st), st => BIn(up, k, st));
    ConsAll(st, rest, st => Crossing(k, st), st => Crossing(k, st));
  }

  /**
   A whole walk on any grid: token B in a bucket moves at least as much as its
   liquidity owes for the price moves made inside it, less one unit per upward
   crossing.
   */
  lemma {:induction false} WalkMoves(bs: seq<Bucket>, up: bool, id: int, s: nat, remaining: nat, k: nat)
    requires k < |bs| && Walk(bs, up, id, s, remaining).Ok?
    ensures
      var steps := Walk(bs, up, id, s, remaining).value.steps;
      SCALE * BNet(up, k, steps) >= bs[k].state.liquidity * Moved(k, steps) - SCALE * UpCrossings(up, k, steps)
    decreases if up then |bs| - id else id + 1
  {
    hide SwapStep, BNet, Moved, UpCrossings, MoveIn, Crossing, BIn;
    if remaining == 0 {
      NoMoves(up, k);
    } else {
      var b, L := bs[id], bs[k].state.liquidity;
      if b.state.liquidity == 0 {
        WalkMoves(bs, up, Next(up, id), FarBound(up, b.bounds), remaining, k);
      } else {
        var st := SwapStep(up, id, b, s, remaining).value;
        var rest := Walk(bs, up, Next(up, id), st.sqrtTo, remaining - st.amountIn).value;
        StepMoves(bs, up, id, s, remaining, k);
        WalkMoves(bs, up, Next(up, id), st.sqrtTo, remaining - st.amountIn, k);
        MovesCons(up, k, st, rest.steps);
        assert L * (MoveIn(k, st) + Moved(k, rest.steps)) == L * MoveIn(k, st) + L * Moved(k, rest.steps);
      }
    }
  }

  lemma NoMoves(up: bool, k: nat)
    ensures BNet(up, k, []) == 0 && Moved(k, []) == 0 && UpCrossings(up, k, []) == 0
  {}

  // ---------------------------------------------------------------- one walk

  /**
   A whole walk, seen from any bucket: token B in the bucket moves at least as
   much as its liquidity owes for the clamped price move, less the counted slack.
   */
  lemma {:induction false} WalkBacked(bs: seq<Bucket>, up: bool, id: int, s: nat, remaining: nat, k: nat)
    requires Contiguous(bs) && k < |bs| && Walk(bs, up, id, s, remaining).Ok?
    ensures
      var r := Walk(bs, up, id, s, remaining).value;
      SCALE * BNet(up, k, r.steps) >=
        bs[k].state.liquidity * (Clamp(bs[k].bounds, r.sqrtEnd) - Clamp(bs[k].bounds, s)) - Slack(bs, up, k, r.steps)
    decreases if up then |bs| - id else id + 1
  {
    hide SwapStep, Slack, BNet, Clamp, Contiguous, BIn;
    if remaining == 0 {
      NoSteps(bs, up, k);
    } else {
      var b, L := bs[id], bs[k].state.liquidity;
      if b.state.liquidity == 0 {
        EmptyBucketClamp(bs, up, id, k, s);
        WalkBacked(bs, up, Next(up, id), FarBound(up, b.bounds), remaining, k);
        Telescope(L, Clamp(bs[k].bounds, s), Clamp(bs[k].bounds, FarBound(up, b.bounds)),
                  Clamp(bs[k].bounds, Walk(bs, up, id, s, remaining).value.sqrtEnd));
      } else {
        var st := SwapStep(up, id, b, s, remaining).value;
        var rest := Walk(bs, up, Next(up, id), st.sqrtTo, remaining - st.amountIn).value;
        StepBacked(bs, up, id, s, remaining, k);
        WalkBacked(bs, up, Next(up, id), st.sqrtTo, remaining - st.amountIn, k);
        SlackCons(bs, up, k, st, rest.steps);
        Telescope(L, Clamp(bs[k].bounds, s), Clamp(bs[k].bounds, st.sqrtTo), Clamp(bs[k].bounds, rest.sqrtEnd));
      }
    }
  }

  lemma NoSteps(bs: seq<Bucket>, up: bool, k: nat)
    requires k < |bs|
    ensures BNet(up, k, []) == 0 && Slack(bs, up, k, []) == 0
  {}

  lemma Telescope(L: nat, a: int, b: int, c: int)
    ensures L * (c - a) == L * (b - a) + L * (c - b)
  {}

  lemma EmptyBucketClamp(bs: seq<Bucket>, up: bool, id: nat, k: nat, s: nat)
    requires Contiguous(bs) && id < |bs| && k < |bs| && bs[id].state.liquidity == 0
    requires bs[id].bounds.lower <= s <= bs[id].bounds.upper
    ensures bs[k].state.liquidity * (Clamp(bs[k].bounds, FarBound(up, bs[id].bounds)) - Clamp(bs[k].bounds, s)) <= 0
  {
    if k != id {
      var t := FarBound(up, bs[id].bounds);
      OtherBucketClamp(bs, up, id, k, s, t);
      MulMono(Clamp(bs[k].bounds, t) - Clamp(bs[k].bounds, s), 0, bs[k].state.liquidity);
    }
  }

  // --------------------------------------------------- no more than is owed

  function Visit(k: nat, st: Step): int {
    if st.id == k then 1 else 0
  }

  function Visited(k: nat, steps: seq<Step>): int {
    SumOver(steps, st => Visit(k, st))
  }

  /** What a downward landing can take off the clamped price of a bucket it does not touch. */
  lemma LandingClamp(bs: seq<Bucket>, id: nat, k: nat, s: nat, t: nat)
    requires Contiguous(bs) && id < |bs| && k < |bs| && id != k && 0 < bs[k].bounds.lower
    requires bs[id].bounds.lower <= s <= bs[id].bounds.upper && t <= s && s > 0
    requires t + CeilDiv(SCALE, s) >= bs[id].bounds.lower
    ensures Clamp(bs[k].bounds, t) + Undershoot(bs[k].bounds) >= Clamp(bs[k].bounds, s)
    ensures t >= bs[id].bounds.lower ==> Clamp(bs[k].bounds, t) == Clamp(bs[k].bounds, s)
  {
    if k < id {
      GridRises(bs, k, id);
      CeilMono(SCALE, bs[k].bounds.lower, s);
    } else {
      GridRises(bs, id, k);
    }
  }

  /** The slack of one step on the other side: a visit's rounding, and a landing's undershoot. */
  function StepExcess(b: Bucket, k: nat, up: bool, st: Step): int {
    Visit(k, st) * (b.state.liquidity + SCALE)
    + if up || st.full then 0 else b.state.liquidity * Undershoot(b.bounds)
  }

  lemma StepTracks(bs: seq<Bucket>, up: bool, id: nat, s: nat, remaining: nat, k: nat)
    requires Contiguous(bs) && k < |bs| && 0 < bs[k].bounds.lower && AtFunded(bs, id, s) && remaining > 0
    requires SwapStep(up, id, bs[id], s, remaining).Ok?
    ensures
      var st, L := SwapStep(up, id, bs[id], s, remaining).value, bs[k].state.liquidity;
      SCALE * BIn(up, k, st)
      <= L * (Clamp(bs[k].bounds, st.sqrtTo) - Clamp(bs[k].bounds, s)) + StepExcess(bs[k], k, up, st)
  {
    hide SwapStep, Undershoot, Clamp, Contiguous;
    var st, b, L := SwapStep(up, id, bs[id], s, remaining).value, bs[id], bs[k].state.liquidity;
    assert L * Undershoot(bs[k].bounds) >= 0;
    if up {
      UpStepInBucket(id, b, s, remaining);
      UpStepShape(id, b, s, remaining);
      if k == id {
        ClampInside(b.bounds, s);
        ClampInside(b.bounds, st.sqrtTo);
      } else {
        OtherBucketStays(bs, id, k, s, st.sqrtTo);
      }
    } else {
      DownStepInBucket(id, b, s, remaining);
      if k == id {
        DownStepPays(id, b, s, remaining);
        ClampInside(b.bounds, s);
        ClampInside(b.bounds, st.sqrtTo);
        DownTracks(L, s, st.sqrtTo, Clamp(b.bounds, st.sqrtTo) - s, st.amountOut);
      } else {
        LandingClamp(bs, id, k, s, st.sqrtTo);
        MulMono(0 - Undershoot(bs[k].bounds), Clamp(bs[k].bounds, st.sqrtTo) - Clamp(bs[k].bounds, s), L);
      }
    }
  }

  lemma ClampInside(b: Bounds, s: nat)
    requires s <= b.upper
    ensures Clamp(b, s) >= s && (b.lower <= s ==> Clamp(b, s) == s)
  {}

  lemma DownTracks(L: nat, s: nat, t: nat, move: int, out: nat)
    requires t <= s && t - s <= move && L * (s - t) < (out + 1) * SCALE
    ensures SCALE * (0 - out) <= L * move + SCALE
  {
    MulMono(t - s, move, L);
    assert (t - s) * L == -(L * (s - t)) && move * L == L * move;
  }

  lemma OtherBucketStays(bs: seq<Bucket>, id: nat, k: nat, s: nat, t: nat)
    requires Contiguous(bs) && id < |bs| && k < |bs| && id != k
    requires bs[id].bounds.lower <= s <= bs[id].bounds.upper && bs[id].bounds.lower <= t <= bs[id].bounds.upper
    ensures Clamp(bs[k].bounds, t) == Clamp(bs[k].bounds, s)
  {
    if k < id {
      GridRises(bs, k, id);
    } else {
      GridRises(bs, id, k);
    }
  }

  lemma VisitsCons(up: bool, k: nat, st: Step, rest: seq<Step>)
    ensures BNet(up, k, [st] + rest) == BIn(up, k, st) + BNet(up, k, rest)
    ensures Visited(k, [st] + rest) == Visit(k, st) + Visited(k, rest)
  {
    ConsAll(st, rest, st => BIn(up, k, st), st => BIn(up, k, st));
    ConsAll(st, rest, st => Visit(k, st), st => Visit(k, st));
  }

  lemma EmptyBucketStays(bs: seq<Bucket>, up: bool, id: nat, k: nat, s: nat)
    requires Contiguous(bs) && id < |bs| && k < |bs| && bs[id].state.liquidity == 0
    requires bs[id].bounds.lower <= s <= bs[id].bounds.upper
    ensures bs[k].state.liquidity * (Clamp(bs[k].bounds, FarBound(up, bs[id].bounds)) - Clamp(bs[k].bounds, s)) == 0
  {
    if k != id {
      OtherBucketStays(bs, id, k, s, FarBound(up, bs[id].bounds));
    }
  }

  /**
   The other side of the same account: token B in a bucket moves at most as much as its
   liquidity owes for the clamped price move, and the rounding of one visit and one
   landing.
   */
  lemma {:induction false} WalkTracks(bs: seq<Bucket>, up: bool, id: int, s: nat, remaining: nat, k: nat)
    requires Contiguous(bs) && k < |bs| && 0 < bs[k].bounds.lower && Walk(bs, up, id, s, remaining).Ok?
    ensures
      var r, L := Walk(bs, up, id, s, remaining).value, bs[k].state.liquidity;
      SCALE * BNet(up, k, r.steps)
      <= L * (Clamp(bs[k].bounds, r.sqrtEnd) - Clamp(bs[k].bounds, s))
         + Visited(k, r.steps) * (L + SCALE) + L * Undershoot(bs[k].bounds)
    decreases if up then |bs| - id else id + 1
  {
    hide SwapStep, BNet, Visited, Visit, Clamp, Contiguous, BIn, Undershoot;
    var L, U := bs[k].state.liquidity, Undershoot(bs[k].bounds);
    assert L * U >= 0;
    if remaining == 0 {
      NothingVisited(up, k);
    } else {
      var b := bs[id];
      if b.state.liquidity == 0 {
        EmptyBucketStays(bs, up, id, k, s);
        WalkTracks(bs, up, Next(up, id), FarBound(up, b.bounds), remaining, k);
        Telescope(L, Clamp(bs[k].bounds, s), Clamp(bs[k].bounds, FarBound(up, b.bounds)),
                  Clamp(bs[k].bounds, Walk(bs, up, id, s, remaining).value.sqrtEnd));
      } else {
        var st := SwapStep(up, id, b, s, remaining).value;
        var rest := Walk(bs, up, Next(up, id), st.sqrtTo, remaining - st.amountIn).value;
        StepTracks(bs, up, id, s, remaining, k);
        VisitsCons(up, k, st, rest.steps);
        assert (Visit(k, st) + Visited(k, rest.steps)) * (L + SCALE)
            == Visit(k, st) * (L + SCALE) + Visited(k, rest.steps) * (L + SCALE);
        if st.full {
          WalkTracks(bs, up, Next(up, id), st.sqrtTo, remaining - st.amountIn, k);
          Telescope(L, Clamp(bs[k].bounds, s), Clamp(bs[k].bounds, st.sqrtTo), Clamp(bs[k].bounds, rest.sqrtEnd));
        } else {
          NothingVisited(up, k);
        }
      }
    }
  }

  lemma NothingVisited(up: bool, k: nat)
    ensures BNet(up, k, []) == 0 && Visited(k, []) == 0
  {}
}
