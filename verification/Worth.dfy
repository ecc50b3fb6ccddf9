/**
 How well each bucket's token A reserve follows the price. Between two prices liquidity
 L is worth L * SCALE / t - L * SCALE / s of token A, so the yardstick is kept in real
 numbers; each visit to a bucket falls behind it by at most one allowance.
 */
module Worth {
  import opened Arithmetic
  import opened FixedPoint
  import opened Sequences
  import opened Apportion
  import opened Swap
  import opened SwapTheory
  import opened Price
  import opened Clearing
  import opened Backing
  import opened Runs

  // ------------------------------------------------------------- real quotients

  lemma RealProduct(a: int, b: int)
    ensures (a * b) as real == a as real * b as real
  {}

  lemma Quotient(a: real, b: real)
    requires b > 0.0
    ensures (a / b) * b == a
  {}

  lemma CancelReal(x: real, y: real, k: real)
    requires k > 0.0 && x * k <= y * k
    ensures x <= y
  {
    if y < x {
      StrictReal(y, x, k);
    }
  }

  lemma StrictReal(x: real, y: real, k: real)
    requires x < y && k > 0.0
    ensures x * k < y * k
  {
    assert (y - x) * k > 0.0;
  }

  /** The gap between two quotients of k, multiplied out. */
  lemma GapTimes(k: real, x: real, y: real)
    requires x > 0.0 && y > 0.0
    ensures (k / y - k / x) * (x * y) == k * (x - y)
  {
    Quotient(k, x);
    Quotient(k, y);
    calc {
      (k / y - k / x) * (x * y);
      ((k / y) * y) * x - ((k / x) * x) * y;
      k * (x - y);
    }
  }

  lemma Positive(x: real, y: real)
    requires x > 0.0 && y > 0.0
    ensures x * y > 0.0
  {}

  lemma CoversGapReal(k: real, x: real, y: real, d: real)
    requires x > 0.0 && y > 0.0 && k * (x - y) <= d * (x * y)
    ensures d >= k / y - k / x
  {
    GapTimes(k, x, y);
    Positive(x, y);
    CancelReal(k / y - k / x, d, x * y);
  }

  lemma CoversGap(K: nat, s: nat, t: nat, d: int)
    requires s > 0 && t > 0 && K * (s - t) <= d * (s * t)
    ensures d as real >= K as real / t as real - K as real / s as real
  {
    var left, right := K * (s - t), d * (s * t);
    RealProduct(K, s - t);
    RealProduct(s, t);
    RealProduct(d, s * t);
    assert left as real <= right as real;
    CoversGapReal(K as real, s as real, t as real, d as real);
  }

  lemma BelowGapReal(k: real, x: real, y: real, d: real)
    requires x > 0.0 && y > 0.0 && d * (x * y) <= k * (x - y)
    ensures d <= k / y - k / x
  {
    GapTimes(k, x, y);
    Positive(x, y);
    CancelReal(d, k / y - k / x, x * y);
  }

  lemma BelowGap(K: nat, s: nat, t: nat, d: int)
    requires s > 0 && t > 0 && d * (s * t) <= K * (s - t)
    ensures d as real <= K as real / t as real - K as real / s as real
  {
    var left, right := d * (s * t), K * (s - t);
    RealProduct(K, s - t);
    RealProduct(s, t);
    RealProduct(d, s * t);
    assert left as real <= right as real;
    BelowGapReal(K as real, s as real, t as real, d as real);
  }

  lemma CoverLow(k: real, low: real, x: real)
    requires k >= 0.0 && 0.0 < low <= x
    ensures (k / low) * x >= k
  {
    Quotient(k, low);
    assert (x - low) * (k / low) >= 0.0;
  }

  lemma UnitGapReal(k: real, y: real, low: real)
    requires k >= 0.0 && y > 0.0 && 0.0 < low <= (y + 1.0) * y
    ensures k / y - k / (y + 1.0) <= k / low
  {
    GapTimes(k, y + 1.0, y);
    CoverLow(k, low, (y + 1.0) * y);
    CancelReal(k / y - k / (y + 1.0), k / low, (y + 1.0) * y);
  }

  /** One raw unit of price is worth at most K / (m * m) from m on. */
  lemma UnitGap(K: nat, t: nat, m: nat)
    requires 0 < m <= t
    ensures K as real / t as real - K as real / (t + 1) as real <= K as real / (m * m) as real
  {
    MulMono(m, t, m);
    MulMono(m, t, t);
    LowReal(m * m, t + 1, t);
    UnitGapReal(K as real, t as real, (m * m) as real);
  }

  lemma LowReal(low: nat, D: nat, s: nat)
    requires low <= D * s
    ensures low as real <= D as real * s as real
  {
    RealProduct(D, s);
  }

  /** What an output at a floored divisor can exceed the gap by. */
  lemma WithinGap(K: nat, s: nat, t: nat, D: nat, low: nat, out: nat)
    requires 0 < low <= D * s && s <= t && D > 0 && (out * D) * (s * t) <= (K * (t - s)) * (D + 1)
    ensures out as real <= K as real / s as real - K as real / t as real + K as real / low as real
  {
    CrossReal(out, D, s, t, K);
    LowReal(low, D, s);
    WithinGapReal(out as real, K as real, s as real, t as real, D as real, low as real);
  }

  lemma WithinGapReal(out: real, k: real, x: real, y: real, z: real, low: real)
    requires k >= 0.0 && 0.0 < x <= y && z > 0.0 && 0.0 < low <= z * x
    requires (out * z) * (x * y) <= (k * (y - x)) * (z + 1.0)
    ensures out <= k / x - k / y + k / low
  {
    GapTimes(k, y, x);
    CoverLow(k, low, z * x);
    Excess(out, k, x, y, z, k / x - k / y, k / low);
  }

  /** The integer comparison, read in real numbers. */
  lemma CrossReal(out: nat, D: nat, s: nat, t: nat, K: nat)
    requires (out * D) * (s * t) <= (K * (t - s)) * (D + 1)
    ensures (out as real * D as real) * (s as real * t as real)
         <= (K as real * (t as real - s as real)) * (D as real + 1.0)
  {
    var left, right := (out * D) * (s * t), (K * (t - s)) * (D + 1);
    RealProduct(out * D, s * t);
    RealProduct(out, D);
    RealProduct(s, t);
    RealProduct(K * (t - s), D + 1);
    RealProduct(K, t - s);
    assert left as real <= right as real;
  }

  lemma Excess(out: real, k: real, x: real, y: real, z: real, g: real, q: real)
    requires k >= 0.0 && 0.0 < x <= y && z > 0.0 && q * (z * x) >= k
    requires (out * z) * (x * y) <= (k * (y - x)) * (z + 1.0) && g * (y * x) == k * (y - x)
    ensures out <= g + q
  {
    var w := z * (x * y);
    calc {
      out * w;
      (out * z) * (x * y);
    <=
      (k * (y - x)) * (z + 1.0);
      (k * (y - x)) * z + k * (y - x);
    <= { assert k * x >= 0.0; }
      (k * (y - x)) * z + k * y;
    <= { assert (q * (z * x) - k) * y >= 0.0; }
      (g * (y * x)) * z + (q * (z * x)) * y;
      (g + q) * w;
    }
    Positive(x, y);
    Positive(z, x * y);
    CancelReal(out, g + q, w);
  }

  // ---------------------------------------------------------------- one step

  /** Token A that liquidity L is worth above price s. */
  function Held(L: nat, s: nat): real {
    if s == 0 then 0.0 else (L * SCALE) as real / s as real
  }

  /** No landing in the bucket can reach price zero. */
  predicate AboveRounding(b: Bounds) {
    Undershoot(b) < b.lower
  }

  /** Every lower bound above 1e9 will do. */
  lemma LargeBoundIsAbove(b: Bounds)
    requires b.lower > 1_000_000_000
    ensures AboveRounding(b)
  {
    CeilBounds(SCALE, b.lower);
    if Undershoot(b) >= b.lower {
      MulMono(b.lower, Undershoot(b), b.lower);
      MulMono(1_000_000_000, b.lower - 1, b.lower);
    }
  }

  lemma BoundsAbove(b: Bounds)
    requires AboveRounding(b)
    ensures b.lower * b.lower / SCALE > 0
  {
    CeilBounds(SCALE, b.lower);
    MulMono(Undershoot(b), b.lower, b.lower);
    FloorAtLeast(b.lower * b.lower, SCALE, 1);
  }

  lemma NonNegQuotient(a: real, b: real)
    requires a >= 0.0 && b > 0.0
    ensures a / b >= 0.0
  {}

  /** One raw unit of price, at the lowest price a landing can leave. */
  function LandingCost(b: Bucket): (r: real)
    requires AboveRounding(b.bounds)
    ensures r >= 0.0
  {
    var K, m := b.state.liquidity * SCALE, b.bounds.lower - Undershoot(b.bounds);
    NonNegQuotient(K as real, (m * m) as real);
    K as real / (m * m) as real
  }

  /** The floored divisor of an upward step, at the bucket's lower bound. */
  function DivisorCost(b: Bucket): (r: real)
    requires AboveRounding(b.bounds)
    ensures r >= 0.0
  {
    BoundsAbove(b.bounds);
    var K, low := b.state.liquidity * SCALE, b.bounds.lower * (b.bounds.lower * b.bounds.lower / SCALE);
    NonNegQuotient(K as real, low as real);
    K as real / low as real
  }

  /** What one visit to a bucket may cost, one unit of rounding included. */
  function WorthAllowance(b: Bucket): (r: real)
    requires AboveRounding(b.bounds)
    ensures r >= 1.0
  {
    1.0 + LandingCost(b) + DivisorCost(b)
  }

  /** What one visit to a bucket may leave in it beyond the worth of its price move. */
  function WorthExcess(b: Bucket): (r: real)
    requires AboveRounding(b.bounds)
    ensures r >= 1.0
  {
    1.0 + DivisorCost(b) + Undershoot(b.bounds) as real
  }

  lemma UpStepWorth(id: nat, b: Bucket, s: nat, remaining: nat)
    requires b.state.liquidity > 0 && b.bounds.lower <= s <= b.bounds.upper && remaining > 0
    requires AboveRounding(b.bounds) && SwapStep(true, id, b, s, remaining).Ok?
    ensures
      var st, L := SwapStep(true, id, b, s, remaining).value, b.state.liquidity;
      && st.amountOut as real <= Held(L, s) - Held(L, st.sqrtTo) + DivisorCost(b)
      && st.amountOut as real >= Held(L, s) - Held(L, st.sqrtTo) - 1.0
  {
    var st, L, l := SwapStep(true, id, b, s, remaining).value, b.state.liquidity, b.bounds.lower;
    var t := st.sqrtTo;
    var D, D0 := s * t / SCALE, l * l / SCALE;
    BoundsAbove(b.bounds);
    MulMono(l, s, l);
    MulMono(l, t, s);
    FloorMono(l * l, s * t, SCALE);
    MulMono(D0, D, l);
    MulMono(l, s, D);
    FloorBounds(s * t, SCALE);
    FloorBounds(L * (t - s), D);
    UpCross(L, SCALE, s, t, D, st.amountOut);
    WithinGap(L * SCALE, s, t, D, l * D0, st.amountOut);
    DownFullCross(L, SCALE, t, s, D, st.amountOut);
    CoversGap(L * SCALE, t, s, st.amountOut + 1);
  }

  lemma UpCross(L: nat, S: nat, s: nat, t: nat, D: nat, out: nat)
    requires s <= t && out * D <= L * (t - s) && s * t <= D * S + S
    ensures (out * D) * (s * t) <= ((L * S) * (t - s)) * (D + 1)
  {
    MulMono(out * D, L * (t - s), s * t);
    MulMono(s * t, (D + 1) * S, L * (t - s));
    assert ((D + 1) * S) * (L * (t - s)) == ((L * S) * (t - s)) * (D + 1);
  }

  lemma DownStepWorth(id: nat, b: Bucket, s: nat, remaining: nat)
    requires b.state.liquidity > 0 && b.bounds.lower <= s <= b.bounds.upper && remaining > 0
    requires AboveRounding(b.bounds) && SwapStep(false, id, b, s, remaining).Ok?
    ensures
      var st, L := SwapStep(false, id, b, s, remaining).value, b.state.liquidity;
      st.amountIn as real >= Held(L, st.sqrtTo) - Held(L, s) - 1.0 - LandingCost(b)
  {
    var st, L, l := SwapStep(false, id, b, s, remaining).value, b.state.liquidity, b.bounds.lower;
    var K, t, m := L * SCALE, st.sqrtTo, b.bounds.lower - Undershoot(b.bounds);
    DownStepInBucket(id, b, s, remaining);
    CeilMono(SCALE, l, s);
    var D := s * l / SCALE;
    FloorBounds(s * l, SCALE);
    FloorBounds(L * (s - l), D);
    if st.full {
      DownFullCross(L, SCALE, s, l, D, st.amountIn);
      CoversGap(K, s, l, st.amountIn + 1);
    } else {
      var x := st.amountIn * s / SCALE;
      FloorBounds(st.amountIn * s, SCALE);
      FloorNonNeg(st.amountIn * s, SCALE);
      FloorBounds(s * L, L + x);
      DownLandCross(L, SCALE, s, t, st.amountIn, x);
      CoversGap(K, s, t + 1, st.amountIn);
      UnitGap(K, t, m);
    }
  }

  lemma DownFullCross(L: nat, S: nat, s: nat, l: nat, D: nat, most: nat)
    requires l <= s && L * (s - l) <= most * D + D && D * S <= s * l
    ensures (L * S) * (s - l) <= (most + 1) * (s * l)
  {
    MulMono(L * (s - l), (most + 1) * D, S);
    MulMono(D * S, s * l, most + 1);
    assert (L * (s - l)) * S == (L * S) * (s - l);
    assert ((most + 1) * D) * S == (D * S) * (most + 1);
  }

  lemma DownFullCosts(L: nat, s: nat, l: nat, D: nat, D0: nat, most: nat)
    requires 0 < l <= s && D == s * l / SCALE && D0 == l * l / SCALE && D0 > 0
    requires most == L * (s - l) / D
    ensures most as real <= Held(L, l) - Held(L, s) + (L * SCALE) as real / (l * D0) as real
  {
    FullDivisor(s, l, D, D0);
    FloorBounds(s * l, SCALE);
    FloorBounds(L * (s - l), D);
    UpCross(L, SCALE, l, s, D, most);
    WithinGap(L * SCALE, l, s, D, l * D0, most);
  }

  lemma FullDivisor(s: nat, l: nat, D: nat, D0: nat)
    requires 0 < l <= s && D == s * l / SCALE && D0 == l * l / SCALE && D0 > 0
    ensures 0 < D0 <= D && 0 < l * D0 <= D * l
  {
    MulMono(l, s, l);
    FloorMono(l * l, s * l, SCALE);
    MulMono(D0, D, l);
    MulMono(1, D0, l);
  }

  lemma DownLandCosts(L: nat, s: nat, t: nat, d: nat, u: nat)
    requires L > 0 && s > 0 && t > 0 && d * s / SCALE >= 0 && t == s * L / (L + d * s / SCALE) && SCALE <= u * s
    ensures d as real <= Held(L, t) - Held(L, s) + u as real
  {
    var x := d * s / SCALE;
    FloorBounds(d * s, SCALE);
    FloorBounds(s * L, L + x);
    LandScaled(L, SCALE, s, t, x);
    LandCost(L * SCALE, SCALE, s, t, d, x * SCALE, u);
    BelowGap(L * SCALE, s, t, d - u);
  }

  lemma LandScaled(L: nat, S: nat, s: nat, t: nat, x: nat)
    requires t * (L + x) <= s * L
    ensures t * (L * S) + (x * S) * t <= s * (L * S)
  {
    MulMono(t * (L + x), s * L, S);
    assert (t * (L + x)) * S == t * (L * S) + (x * S) * t;
  }

  lemma LandCost(K: nat, S: nat, s: nat, t: nat, d: nat, X: nat, u: nat)
    requires t * K + X * t <= s * K && d * s <= X + S && S <= u * s
    ensures (d - u) * (s * t) <= K * (s - t)
  {
    MulMono((d - u) * s, X, t);
    assert ((d - u) * s) * t == (d - u) * (s * t);
    assert K * (s - t) == s * K - t * K;
  }

  lemma FullCost(b: Bucket, s: nat, most: nat)
    requires AboveRounding(b.bounds) && b.bounds.lower <= s && s * b.bounds.lower / SCALE > 0
    requires most == b.state.liquidity * (s - b.bounds.lower) / (s * b.bounds.lower / SCALE)
    ensures most as real <= Held(b.state.liquidity, b.bounds.lower) - Held(b.state.liquidity, s) + DivisorCost(b)
  {
    hide Held;
    var l := b.bounds.lower;
    BoundsAbove(b.bounds);
    DownFullCosts(b.state.liquidity, s, l, s * l / SCALE, l * l / SCALE, most);
  }

  lemma LowerUnits(b: Bounds, s: nat)
    requires AboveRounding(b) && b.lower <= s
    ensures s > 0 && SCALE <= Undershoot(b) * s
  {
    CeilBounds(SCALE, b.lower);
    MulMono(b.lower, s, Undershoot(b));
  }

  lemma LandingAbove(id: nat, b: Bucket, s: nat, remaining: nat)
    requires b.state.liquidity > 0 && b.bounds.lower <= s <= b.bounds.upper && remaining > 0
    requires AboveRounding(b.bounds) && SwapStep(false, id, b, s, remaining).Ok?
    ensures SwapStep(false, id, b, s, remaining).value.sqrtTo > 0
  {
    hide SwapStep;
    DownStepInBucket(id, b, s, remaining);
    CeilMono(SCALE, b.bounds.lower, s);
  }

  /** A downward step takes in no more than its price move is worth, and the stated rounding. */
  lemma DownStepCosts(id: nat, b: Bucket, s: nat, remaining: nat)
    requires b.state.liquidity > 0 && b.bounds.lower <= s <= b.bounds.upper && remaining > 0
    requires AboveRounding(b.bounds) && SwapStep(false, id, b, s, remaining).Ok?
    ensures
      var st, L := SwapStep(false, id, b, s, remaining).value, b.state.liquidity;
      st.amountIn as real
      <= Held(L, st.sqrtTo) - Held(L, s) + DivisorCost(b) + Undershoot(b.bounds) as real
  {
    hide Held, SwapStep, AboveRounding, Undershoot, DivisorCost;
    var st := SwapStep(false, id, b, s, remaining).value;
    DownStepShape(id, b, s, remaining);
    if st.full {
      FullCost(b, s, st.amountIn);
    } else {
      LowerUnits(b.bounds, s);
      LandingAbove(id, b, s, remaining);
      DownLandCosts(b.state.liquidity, s, st.sqrtTo, st.amountIn, Undershoot(b.bounds));
    }
  }

  lemma DownLandCross(L: nat, S: nat, s: nat, t: nat, d: nat, x: nat)
    requires s * L <= t * (L + x) + (L + x) && x * S <= d * s
    ensures (L * S) * (s - (t + 1)) <= d * (s * (t + 1))
  {
    assert (t + 1) * (L + x) == t * (L + x) + (L + x);
    MulMono(s * L, (t + 1) * (L + x), S);
    MulMono(x * S, d * s, t + 1);
    assert ((t + 1) * (L + x)) * S == (t + 1) * (L * S) + (x * S) * (t + 1);
    assert (L * S) * (s - (t + 1)) == (s * L) * S - (t + 1) * (L * S);
  }

  // ------------------------------------------------------------------ one walk

  /** Net token A a step adds to bucket k. */
  function AIn(up: bool, k: nat, st: Step): int {
    if st.id != k then 0 else if up then 0 - st.amountOut else st.amountIn
  }

  function ANet(up: bool, k: nat, steps: seq<Step>): int {
    SumOver(steps, st => AIn(up, k, st))
  }

  /** What the price move of a step inside bucket k is worth to its liquidity. */
  function HeldMove(k: nat, st: Step): real {
    if st.id == k then Held(st.liquidity, st.sqrtTo) - Held(st.liquidity, st.sqrtFrom) else 0.0
  }

  function HeldMoved(k: nat, steps: seq<Step>): real {
    if |steps| == 0 then 0.0 else HeldMove(k, steps[0]) + HeldMoved(k, steps[1..])
  }

  lemma StepWorth(bs: seq<Bucket>, up: bool, id: nat, s: nat, remaining: nat, k: nat)
    requires k < |bs| && AboveRounding(bs[k].bounds) && AtFunded(bs, id, s) && remaining > 0
    requires SwapStep(up, id, bs[id], s, remaining).Ok?
    ensures
      var st := SwapStep(up, id, bs[id], s, remaining).value;
      && AIn(up, k, st) as real >= HeldMove(k, st) - Visit(k, st) as real * WorthAllowance(bs[k])
      && AIn(up, k, st) as real <= HeldMove(k, st) + Visit(k, st) as real * WorthExcess(bs[k])
  {
    hide SwapStep, Held, AboveRounding, LandingCost, DivisorCost, Undershoot;
    if id == k {
      if up {
        UpStepWorth(id, bs[id], s, remaining);
      } else {
        DownStepWorth(id, bs[id], s, remaining);
        DownStepCosts(id, bs[id], s, remaining);
      }
    }
  }

  lemma VisitCons(up: bool, k: nat, st: Step, rest: seq<Step>)
    ensures HeldMoved(k, [st] + rest) == HeldMove(k, st) + HeldMoved(k, rest)
    ensures ANet(up, k, [st] + rest) == AIn(up, k, st) + ANet(up, k, rest)
    ensures Visited(k, [st] + rest) == Visit(k, st) + Visited(k, rest)
  {
    ConsAll(st, rest, st => AIn(up, k, st), st => AIn(up, k, st));
    ConsAll(st, rest, st => Visit(k, st), st => Visit(k, st));
    assert ([st] + rest)[1..] == rest;
  }

  lemma NoVisits(up: bool, k: nat)
    ensures ANet(up, k, []) == 0 && Visited(k, []) == 0 && HeldMoved(k, []) == 0.0
  {}

  /**
   A whole walk: token A in a bucket moves as much as the price moves made inside it are
   worth to its liquidity, less at most one allowance and plus at most one excess per visit.
   */
  lemma {:induction false} WalkWorth(bs: seq<Bucket>, up: bool, id: int, s: nat, remaining: nat, k: nat)
    requires k < |bs| && AboveRounding(bs[k].bounds) && Walk(bs, up, id, s, remaining).Ok?
    ensures
      var steps := Walk(bs, up, id, s, remaining).value.steps;
      && ANet(up, k, steps) as real >= HeldMoved(k, steps) - Visited(k, steps) as real * WorthAllowance(bs[k])
      && ANet(up, k, steps) as real <= HeldMoved(k, steps) + Visited(k, steps) as real * WorthExcess(bs[k])
    decreases if up then |bs| - id else id + 1
  {
    hide SwapStep, ANet, HeldMoved, Visited, HeldMove, Visit, AIn, WorthAllowance, WorthExcess, AboveRounding;
    if remaining == 0 {
      NoVisits(up, k);
    } else {
      var b := bs[id];
      if b.state.liquidity == 0 {
        WalkWorth(bs, up, Next(up, id), FarBound(up, b.bounds), remaining, k);
      } else {
        var st := SwapStep(up, id, b, s, remaining).value;
        var rest := Walk(bs, up, Next(up, id), st.sqrtTo, remaining - st.amountIn).value;
        StepWorth(bs, up, id, s, remaining, k);
        WalkWorth(bs, up, Next(up, id), st.sqrtTo, remaining - st.amountIn, k);
        VisitCons(up, k, st, rest.steps);
      }
    }
  }

  // ------------------------------------------------------------ one epoch, runs

  lemma DeltasMatchStepsA(up: bool, steps: seq<Step>, fees: seq<int>, k: nat)
    requires |fees| == |steps|
    ensures SumOver(SwapDeltas(up, steps, fees), d => OnlyA(k, d)) == ANet(up, k, steps)
  {
    hide SwapDeltas;
    DeltaSum(up, steps, fees, d => OnlyA(k, d), st => AIn(up, k, st));
  }

  /** What the price moves an epoch makes inside bucket k are worth to its liquidity. */
  function EpochHeld(pool: Pool, orders: seq<Order>, k: nat): real {
    HeldMoved(k, EpochSteps(pool, orders))
  }

  lemma SwapWorth(pool: Pool, up: bool, input: nat, k: nat)
    requires k < |pool.buckets| && AboveRounding(pool.buckets[k].bounds) && DirectedTrace(pool, up, input).Ok?
    ensures RouteSwap(pool, up, input).Ok?
    ensures
      var t, steps := DirectedTrace(pool, up, input).value, RouteSwap(pool, up, input).value.steps;
      var net := SumOver(t.deltas, d => OnlyA(k, d)) as real;
      && net >= HeldMoved(k, steps) - WorthAllowance(pool.buckets[k])
      && net <= HeldMoved(k, steps) + WorthExcess(pool.buckets[k])
  {
    hide Walk, ANet, SwapDeltas, Split, HeldMoved, Visited, StartBucket, WorthAllowance, WorthExcess,
         AboveRounding;
    if input == 0 {
      EmptySwapBacked(pool, up, k);
      NoVisits(up, k);
      NoDeltasA(k);
    } else {
      RouteNeedsInput(pool, up, input);
      var steps := RouteSwap(pool, up, input).value.steps;
      WalkWorth(pool.buckets, up, StartBucket(pool), pool.currentSqrtPrice, AfterFee(input), k);
      WalkIsDirected(pool.buckets, up, StartBucket(pool), pool.currentSqrtPrice, AfterFee(input));
      VisitedOnce(up, StartBucket(pool), steps, k, WorthAllowance(pool.buckets[k]));
      VisitedOnce(up, StartBucket(pool), steps, k, WorthExcess(pool.buckets[k]));
      DeltasMatchStepsA(up, steps, Split(input - AfterFee(input), Inputs(steps), AfterFee(input)), k);
    }
  }

  lemma NoDeltasA(k: nat)
    ensures SumOver([], d => OnlyA(k, d)) == 0
  {}

  lemma VisitedOnce(up: bool, from: int, steps: seq<Step>, k: nat, allowance: real)
    requires Directed(up, from, steps) && allowance >= 0.0
    ensures Visited(k, steps) as real * allowance <= allowance
  {
    hide Directed;
    TouchedOnce(up, from, steps, k, st => Visit(k, st));
  }

  /** One epoch: token A moves as the price moves inside the bucket are worth, between one allowance and one excess. */
  lemma EpochWorth(pool: Pool, orders: seq<Order>, k: nat)
    requires k < |pool.buckets| && AboveRounding(pool.buckets[k].bounds)
    ensures |Epoch(pool, orders).buckets| == |pool.buckets|
    ensures
      var b, b' := pool.buckets[k], Epoch(pool, orders).buckets[k];
      && (b'.state.reserveA - b.state.reserveA) as real >= EpochHeld(pool, orders, k) - WorthAllowance(b)
      && (b'.state.reserveA - b.state.reserveA) as real <= EpochHeld(pool, orders, k) + WorthExcess(b)
  {
    hide Epoch, EpochFlow, StatesAfter, AllBelow, Ascending, ApplyStates, RouteSwap, DirectedTrace, HeldMoved,
         WorthAllowance, WorthExcess, AboveRounding;
    EpochIsSwap(pool, orders);
    var (up, input) := EpochFlow(pool, orders);
    SwapWorth(pool, up, input, k);
    ApplyReserves(pool.buckets, DirectedTrace(pool, up, input).value.deltas, k);
  }

  function RunHeld(pool: Pool, epochs: seq<seq<Order>>, k: nat): real {
    if |epochs| == 0 then 0.0
    else
      var init := epochs[..|epochs| - 1];
      RunHeld(pool, init, k) + EpochHeld(Run(pool, init), epochs[|epochs| - 1], k)
  }

  /**
   Over any run, on any grid, every bucket's token A moves as the price moves made inside
   it are worth to its liquidity: at most one allowance less, and one excess more, per epoch.
   */
  lemma {:induction false} RunWorth(pool: Pool, epochs: seq<seq<Order>>, k: nat)
    requires k < |pool.buckets| && AboveRounding(pool.buckets[k].bounds)
    ensures |Run(pool, epochs).buckets| == |pool.buckets|
    ensures
      var b, b' := pool.buckets[k], Run(pool, epochs).buckets[k];
      var moved := (b'.state.reserveA - b.state.reserveA) as real;
      && moved >= RunHeld(pool, epochs, k) - |epochs| as real * WorthAllowance(b)
      && moved <= RunHeld(pool, epochs, k) + |epochs| as real * WorthExcess(b)
  {
    hide Epoch, EpochHeld, WorthAllowance, WorthExcess, AboveRounding;
    RunKeepsAggregates(pool, epochs);
    if |epochs| > 0 {
      var init, last := epochs[..|epochs| - 1], epochs[|epochs| - 1];
      RunWorth(pool, init, k);
      RunKeepsAggregates(pool, init);
      EpochWorth(Run(pool, init), last, k);
      SameWorthAllowance(pool.buckets[k], Run(pool, init).buckets[k]);
      assert |epochs| as real * WorthAllowance(pool.buckets[k])
          == |init| as real * WorthAllowance(pool.buckets[k]) + WorthAllowance(pool.buckets[k]);
      assert |epochs| as real * WorthExcess(pool.buckets[k])
          == |init| as real * WorthExcess(pool.buckets[k]) + WorthExcess(pool.buckets[k]);
    }
  }

  lemma SameWorthAllowance(b: Bucket, b': Bucket)
    requires b.bounds == b'.bounds && b.state.liquidity == b'.state.liquidity && AboveRounding(b.bounds)
    ensures WorthAllowance(b) == WorthAllowance(b') && WorthExcess(b) == WorthExcess(b')
  {}
}
