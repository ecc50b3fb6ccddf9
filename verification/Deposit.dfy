/**
 Liquidity deposits: what a pair of amounts buys in one bucket, and the guard that
 keeps a bucket's liquidity below 2^64.
 */
module Deposit {
  import opened Arithmetic
  import opened FixedPoint
  import opened Swap
  import Grid

  datatype Regime = Below | InRange | Above

  datatype DepositMath = DepositMath(lUsed: nat, usedA: nat, usedB: nat)

  function RegimeOf(sqrtP: nat, b: Bounds): Regime {
    if sqrtP <= b.lower then Below else if sqrtP >= b.upper then Above else InRange
  }

  function DepositBelow(xA: nat, b: Bounds): Result<DepositMath>
    requires b.lower <= b.upper
  {
    var lUsed :- MulDiv(xA, b.lower * b.upper / SCALE, b.upper - b.lower);
    Ok(DepositMath(lUsed, xA, 0))
  }

  function DepositAbove(xB: nat, b: Bounds): Result<DepositMath>
    requires b.lower <= b.upper
  {
    var lUsed :- MulDiv(xB, SCALE, b.upper - b.lower);
    Ok(DepositMath(lUsed, 0, xB))
  }

  function DepositInRange(xA: nat, xB: nat, sqrtP: nat, b: Bounds): Result<DepositMath>
    requires b.lower < sqrtP < b.upper
  {
    var m := sqrtP * b.upper / SCALE;
    var lA :- MulDiv(xA, m, b.upper - sqrtP);
    var lB :- MulDiv(xB, SCALE, sqrtP - b.lower);
    var lUsed := if lA < lB then lA else lB;
    var usedA :- MulDiv(lUsed, b.upper - sqrtP, m);
    Ok(DepositMath(lUsed, usedA, lUsed * (sqrtP - b.lower) / SCALE))
  }

  function ComputeDeposit(xA: nat, xB: nat, sqrtP: nat, b: Bounds): Result<DepositMath>
    requires b.lower <= b.upper
  {
    match RegimeOf(sqrtP, b)
    case Below => DepositBelow(xA, b)
    case Above => DepositAbove(xB, b)
    case InRange => DepositInRange(xA, xB, sqrtP, b)
  }

  // ------------------------------------------------------ what a deposit buys

  /** The price at which the bucket holds token A, and the one at which it holds token B. */
  function PriceForA(sqrtP: nat, b: Bounds): nat {
    if sqrtP <= b.lower then b.lower else sqrtP
  }

  function PriceForB(sqrtP: nat, b: Bounds): nat {
    if sqrtP >= b.upper then b.upper else sqrtP
  }

  /** L units of liquidity cost no more than the offered amounts, before any rounding. */
  predicate Affordable(L: nat, xA: nat, xB: nat, sqrtP: nat, b: Bounds) {
    var forA, forB := PriceForA(sqrtP, b), PriceForB(sqrtP, b);
    && (forA < b.upper ==> L * (b.upper - forA) <= xA * (forA * b.upper / SCALE))
    && (b.lower < forB ==> L * (forB - b.lower) <= xB * SCALE)
  }

  /** A deposit buys exactly the affordable liquidity, in every regime. */
  lemma DepositIsMaximal(xA: nat, xB: nat, sqrtP: nat, b: Bounds, L: nat)
    requires b.lower <= b.upper && ComputeDeposit(xA, xB, sqrtP, b).Ok?
    ensures L <= ComputeDeposit(xA, xB, sqrtP, b).value.lUsed <==> Affordable(L, xA, xB, sqrtP, b)
  {
    match RegimeOf(sqrtP, b)
    case Below => FloorAtLeast(xA * (b.lower * b.upper / SCALE), b.upper - b.lower, L);
    case Above => FloorAtLeast(xB * SCALE, b.upper - b.lower, L);
    case InRange =>
      FloorAtLeast(xA * (sqrtP * b.upper / SCALE), b.upper - sqrtP, L);
      FloorAtLeast(xB * SCALE, sqrtP - b.lower, L);
  }

  lemma FloorFits(L: nat, span: nat, x: nat, m: nat)
    requires m > 0 && L * span <= x * m
    ensures L * span / m <= x
  {
    FloorBounds(L * span, m);
    MulCancel(L * span / m, x, m);
  }

  /** A deposit never takes more than was offered, and only the token its regime needs. */
  lemma DepositIsCovered(xA: nat, xB: nat, sqrtP: nat, b: Bounds)
    requires b.lower <= b.upper && ComputeDeposit(xA, xB, sqrtP, b).Ok?
    ensures
      var d := ComputeDeposit(xA, xB, sqrtP, b).value;
      && d.usedA <= xA && d.usedB <= xB
      && (RegimeOf(sqrtP, b).Below? ==> d.usedB == 0)
      && (RegimeOf(sqrtP, b).Above? ==> d.usedA == 0)
  {
    if RegimeOf(sqrtP, b).InRange? {
      var d := ComputeDeposit(xA, xB, sqrtP, b).value;
      DepositIsMaximal(xA, xB, sqrtP, b, d.lUsed);
      FloorFits(d.lUsed, b.upper - sqrtP, xA, sqrtP * b.upper / SCALE);
      FloorFits(d.lUsed, sqrtP - b.lower, xB, SCALE);
    }
  }

  /** What a deposit takes pays for what it buys, short by less than a unit of each token it needs. */
  lemma DepositPays(xA: nat, xB: nat, sqrtP: nat, b: Bounds)
    requires b.lower <= b.upper && ComputeDeposit(xA, xB, sqrtP, b).Ok?
    ensures
      var d := ComputeDeposit(xA, xB, sqrtP, b).value;
      var forA, forB := PriceForA(sqrtP, b), PriceForB(sqrtP, b);
      && (forA < b.upper ==> d.lUsed * (b.upper - forA) <= (d.usedA + 1) * (forA * b.upper / SCALE))
      && (b.lower < forB ==> d.lUsed * (forB - b.lower) <= (d.usedB + 1) * SCALE)
  {
    var d := ComputeDeposit(xA, xB, sqrtP, b).value;
    DepositIsMaximal(xA, xB, sqrtP, b, d.lUsed);
    if RegimeOf(sqrtP, b).InRange? {
      var m := sqrtP * b.upper / SCALE;
      FloorBounds(d.lUsed * (b.upper - sqrtP), m);
      FloorBounds(d.lUsed * (sqrtP - b.lower), SCALE);
      assert (d.usedA + 1) * m == d.usedA * m + m;
    } else {
      OneMore(xA, PriceForA(sqrtP, b) * b.upper / SCALE);
    }
  }

  lemma OneMore(x: nat, m: int)
    requires m >= 0
    ensures x * m <= (x + 1) * m
  {}

  // ---------------------------------------------------------- the 2^64 guard

  const TWO_64: nat := 18_446_744_073_709_551_616
  const GUARD_ROUNDS: nat := 64

  datatype GuardReport = GuardReport(amountA: nat, addedL: nat, resultingL: nat, reduced: bool)

  datatype Deal = Deal(amountB: nat, sqrtP: nat, bounds: Bounds, currentL: nat) {
    ghost predicate Valid() {
      bounds.lower <= bounds.upper
    }

    function Preview(a: nat): Result<DepositMath>
      requires bounds.lower <= bounds.upper
    {
      ComputeDeposit(a, amountB, sqrtP, bounds)
    }
  }

  function Budget(currentL: nat): nat {
    if TWO_64 > currentL then TWO_64 - currentL else 0
  }

  /** Scale the amount towards nine tenths of the budget, halving it when that floors to nothing. */
  function Shrink(a: nat, budget: nat, l: nat): (r: nat)
    requires l > 0
  {
    FloorNonNeg(a * (budget * 9 / 10), l);
    var next := a * (budget * 9 / 10) / l;
    if next > 0 then next else a / 2
  }

  function GuardFrom(d: Deal, rounds: nat, a: nat, reduced: bool): Result<GuardReport>
    requires d.Valid()
  {
    var m :- d.Preview(a);
    var resulting := d.currentL + m.lUsed;
    var budget := Budget(d.currentL);
    if rounds == 0 || resulting < TWO_64 || budget == 0 || m.lUsed == 0 then
      Ok(GuardReport(a, m.lUsed, resulting, reduced))
    else
      var smaller := Shrink(a, budget, m.lUsed);
      if smaller == 0 then Ok(GuardReport(0, 0, d.currentL, true))
      else GuardFrom(d, rounds - 1, smaller, true)
  }

  method ApplyL64Guard(d: Deal, amountA: nat) returns (r: Result<GuardReport>)
    requires d.Valid()
    ensures r == GuardFrom(d, GUARD_ROUNDS, amountA, false)
  {
    hide ComputeDeposit;
    var a, reduced := amountA, false;
    for i := 0 to GUARD_ROUNDS
      invariant GuardFrom(d, GUARD_ROUNDS, amountA, false) == GuardFrom(d, GUARD_ROUNDS - i, a, reduced)
    {
      var m := d.Preview(a);
      if m.Err? {
        return Err(m.error);
      }
      var resulting := d.currentL + m.value.lUsed;
      if resulting < TWO_64 {
        return Ok(GuardReport(a, m.value.lUsed, resulting, reduced));
      }
      var budget := Budget(d.currentL);
      if budget == 0 || m.value.lUsed == 0 {
        return Ok(GuardReport(a, m.value.lUsed, resulting, reduced));
      }
      a := Shrink(a, budget, m.value.lUsed);
      reduced := true;
      if a == 0 {
        return Ok(GuardReport(0, 0, d.currentL, true));
      }
    }
    var m := d.Preview(a);
    if m.Err? {
      return Err(m.error);
    }
    return Ok(GuardReport(a, m.value.lUsed, d.currentL + m.value.lUsed, reduced));
  }

  // -------------------------------------------------- what the guard promises

  /** The report describes the deposit of the amount it names. */
  ghost predicate Honest(d: Deal, rep: GuardReport)
    requires d.Valid()
  {
    && d.Preview(rep.amountA).Ok?
    && d.Preview(rep.amountA).value.lUsed == rep.addedL
    && rep.resultingL == d.currentL + rep.addedL
  }

  lemma ShrinkIsSmaller(a: nat, budget: nat, l: nat)
    requires l >= budget > 0
    ensures Shrink(a, budget, l) <= a
  {
    var target := budget * 9 / 10;
    FloorBounds(a * target, l);
    MulMono(target, l, a);
    MulCancel(a * target / l, a, l);
  }

  /**
   What the caller relies on: when the report says the bucket stays below 2^64 and
   leaves something to deposit, depositing that amount does stay below 2^64, and the
   amount was only ever reduced.
   */
  lemma {:induction false} PreflightIsSafe(d: Deal, rounds: nat, a: nat, reduced: bool)
    requires d.Valid() && GuardFrom(d, rounds, a, reduced).Ok?
    ensures
      var rep := GuardFrom(d, rounds, a, reduced).value;
      && rep.amountA <= a
      && (rep.amountA > 0 ==> Honest(d, rep))
      && (rep.amountA > 0 && rep.resultingL < TWO_64 ==>
            d.currentL + d.Preview(rep.amountA).value.lUsed < TWO_64)
  {
    hide ComputeDeposit, Shrink;
    var l := d.Preview(a).value.lUsed;
    var budget := Budget(d.currentL);
    if rounds > 0 && d.currentL + l >= TWO_64 && budget > 0 && l > 0 {
      ShrinkIsSmaller(a, budget, l);
      if Shrink(a, budget, l) > 0 {
        PreflightIsSafe(d, rounds - 1, Shrink(a, budget, l), true);
      }
    }
  }

  /** Repeated shrinking by the same ratio reaches nothing within the given rounds. */
  predicate ShrinksAway(rounds: nat, a: nat, budget: nat, l: nat)
    requires l > 0
  {
    rounds > 0 && (Shrink(a, budget, l) == 0 || ShrinksAway(rounds - 1, Shrink(a, budget, l), budget, l))
  }

  /**
   Above the bucket only token B counts, so shrinking token A frees nothing; if it
   shrinks away the guard reports a deposit that adds no liquidity.
   */
  predicate Misleads(d: Deal, rounds: nat, a: nat) {
    && RegimeOf(d.sqrtP, d.bounds).Above? && d.bounds.lower < d.bounds.upper
    && var l := d.amountB * SCALE / (d.bounds.upper - d.bounds.lower);
    && d.currentL < TWO_64 <= d.currentL + l
    && ShrinksAway(rounds, a, Budget(d.currentL), l)
  }

  lemma NothingBuysNothing(d: Deal)
    requires d.Valid() && d.Preview(0).Ok? && !RegimeOf(d.sqrtP, d.bounds).Above?
    ensures d.Preview(0).value.lUsed == 0
  {
    assert 0 * (PriceForA(d.sqrtP, d.bounds) * d.bounds.upper / SCALE) == 0;
  }

  lemma PreviewSucceeds(d: Deal, a: nat, a': nat)
    requires d.Valid() && d.Preview(a).Ok?
    ensures d.Preview(a').Ok?
    ensures RegimeOf(d.sqrtP, d.bounds).Above? ==>
      && d.bounds.lower < d.bounds.upper
      && d.Preview(a').value.lUsed == d.amountB * SCALE / (d.bounds.upper - d.bounds.lower)
  {}

  /**
   What a caller can read off the amount alone: up to one unit per round it shrinks
   away, and so it does below 2^rounds when the target is worth none of it; above
   2^rounds it does not, as long as the target is half the liquidity or more.
   */
  lemma {:induction false} WhenItShrinksAway(rounds: nat, a: nat, budget: nat, l: nat)
    requires rounds > 0 && budget * 9 / 10 < l
    ensures a <= rounds ==> ShrinksAway(rounds, a, budget, l)
    ensures a < Pow2(rounds) && a * (budget * 9 / 10) < l ==> ShrinksAway(rounds, a, budget, l)
    ensures a >= Pow2(rounds) && 2 * (budget * 9 / 10) >= l ==> !ShrinksAway(rounds, a, budget, l)
    decreases rounds
  {
    hide Shrink;
    ShrinkBounds(a, budget, l);
    var smaller := Shrink(a, budget, l);
    if rounds > 1 {
      WhenItShrinksAway(rounds - 1, smaller, budget, l);
      MulMono(smaller, a, budget * 9 / 10);
    } else {
      assert Pow2(1) == 2;
    }
  }

  lemma ShrinkBounds(a: nat, budget: nat, l: nat)
    requires budget * 9 / 10 < l
    ensures Shrink(a, budget, l) <= a && (a > 0 ==> Shrink(a, budget, l) < a)
    ensures a * (budget * 9 / 10) < l ==> Shrink(a, budget, l) == a / 2
    ensures 2 * (budget * 9 / 10) >= l ==> Shrink(a, budget, l) >= a / 2
  {
    var target := budget * 9 / 10;
    FloorBounds(a * target, l);
    FloorAtLeast(a * target, l, 1);
    if a > 0 {
      MulStrict(target, l, a);
      FloorAtLeast(a * target, l, a);
    }
    if 2 * target >= l {
      MulMono(l, 2 * target, a / 2);
      MulMono(2 * (a / 2), a, target);
      assert (2 * target) * (a / 2) == (2 * (a / 2)) * target;
      FloorAtLeast(a * target, l, a / 2);
    }
  }

  /** One unit of token A above a generated bucket: reported as adding nothing, while the deposit adds 2^64. */
  lemma GuardCanMislead()
    ensures
      var bounds := Bounds(Grid.LowerOf(SCALE, 2 * SCALE, 0), Grid.LowerOf(SCALE, 2 * SCALE, 1));
      var d := Deal(TWO_64, 2 * SCALE, bounds, 0);
      && bounds == Bounds(SCALE, 2 * SCALE)
      && GuardFrom(d, GUARD_ROUNDS, 1, false) == Ok(GuardReport(0, 0, 0, true))
      && d.Preview(0) == Ok(DepositMath(TWO_64, 0, TWO_64))
  {
    assert Grid.LowerOf(SCALE, 2 * SCALE, 0) == SCALE;
    assert Grid.LowerOf(SCALE, 2 * SCALE, 1) == SCALE * (2 * SCALE) / SCALE;
    var d := Deal(TWO_64, 2 * SCALE, Bounds(SCALE, 2 * SCALE), 0);
    assert TWO_64 * SCALE / SCALE == TWO_64;
    assert d.Preview(1) == Ok(DepositMath(TWO_64, 0, TWO_64));
    assert Shrink(1, TWO_64, TWO_64) == 0;
  }

  /** The guard's report is honest if and only if it does not mislead. */
  lemma {:induction false} ReportIsHonest(d: Deal, rounds: nat, a: nat, reduced: bool)
    requires d.Valid() && GuardFrom(d, rounds, a, reduced).Ok?
    ensures Honest(d, GuardFrom(d, rounds, a, reduced).value) <==> !Misleads(d, rounds, a)
  {
    hide ComputeDeposit, Shrink;
    var l := d.Preview(a).value.lUsed;
    var budget := Budget(d.currentL);
    PreviewSucceeds(d, a, a);
    if rounds > 0 && d.currentL + l >= TWO_64 && budget > 0 && l > 0 {
      var smaller := Shrink(a, budget, l);
      PreviewSucceeds(d, a, smaller);
      if smaller > 0 {
        ReportIsHonest(d, rounds - 1, smaller, true);
      } else if !RegimeOf(d.sqrtP, d.bounds).Above? {
        NothingBuysNothing(d);
      }
    }
  }

  lemma ScaledBound(n: nat, l: nat, xm: nat, span: nat, target: nat)
    requires n * l <= xm * target && xm < l * span + span && target < l && span > 0
    ensures n < (target + 1) * span
  {
    MulMono(xm, l * span + span, target);
    MulStrict(target, l, span);
    assert (l * span + span) * target == (target * span) * l + target * span;
    assert ((target + 1) * span) * l == (target * span) * l + l * span;
    if n >= (target + 1) * span {
      MulMono((target + 1) * span, n, l);
    }
  }

  /** Scaling the binding amount by target / l buys at most target. */
  lemma ScaledBuysLess(x: nat, m: nat, span: nat, l: nat, target: nat, next: nat)
    requires span > 0 && l == x * m / span && target < l && next == x * target / l
    ensures next * m / span <= target
  {
    FloorBounds(x * target, l);
    FloorBounds(x * m, span);
    MulMono(next * l, x * target, m);
    assert (next * m) * l == (next * l) * m;
    assert (x * target) * m == (x * m) * target;
    ScaledBound(next * m, l, x * m, span, target);
    FloorAtLeast(next * m, span, target + 1);
  }

  /** The liquidity that an amount of token A alone would buy. */
  function BoughtByA(d: Deal, a: nat): int
    requires PriceForA(d.sqrtP, d.bounds) < d.bounds.upper
  {
    var forA := PriceForA(d.sqrtP, d.bounds);
    a * (forA * d.bounds.upper / SCALE) / (d.bounds.upper - forA)
  }

  lemma BoughtByAIsEnough(d: Deal, a: nat)
    requires d.Valid() && d.Preview(a).Ok? && !RegimeOf(d.sqrtP, d.bounds).Above?
    ensures PriceForA(d.sqrtP, d.bounds) < d.bounds.upper
    ensures d.Preview(a).value.lUsed <= BoughtByA(d, a)
  {}

  /** Where token A decides, below the bucket or in it, one reduction that floors to something is enough. */
  lemma OneReductionSuffices(d: Deal, rounds: nat, a: nat)
    requires d.Valid() && d.Preview(a).Ok? && rounds > 0
    requires PriceForA(d.sqrtP, d.bounds) < d.bounds.upper && d.Preview(a).value.lUsed == BoughtByA(d, a)
    requires !RegimeOf(d.sqrtP, d.bounds).Above?
    requires d.currentL < TWO_64 <= d.currentL + d.Preview(a).value.lUsed
    requires a * (Budget(d.currentL) * 9 / 10) >= d.Preview(a).value.lUsed
    ensures GuardFrom(d, rounds, a, false).Ok?
    ensures
      var rep, l := GuardFrom(d, rounds, a, false).value, d.Preview(a).value.lUsed;
      && rep.resultingL < TWO_64 && rep.reduced && rep.amountA > 0
      && rep.amountA * l <= a * ((TWO_64 - d.currentL) * 9 / 10) < (rep.amountA + 1) * l
  {
    hide ComputeDeposit, Shrink;
    var l := d.Preview(a).value.lUsed;
    var target := Budget(d.currentL) * 9 / 10;
    var b, forA := d.bounds, PriceForA(d.sqrtP, d.bounds);
    var next := Shrink(a, Budget(d.currentL), l);
    ShrunkToTarget(a, Budget(d.currentL), l);
    FloorNonNeg(forA * b.upper, SCALE);
    ScaledBuysLess(a, forA * b.upper / SCALE, b.upper - forA, l, target, next);
    PreviewSucceeds(d, a, next);
    BoughtByAIsEnough(d, next);
  }

  lemma ShrunkToTarget(a: nat, budget: nat, l: nat)
    requires l > 0 && a * (budget * 9 / 10) >= l
    ensures
      var next := Shrink(a, budget, l);
      && next > 0 && next == a * (budget * 9 / 10) / l
      && next * l <= a * (budget * 9 / 10) < (next + 1) * l
  {
    var x := a * (budget * 9 / 10);
    FloorAtLeast(x, l, 1);
    FloorBounds(x, l);
    assert (x / l + 1) * l == (x / l) * l + l;
  }

  /** A deposit that fits is left as it is. */
  lemma FittingDepositStays(d: Deal, rounds: nat, a: nat)
    requires d.Valid() && d.Preview(a).Ok? && d.currentL + d.Preview(a).value.lUsed < 18_446_744_073_709_551_616
    ensures
      var l := d.Preview(a).value.lUsed;
      GuardFrom(d, rounds, a, false) == Ok(GuardReport(a, l, d.currentL + l, false))
  {
    hide ComputeDeposit;
  }
}
