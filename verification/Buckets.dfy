/** One-bucket swap arithmetic and the two bounds its rounding obeys. */
module Buckets {
  import opened Arithmetic
  import opened FixedPoint

  /** Price after token B enters: the price moves up. */
  function NextSqrtPUp(L: nat, sqrtP: nat, deltaB: nat): (r: nat)
    requires L > 0
    ensures r >= sqrtP
  {
    FloorNonNeg(deltaB * SCALE, L);
    sqrtP + deltaB * SCALE / L
  }

  /** Price after token A enters: the price moves down, floored twice. */
  function NextSqrtPDown(L: nat, sqrtP: nat, deltaA: nat): (r: nat)
    requires L > 0
    ensures r <= sqrtP
  {
    var denom := L + deltaA * sqrtP / SCALE;
    assert sqrtP * L / denom <= sqrtP by {
      FloorNonNeg(deltaA * sqrtP, SCALE);
      FloorBounds(sqrtP * L, denom);
      MulMono(L, denom, sqrtP);
      MulCancel(sqrtP * L / denom, sqrtP, denom);
    }
    FloorNonNeg(sqrtP * L, denom);
    sqrtP * L / denom
  }

  /** Token A paid out while the price moved up from sqrtP to sqrtPNew. */
  function SwapStepOutA(L: nat, sqrtP: nat, sqrtPNew: nat): (r: Result<nat>)
    requires sqrtP <= sqrtPNew
  {
    MulDiv(L, sqrtPNew - sqrtP, sqrtP * sqrtPNew / SCALE)
  }

  /** Token B paid out while the price moved down from sqrtP to sqrtPNew. */
  function SwapStepOutB(L: nat, sqrtP: nat, sqrtPNew: nat): (r: nat)
    requires sqrtPNew <= sqrtP
  {
    L * (sqrtP - sqrtPNew) / SCALE
  }

  // ---------------------------------------------------------------- bounds

  /**
   A price floor that survives a down step: if k <= lower and k * sqrtP fits
   under the floored divisor, a step input that fits the bucket stays above k.
   */
  lemma DownStepStaysAbove(L: nat, s: nat, lower: nat, d: nat, k: nat)
    requires L > 0 && k <= lower <= s && s * lower / SCALE > 0
    requires d <= L * (s - lower) / (s * lower / SCALE)
    requires k * s <= (s * lower / SCALE) * SCALE
    ensures NextSqrtPDown(L, s, d) >= k
  {
    var D := s * lower / SCALE;
    var x := d * s / SCALE;
    FloorNonNeg(d * s, SCALE);
    FloorAtLeast(L * (s - lower), D, d);
    FloorBounds(d * s, SCALE);
    ScaledStep(SCALE, L * (s - lower), d, s, D, x, k);
    DownStepCore(L, s, lower, x, k);
    FloorAtLeast(s * L, L + x, k);
  }

  lemma ScaledStep(S: nat, room: nat, d: nat, s: nat, D: nat, x: nat, k: nat)
    requires S > 0 && d * D <= room && x * S <= d * s && k * s <= D * S
    ensures k * x <= room
  {
    calc {
      (k * x) * S;
      (x * S) * k;
    <= { MulMono(x * S, d * s, k); }
      (d * s) * k;
      (k * s) * d;
    <= { MulMono(k * s, D * S, d); }
      (D * S) * d;
      (d * D) * S;
    <= { MulMono(d * D, room, S); }
      room * S;
    }
    MulCancel(k * x, room, S);
  }

  lemma DownStepCore(L: nat, s: nat, lower: nat, x: nat, k: nat)
    requires k <= lower <= s && k * x <= L * (s - lower)
    ensures k * (L + x) <= s * L
  {
    MulMono(k, lower, L);
    assert L * (s - lower) == s * L - lower * L;
    assert k * (L + x) == k * L + k * x;
  }

  /**
   A down step whose input fits in the bucket never undershoots the bucket's
   lower bound by more than ceil(SCALE / sqrtP), and not at all when the
   floored divisor is exact.
   */
  lemma DownStepBound(L: nat, sqrtP: nat, lower: nat, deltaA: nat)
    requires L > 0 && lower <= sqrtP && sqrtP * lower / SCALE > 0
    requires deltaA <= L * (sqrtP - lower) / (sqrtP * lower / SCALE)
    ensures NextSqrtPDown(L, sqrtP, deltaA) <= sqrtP
    ensures sqrtP > 0 && NextSqrtPDown(L, sqrtP, deltaA) + CeilDiv(SCALE, sqrtP) >= lower
    ensures sqrtP * lower % SCALE == 0 ==> NextSqrtPDown(L, sqrtP, deltaA) >= lower
  {
    var c := CeilDiv(SCALE, sqrtP);
    CeilBounds(SCALE, sqrtP);
    FloorBounds(sqrtP * lower, SCALE);
    if sqrtP * lower % SCALE == 0 {
      DownStepStaysAbove(L, sqrtP, lower, deltaA, lower);
    }
    if lower > c {
      UndershootFits(SCALE, sqrtP, lower, c);
      DownStepStaysAbove(L, sqrtP, lower, deltaA, lower - c);
    }
  }

  lemma UndershootFits(S: nat, s: nat, lower: nat, c: nat)
    requires S > 0 && c <= lower && c * s >= S
    ensures (lower - c) * s <= (s * lower / S) * S
  {
    FloorBounds(s * lower, S);
    assert (lower - c) * s == s * lower - c * s;
  }

  /**
   A fee-free round trip: token B in, the token A received fed straight back.
   Whenever the first leg pays out at all, at most the input plus the stated
   rounding allowance comes back.
   */
  lemma RoundTripBound(L: nat, sqrtP: nat, deltaB: nat)
    requires L > 0
    ensures
      var up := NextSqrtPUp(L, sqrtP, deltaB);
      var outA := SwapStepOutA(L, sqrtP, up);
      outA.Ok? ==> (
        && up > 0
        && var down := NextSqrtPDown(L, up, outA.value);
           SwapStepOutB(L, up, down) <= deltaB + L * CeilDiv(SCALE, up) / SCALE)
  {
    var up := NextSqrtPUp(L, sqrtP, deltaB);
    if SwapStepOutA(L, sqrtP, up).Ok? {
      var outA := SwapStepOutA(L, sqrtP, up).value;
      FloorNonNeg(sqrtP * up, SCALE);
      assert up * sqrtP == sqrtP * up;
      DownStepBound(L, up, sqrtP, outA);
      var down := NextSqrtPDown(L, up, outA);
      FloorBounds(deltaB * SCALE, L);
      ReturnBound(SCALE, L, up - sqrtP, up - down, CeilDiv(SCALE, up), deltaB);
    }
  }

  lemma ReturnBound(S: nat, L: nat, rise: nat, fall: nat, c: nat, deltaB: nat)
    requires S > 0 && rise * L <= deltaB * S && fall <= rise + c
    ensures L * fall / S <= deltaB + L * c / S
  {
    MulMono(fall, rise + c, L);
    assert L * fall <= deltaB * S + L * c;
    FloorBounds(L * c, S);
    FloorBounds(L * fall, S);
    assert (deltaB + L * c / S + 1) * S == deltaB * S + (L * c / S) * S + S;
    FloorAtLeast(L * fall, S, deltaB + L * c / S + 1);
  }
}
