/**
 Floor-division and multiplication facts that the fixed-point code rests on.
 Everything is stated over natural numbers, the only operands the clearing
 engine ever divides.
 */
module Arithmetic {

  /** The smallest q with q * b >= a. */
  function CeilDiv(a: nat, b: nat): (q: nat)
    requires b > 0
  {
    (a + b - 1) / b
  }

  function Pow2(k: nat): (r: nat)
    ensures r >= 1
  {
    if k == 0 then 1 else 2 * Pow2(k - 1)
  }

  lemma FloorBounds(a: int, b: nat)
    requires b > 0
    ensures (a / b) * b <= a < (a / b) * b + b
  {
    assert a == b * (a / b) + a % b;
  }

  /** q is at most the floor exactly when q * b fits below a. */
  lemma FloorAtLeast(a: int, b: nat, q: int)
    requires b > 0
    ensures q * b <= a <==> q <= a / b
  {
    FloorBounds(a, b);
    if q <= a / b {
      MulMono(q, a / b, b);
    } else {
      MulMono(a / b + 1, q, b);
      assert (a / b + 1) * b == (a / b) * b + b;
    }
  }

  lemma CeilBounds(a: nat, b: nat)
    requires b > 0
    ensures a <= CeilDiv(a, b) * b < a + b
  {
    FloorBounds(a + b - 1, b);
  }

  lemma MulMono(x: int, y: int, k: int)
    requires x <= y && k >= 0
    ensures x * k <= y * k
  {
    assert (y - x) * k >= 0;
    assert (y - x) * k == y * k - x * k;
  }

  lemma MulStrict(x: int, y: int, k: nat)
    requires x < y && k > 0
    ensures x * k < y * k
  {
    assert (y - x) * k > 0;
    assert (y - x) * k == y * k - x * k;
  }

  /** Cancel a positive factor. */
  lemma MulCancel(x: int, y: int, k: nat)
    requires k > 0 && x * k <= y * k
    ensures x <= y
  {
    if y < x {
      MulStrict(y, x, k);
    }
  }

  lemma FloorMono(a: int, a': int, b: nat)
    requires b > 0 && a <= a'
    ensures a / b <= a' / b
  {
    FloorBounds(a, b);
    FloorAtLeast(a', b, a / b);
  }

  lemma FloorNonNeg(a: nat, b: nat)
    requires b > 0
    ensures a / b >= 0
  {
    FloorAtLeast(a, b, 0);
  }
}
