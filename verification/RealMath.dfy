/**
 Real-number helpers shared by the estimators.

 The node computes in float64; the model uses exact reals. `math.Sqrt` is a foreign
 call, so every operation that takes a square root receives it as a parameter `sqrt`
 that satisfies `SqrtLaw`, the defining property of the square root.
 */
module RealMath {

  ghost predicate IsSqrt(root: real, x: real) {
    root >= 0.0 && Sq(root) == x
  }

  ghost predicate SqrtLaw(sqrt: real -> real) {
    forall x: real :: x >= 0.0 ==> IsSqrt(sqrt(x), x)
  }

  function Abs(x: real): real {
    if x < 0.0 then -x else x
  }

  function Min(x: real, y: real): real {
    if x < y then x else y
  }

  function Max(x: real, y: real): real {
    if x < y then y else x
  }

  function Clamp(x: real, lo: real, hi: real): real {
    if x < lo then lo else if x > hi then hi else x
  }

  /** math.Round: nearest integer, halves away from zero. */
  function Round(x: real): real {
    if x >= 0.0 then (x + 0.5).Floor as real else -((-x + 0.5).Floor as real)
  }

  /** x when the condition holds, and nothing otherwise. */
  function When(condition: bool, x: real): real {
    if condition then x else 0.0
  }

  /** A named product, for lemmas whose factors are compound terms. */
  function Times(x: real, y: real): real {
    x * y
  }

  /** A named square. */
  function Sq(x: real): real {
    x * x
  }

  lemma SqSign(x: real)
    ensures Sq(x) >= 0.0
    ensures Sq(x) == 0.0 <==> x == 0.0
  {
    SquareNonNegative(x);
    if x != 0.0 {
      calc {
        Sq(x);
        x * x;
      > { SquarePositive(x); }
        0.0;
      }
    }
  }

  lemma SquarePositive(x: real)
    requires x != 0.0
    ensures x * x > 0.0
  {
  }

  lemma SqOrder(x: real, y: real)
    requires x >= 0.0 && y >= 0.0
    ensures x <= y <==> Sq(x) <= Sq(y)
    ensures x < y <==> Sq(x) < Sq(y)
  {
    SquareOrder(x, y);
  }

  lemma SqProduct(x: real, y: real)
    ensures Sq(x * y) == Times(Sq(x), Sq(y))
  {
  }

  lemma TimesCommutes(x: real, y: real)
    ensures Times(x, y) == Times(y, x)
  {
  }

  lemma TimesAdds(x: real, y: real, z: real)
    ensures Times(x + y, z) == Times(x, z) + Times(y, z)
    ensures Times(z, x + y) == Times(z, x) + Times(z, y)
  {
  }

  lemma UnitFromScale(n: real, s: real)
    requires s > 0.0 && Times(n, s) == s
    ensures n == 1.0
  {
  }

  lemma TimesSign(x: real, y: real)
    requires x >= 0.0 && y >= 0.0
    ensures Times(x, y) >= 0.0
  {
  }

  lemma TimesMonotone(x: real, y: real, z: real)
    requires x <= y && z >= 0.0
    ensures Times(x, z) <= Times(y, z)
  {
  }

  lemma TimesStrictlyMonotone(x: real, y: real, z: real)
    requires x < y && z > 0.0
    ensures Times(x, z) < Times(y, z)
  {
  }

  lemma TimesFraction(k: real, p: real)
    requires 0.0 <= k <= 1.0 && p >= 0.0
    ensures 0.0 <= Times(k, p) <= p
  {
    MulNonNegative(k, p);
    MulMonotone(k, 1.0, p);
  }

  lemma ScaledSquarePositive(w: real, c: real)
    requires w > 0.0 && c > 0.0
    ensures w * (c * c) > 0.0
  {
  }

  lemma SquareNonNegative(x: real)
    ensures x * x >= 0.0
  {
  }

  lemma MulNonNegative(x: real, y: real)
    requires x >= 0.0 && y >= 0.0
    ensures x * y >= 0.0
  {
  }

  lemma MulPositive(x: real, y: real)
    requires x > 0.0 && y > 0.0
    ensures x * y > 0.0
  {
  }

  lemma MulMonotone(x: real, y: real, z: real)
    requires x <= y && z >= 0.0
    ensures x * z <= y * z
  {
  }

  lemma MulStrictlyMonotone(x: real, y: real, z: real)
    requires x < y && z > 0.0
    ensures x * z < y * z
  {
  }

  /** Squares order the non-negative reals. */
  lemma SquareOrder(x: real, y: real)
    requires x >= 0.0 && y >= 0.0
    ensures x <= y <==> x * x <= y * y
    ensures x < y <==> x * x < y * y
  {
    if x < y {
      MulPositive(y - x, y + x);
    } else if y < x {
      MulPositive(x - y, x + y);
    }
  }

  lemma DivCancel(x: real, y: real)
    requires y != 0.0
    ensures x / y * y == x
    ensures y * (x / y) == x
  {
  }

  lemma DivPositive(x: real, y: real)
    requires y > 0.0
    ensures x > 0.0 ==> x / y > 0.0
    ensures x >= 0.0 ==> x / y >= 0.0
  {
  }

  /** The Cauchy-Schwarz inequality in the plane. */
  lemma CauchySchwarz(ux: real, uy: real, vx: real, vy: real)
    ensures (ux * vx + uy * vy) * (ux * vx + uy * vy) <= (ux * ux + uy * uy) * (vx * vx + vy * vy)
  {
  }
}
