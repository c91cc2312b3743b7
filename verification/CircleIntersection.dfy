/**
 The two-tap fallback: intersect the range circles of two taps at least 100 m apart,
 after repairing radii that do not intersect, and pick the candidate nearer to the
 previous estimate. The first tap is the origin, the second is at (dx, dy).
 */
module CircleIntersection {
  import opened RealMath
  import opened Taps

  const MIN_SEPARATION_M := 100.0

  /** The circles of radius d1 and d2 with centres D apart have a common point. */
  ghost predicate Meet(sep: real, d1: real, d2: real) {
    -sep <= d1 - d2 <= sep <= d1 + d2
  }

  // ---------------------------------------------------------------- radius repair

  /** A circle around the other one: the inner radius grows until they overlap by 1% of the separation. */
  function Opened(sep: real, outer: real): (real, real) {
    var d := Max(outer, 1.04 * sep);
    (d, d - 0.99 * sep)
  }

  /**
   The radii in closed form: contained circles are opened, separate ones are scaled together to an overlap of 1%,
   unless that would leave one inside the other.
   */
  function Repaired(sep: real, r1: real, r2: real): (real, real)
    requires r1 > 0.0 && r2 > 0.0
  {
    var sum := r1 + r2;
    if r1 - r2 > sep then Opened(sep, r1)
    else if r2 - r1 > sep then (Opened(sep, r2).1, Opened(sep, r2).0)
    else if sum >= sep then (r1, r2)
    else if 1.01 * (r1 - r2) > sum then (1.04 * sep, 0.05 * sep)
    else if 1.01 * (r2 - r1) > sum then (0.05 * sep, 1.04 * sep)
    else (Times(r1, 1.01 * sep / sum), Times(r2, 1.01 * sep / sum))
  }

  lemma ScaleUp(sep: real, r1: real, r2: real, k: real)
    requires r1 > 0.0 && r2 > 0.0 && r1 + r2 < sep && k == 1.01 * sep / (r1 + r2)
    ensures Times(r1, k) > r1 && Times(r2, k) > r2 && Times(r1, k) + Times(r2, k) == 1.01 * sep
    ensures Times(r1, k) - Times(r2, k) > sep <==> 1.01 * (r1 - r2) > r1 + r2
  {
    var sum, dif := r1 + r2, r1 - r2;
    DivCancel(1.01 * sep, sum);
    assert Times(r1, k) + Times(r2, k) == sum * k;
    assert Times(r1, k) - Times(r2, k) == dif * k;
    assert k > 1.0 by { if k <= 1.0 { MulMonotone(k, 1.0, sum); } }
    Grows(r1, k);
    Grows(r2, k);
    assert dif * k * sum == dif * (1.01 * sep);
    ScaledGap(dif * k, sep, sum, dif);
  }

  lemma Grows(r: real, k: real)
    requires r > 0.0 && k > 1.0
    ensures Times(r, k) > r
  {
    TimesStrictlyMonotone(1.0, k, r);
    TimesCommutes(r, k);
  }

  lemma ScaledGap(x: real, sep: real, sum: real, dif: real)
    requires sum > 0.0 && sep > 0.0 && x * sum == dif * (1.01 * sep)
    ensures x > sep <==> 1.01 * dif > sum
  {
    assert x * sum == Times(1.01 * dif, sep) && Times(sum, sep) == Times(sep, sum);
    if x > sep { TimesStrictlyMonotone(sep, x, sum); } else { TimesMonotone(x, sep, sum); }
    if 1.01 * dif > sum { TimesStrictlyMonotone(sum, 1.01 * dif, sep); } else { TimesMonotone(1.01 * dif, sum, sep); }
  }

  /** The repaired circles meet, no radius shrinks, and radii that meet already stay. */
  lemma RepairedMeet(sep: real, r1: real, r2: real)
    requires sep > 0.0 && r1 > 0.0 && r2 > 0.0
    ensures var (d1, d2) := Repaired(sep, r1, r2);
            Meet(sep, d1, d2) && d1 >= r1 && d2 >= r2 && (Meet(sep, r1, r2) ==> d1 == r1 && d2 == r2)
  {
    if r1 + r2 < sep {
      ScaleUp(sep, r1, r2, 1.01 * sep / (r1 + r2));
      ScaleUp(sep, r2, r1, 1.01 * sep / (r2 + r1));
    }
  }

  /** Adjusts the ranges step by step so that the circles meet. */
  method RepairRadii(sep: real, r1: real, r2: real) returns (d1: real, d2: real)
    requires sep > MIN_SEPARATION_M && r1 > 0.0 && r2 > 0.0
    ensures (d1, d2) == Repaired(sep, r1, r2)
    ensures Meet(sep, d1, d2) && d1 >= r1 && d2 >= r2
    ensures Meet(sep, r1, r2) ==> d1 == r1 && d2 == r2
  {
    hide Times;
    RepairedMeet(sep, r1, r2);
    d1, d2 := r1, r2;
    if d1 + d2 < sep {
      var scale := sep / (d1 + d2) * 1.01;
      assert scale == 1.01 * sep / (r1 + r2) by { ScaleForms(sep, r1 + r2); }
      ScaleUp(sep, r1, r2, scale);
      ScaleUp(sep, r2, r1, scale);
      d1, d2 := Times(d1, scale), Times(d2, scale);
    }
    if Abs(d1 - d2) > sep {
      if d1 >= d2 {
        d2 := d1 - sep * 0.99;
        if d2 < sep * 0.05 {
          d2 := sep * 0.05;
          d1 := d2 + sep * 0.99;
        }
      } else {
        d1 := d2 - sep * 0.99;
        if d1 < sep * 0.05 {
          d1 := sep * 0.05;
          d2 := d1 + sep * 0.99;
        }
      }
    }
  }

  lemma ScaleForms(sep: real, sum: real)
    requires sum > 0.0
    ensures sep / sum * 1.01 == 1.01 * sep / sum
  {
  }

  // ---------------------------------------------------------------- geometry

  /** Distance from the first centre to the chord, along the line of centres. */
  function Foot(sep: real, d1: real, d2: real): real
    requires sep != 0.0
  {
    (sep * sep + d1 * d1 - d2 * d2) / (2.0 * sep)
  }

  function HalfChordSq(sep: real, d1: real, d2: real): real
    requires sep != 0.0
  {
    d1 * d1 - Foot(sep, d1, d2) * Foot(sep, d1, d2)
  }

  lemma FootEquation(sep: real, d1: real, d2: real)
    requires sep > 0.0
    ensures 2.0 * Times(sep, Foot(sep, d1, d2)) == Sq(sep) + Sq(d1) - Sq(d2)
  {
  }

  /** Heron's formula: circles that meet have a real half chord, so the clamp at zero is never needed. */
  lemma HalfChordReal(sep: real, d1: real, d2: real)
    requires sep > 0.0 && Meet(sep, d1, d2)
    ensures HalfChordSq(sep, d1, d2) >= 0.0
  {
    var a, h := Foot(sep, d1, d2), HalfChordSq(sep, d1, d2);
    FootEquation(sep, d1, d2);
    var f, g := 2.0 * sep * d1, Sq(sep) + Sq(d1) - Sq(d2);
    assert 4.0 * (sep * sep) * h == Sq(f) - Sq(g) by { Rescale(sep, d1, a, h, g); }
    assert Sq(f) - Sq(g) == Times(f - g, f + g);
    assert f - g == Times(d2 - d1 + sep, d2 + d1 - sep) by { Factor(sep, d1, d2); }
    assert f + g == Times(sep + d1 - d2, sep + d1 + d2) by { Factor(sep, d1, d2); }
    TimesSign(d2 - d1 + sep, d2 + d1 - sep);
    TimesSign(sep + d1 - d2, sep + d1 + d2);
    TimesSign(f - g, f + g);
    if h < 0.0 {
      MulPositive(sep, -h);
      MulPositive(sep, sep * -h);
    }
  }

  lemma Rescale(sep: real, d1: real, a: real, h: real, g: real)
    requires 2.0 * Times(sep, a) == g && h == d1 * d1 - a * a
    ensures 4.0 * (sep * sep) * h == Sq(2.0 * sep * d1) - Sq(g)
  {
  }

  lemma Factor(sep: real, d1: real, d2: real)
    ensures 2.0 * sep * d1 - (Sq(sep) + Sq(d1) - Sq(d2)) == Times(d2 - d1 + sep, d2 + d1 - sep)
    ensures 2.0 * sep * d1 + (Sq(sep) + Sq(d1) - Sq(d2)) == Times(sep + d1 - d2, sep + d1 + d2)
  {
  }

  /** The point with coordinates (a, h) in the frame of the unit vector (ux, uy). */
  function FrameX(a: real, h: real, ux: real, uy: real): real {
    a * ux - h * uy
  }

  function FrameY(a: real, h: real, ux: real, uy: real): real {
    a * uy + h * ux
  }

  lemma FrameNorm(a: real, h: real, ux: real, uy: real)
    requires NormSq(ux, uy) == 1.0
    ensures NormSq(FrameX(a, h, ux, uy), FrameY(a, h, ux, uy)) == Sq(a) + Sq(h)
  {
  }

  lemma FrameShift(a: real, h: real, sep: real, ux: real, uy: real)
    ensures FrameX(a, h, ux, uy) - Times(sep, ux) == FrameX(a - sep, h, ux, uy)
    ensures FrameY(a, h, ux, uy) - Times(sep, uy) == FrameY(a - sep, h, ux, uy)
  {
  }

  ghost predicate OnBoth(x: real, y: real, dx: real, dy: real, d1: real, d2: real) {
    NormSq(x, y) == Sq(d1) && NormSq(x - dx, y - dy) == Sq(d2)
  }

  /** Both candidates lie exactly on both circles. */
  lemma CandidateOnBoth(sep: real, ux: real, uy: real, dx: real, dy: real, d1: real, d2: real, h: real)
    requires sep > 0.0 && NormSq(ux, uy) == 1.0 && dx == Times(sep, ux) && dy == Times(sep, uy)
    requires Sq(h) == HalfChordSq(sep, d1, d2)
    ensures var a := Foot(sep, d1, d2);
            OnBoth(FrameX(a, h, ux, uy), FrameY(a, h, ux, uy), dx, dy, d1, d2)
  {
  }

  /** There is no third intersection point. */
  lemma OnlyTwoCandidates(sep: real, ux: real, uy: real, dx: real, dy: real, d1: real, d2: real, h: real,
                          x: real, y: real)
    requires sep > 0.0 && NormSq(ux, uy) == 1.0 && dx == Times(sep, ux) && dy == Times(sep, uy)
    requires IsSqrt(h, HalfChordSq(sep, d1, d2)) && OnBoth(x, y, dx, dy, d1, d2)
    ensures var a := Foot(sep, d1, d2);
            || (x == FrameX(a, h, ux, uy) && y == FrameY(a, h, ux, uy))
            || (x == FrameX(a, -h, ux, uy) && y == FrameY(a, -h, ux, uy))
  {
    var a := Foot(sep, d1, d2);
    var p, q := x * ux + y * uy, y * ux - x * uy;
    Unrotate(x, y, ux, uy);
    FrameNorm(p, q, ux, uy);
    FrameShift(p, q, sep, ux, uy);
    FrameNorm(p - sep, q, ux, uy);
    FootEquation(sep, d1, d2);
    assert Sq(p - sep) == Sq(p) - 2.0 * Times(sep, p) + Sq(sep);
    SameFoot(sep, p, a);
    SameSquare(q, h);
  }

  lemma Unrotate(x: real, y: real, ux: real, uy: real)
    requires NormSq(ux, uy) == 1.0
    ensures x == FrameX(x * ux + y * uy, y * ux - x * uy, ux, uy)
    ensures y == FrameY(x * ux + y * uy, y * ux - x * uy, ux, uy)
  {
  }

  lemma SameFoot(sep: real, p: real, a: real)
    requires sep > 0.0 && Times(sep, p) == Times(sep, a)
    ensures p == a
  {
  }

  lemma SameSquare(q: real, h: real)
    requires h >= 0.0 && Sq(q) == Sq(h)
    ensures q == h || q == -h
  {
    if q >= 0.0 {
      SqOrder(q, h);
      SqOrder(h, q);
    } else {
      assert Sq(-q) == Sq(q);
      SqOrder(-q, h);
      SqOrder(h, -q);
    }
  }

  // ---------------------------------------------------------------- the estimate

  datatype Previous = NoPrevious | At(x: real, y: real)

  datatype Fix = TooClose | Fix(x: real, y: real, errorM: real)

  /** What a fix is: relative to the repaired radii d1 and d2. */
  ghost predicate GoodFix(f: Fix, dx: real, dy: real, sep: real, d1: real, d2: real, h: real, prev: Previous)
    requires sep > 0.0 && f.Fix?
  {
    var ux, uy, a := dx / sep, dy / sep, Foot(sep, d1, d2);
    match prev
    case NoPrevious => f.x == Times(a, ux) && f.y == Times(a, uy)
    case At(px, py) =>
      && OnBoth(f.x, f.y, dx, dy, d1, d2)
      && NormSq(f.x - px, f.y - py) <= NormSq(FrameX(a, h, ux, uy) - px, FrameY(a, h, ux, uy) - py)
      && NormSq(f.x - px, f.y - py) <= NormSq(FrameX(a, -h, ux, uy) - px, FrameY(a, -h, ux, uy) - py)
  }

  lemma UnitVector(dx: real, dy: real, sep: real)
    requires sep > 0.0 && Sq(sep) == NormSq(dx, dy)
    ensures NormSq(dx / sep, dy / sep) == 1.0
    ensures Times(sep, dx / sep) == dx && Times(sep, dy / sep) == dy
  {
    var ux, uy := dx / sep, dy / sep;
    DivCancel(dx, sep);
    DivCancel(dy, sep);
    SqSign(sep);
    assert Times(NormSq(ux, uy), Sq(sep)) == NormSq(sep * ux, sep * uy);
    UnitFromScale(NormSq(ux, uy), Sq(sep));
  }

  /** The error grows as the circles become tangent, by a factor between 1 and 10. */
  method ReportedError(rmsUnc: real, h: real, d1: real) returns (e: real)
    requires rmsUnc >= 0.0 && h >= 0.0 && d1 > 0.0 && h <= d1
    ensures rmsUnc <= e <= 10.0 * rmsUnc
    ensures Times(e, Max(h / d1, 0.1)) == rmsUnc
  {
    var sinTheta := h / d1;
    if sinTheta < 0.1 { sinTheta := 0.1; }
    DivCancel(h, d1);
    if sinTheta > 1.0 { MulStrictlyMonotone(1.0, sinTheta, d1); }
    e := rmsUnc / sinTheta;
    DivCancel(rmsUnc, sinTheta);
    DivPositive(rmsUnc, sinTheta);
    ErrorFactor(rmsUnc, sinTheta, e);
  }

  lemma ErrorFactor(rms: real, s: real, e: real)
    requires 0.1 <= s <= 1.0 && e >= 0.0 && e * s == rms
    ensures rms <= e <= 10.0 * rms
  {
  }

  method Intersect(dx: real, dy: real, r1: real, r2: real, unc1: real, unc2: real, prev: Previous, sqrt: real -> real)
    returns (f: Fix, ghost d1: real, ghost d2: real, ghost h: real)
    requires SqrtLaw(sqrt)
    ensures var sep := sqrt(NormSq(dx, dy));
            f.TooClose? <==> !(sep > MIN_SEPARATION_M && r1 > 0.0 && r2 > 0.0)
    ensures f.Fix? ==>
              var sep := sqrt(NormSq(dx, dy));
              && sep > MIN_SEPARATION_M && r1 > 0.0 && r2 > 0.0 && (d1, d2) == Repaired(sep, r1, r2)
              && Meet(sep, d1, d2) && d1 >= r1 && d2 >= r2 && (Meet(sep, r1, r2) ==> d1 == r1 && d2 == r2)
              && IsSqrt(h, HalfChordSq(sep, d1, d2)) && GoodFix(f, dx, dy, sep, d1, d2, h, prev)
              && var rms := sqrt((Sq(unc1) + Sq(unc2)) / 2.0);
                 d1 > 0.0 && rms <= f.errorM <= 10.0 * rms && Times(f.errorM, Max(h / d1, 0.1)) == rms
  {
    d1, d2, h := r1, r2, 0.0;
    var sep := sqrt(NormSq(dx, dy));
    if !(sep > MIN_SEPARATION_M && r1 > 0.0 && r2 > 0.0) { return TooClose, d1, d2, h; }
    NormSqSign(dx, dy);
    assert IsSqrt(sep, NormSq(dx, dy));
    var e1, e2 := RepairRadii(sep, r1, r2);
    d1, d2 := e1, e2;

    var a := Foot(sep, e1, e2);
    var hSq := HalfChordSq(sep, e1, e2);
    HalfChordReal(sep, e1, e2);
    if hSq < 0.0 { hSq := 0.0; }
    var hh := sqrt(hSq);
    h := hh;
    assert IsSqrt(hh, hSq);

    var x, y := Choose(dx, dy, sep, a, hh, e1, e2, prev);
    SqSign(unc1);
    SqSign(unc2);
    var rmsUnc := sqrt((Sq(unc1) + Sq(unc2)) / 2.0);
    assert IsSqrt(rmsUnc, (Sq(unc1) + Sq(unc2)) / 2.0);
    ChordBelowRadius(sep, e1, e2, hh);
    var err := ReportedError(rmsUnc, hh, e1);
    f := Fix(x, y, err);
  }

  lemma ChordBelowRadius(sep: real, d1: real, d2: real, h: real)
    requires sep > 0.0 && d1 > 0.0 && IsSqrt(h, HalfChordSq(sep, d1, d2))
    ensures h <= d1
  {
  }

  /** The candidate nearer to the previous estimate, or the foot of the chord when there is none. */
  method Choose(dx: real, dy: real, sep: real, a: real, h: real, ghost d1: real, ghost d2: real, prev: Previous)
    returns (x: real, y: real)
    requires sep > 0.0 && Sq(sep) == NormSq(dx, dy)
    requires a == Foot(sep, d1, d2) && IsSqrt(h, HalfChordSq(sep, d1, d2))
    ensures GoodFix(Fix(x, y, 0.0), dx, dy, sep, d1, d2, h, prev)
  {
    hide NormSq;
    hide FrameX;
    hide FrameY;
    hide Foot;
    hide HalfChordSq;
    hide Sq;
    hide Times;
    var ux, uy := dx / sep, dy / sep;
    UnitVector(dx, dy, sep);
    assert Sq(-h) == Sq(h) by { NegSquare(h); }
    CandidateOnBoth(sep, ux, uy, dx, dy, d1, d2, h);
    CandidateOnBoth(sep, ux, uy, dx, dy, d1, d2, -h);
    var c1x, c1y := FrameX(a, h, ux, uy), FrameY(a, h, ux, uy);
    var c2x, c2y := FrameX(a, -h, ux, uy), FrameY(a, -h, ux, uy);
    match prev
    case NoPrevious => x, y := Times(a, ux), Times(a, uy);
    case At(px, py) =>
      if NormSq(c1x - px, c1y - py) <= NormSq(c2x - px, c2y - py) {
        x, y := c1x, c1y;
      } else {
        x, y := c2x, c2y;
      }
  }

  lemma NegSquare(h: real)
    ensures Sq(-h) == Sq(h)
  {
  }
}
