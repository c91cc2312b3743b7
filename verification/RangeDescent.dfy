/**
 The solver's step goes downhill on the true range cost, not only on the linearised one it
 is computed from: the curvature that linearising leaves out is bounded, and small enough
 fractions of the step win against it.
 */
module RangeDescent {
  import opened RealMath
  import opened LeastSquares
  import opened Taps
  import opened Trilateration
  import opened Ranging

  // ---------------------------------------------------------------- the true cost

  /** The weighted squared range error at a point: what the solver is there to minimise. */
  function RangeErrors(taps: seq<Tap>, x: real, y: real, sqrt: real -> real): (r: seq<real>)
    ensures |r| == |taps|
    ensures forall i :: 0 <= i < |taps| ==> r[i] == taps[i].distance - sqrt(Reach(taps[i], x, y))
  {
    seq(|taps|, i requires 0 <= i < |taps| => taps[i].distance - sqrt(Reach(taps[i], x, y)))
  }

  function RangeCost(taps: seq<Tap>, w: seq<real>, x: real, y: real, sqrt: real -> real): real
    requires |w| == |taps|
  {
    Sum3(w, RangeErrors(taps, x, y, sqrt), RangeErrors(taps, x, y, sqrt))
  }

  /** The cost a fraction k along a step. */
  function CostAlong(taps: seq<Tap>, w: seq<real>, x: real, y: real, dx: real, dy: real, k: real, sqrt: real -> real):
    real
    requires |w| == |taps|
  {
    RangeCost(taps, w, x + Times(k, dx), y + Times(k, dy), sqrt)
  }

  /** How far a squared error can bend away from its linear model, per square of the fraction. */
  function Curvature(r: real, j: real, c: real): real {
    2.0 * Times(Abs(r) + Abs(j), c) + Sq(c)
  }

  /** A bound on the second-order terms of the whole cost. */
  function Bend(w: seq<real>, f: seq<real>, g: seq<real>, r: seq<real>, x: real, y: real, c: real): real
    requires |w| == |f| == |g| == |r|
  {
    if w == [] then 0.0
    else
      var n := |w| - 1;
      Bend(w[..n], f[..n], g[..n], r[..n], x, y, c) + Times(w[n], Curvature(r[n], Lin(f[n], g[n], x, y), c))
  }

  lemma CurvatureSign(r: real, j: real, c: real)
    requires c >= 0.0
    ensures Curvature(r, j, c) >= 0.0
  {
    TimesSign(Abs(r) + Abs(j), c);
    SqSign(c);
  }

  lemma {:induction false} BendSign(w: seq<real>, f: seq<real>, g: seq<real>, r: seq<real>, x: real, y: real, c: real)
    requires |w| == |f| == |g| == |r| && Positive(w) && c >= 0.0
    ensures Bend(w, f, g, r, x, y, c) >= 0.0
  {
    if w != [] {
      var n := |w| - 1;
      BendSign(w[..n], f[..n], g[..n], r[..n], x, y, c);
      CurvatureSign(r[n], Lin(f[n], g[n], x, y), c);
      TimesSign(w[n], Curvature(r[n], Lin(f[n], g[n], x, y), c));
    }
  }

  /** One squared error: p is its linear model, e what the model misses. */
  lemma SquareBends(p: real, b: real, e: real, kk: real, c: real)
    requires Abs(p) <= b && 0.0 <= e <= Times(kk, c) && 0.0 <= kk <= 1.0 && c >= 0.0
    ensures Sq(p - e) <= Sq(p) + Times(kk, 2.0 * Times(b, c) + Sq(c))
  {
    SquareOfDifference(p, e);
    assert -Times(p, e) <= Times(b, e) by { TimesMonotone(-p, b, e); }
    assert Times(b, e) <= Times(kk, Times(b, c)) by {
      TimesMonotone(e, Times(kk, c), b);
      TimesSwap(kk, b, c);
    }
    SmallSquare(e, kk, c);
    SplitTimes(kk, Times(b, c), Sq(c));
  }

  lemma SquareOfDifference(p: real, e: real)
    ensures Sq(p - e) == Sq(p) - 2.0 * Times(p, e) + Sq(e) && Times(-p, e) == -Times(p, e)
  {
  }

  lemma SplitTimes(k: real, x: real, y: real)
    ensures Times(k, 2.0 * x + y) == 2.0 * Times(k, x) + Times(k, y)
  {
  }

  lemma TimesSwap(k: real, b: real, c: real)
    ensures Times(Times(k, c), b) == Times(k, Times(b, c)) && forall e :: Times(e, b) == Times(b, e)
  {
  }

  lemma SmallSquare(e: real, kk: real, c: real)
    requires 0.0 <= kk <= 1.0 && c >= 0.0 && 0.0 <= e <= Times(kk, c)
    ensures Sq(e) <= Times(kk, Sq(c))
  {
    SqOrder(e, Times(kk, c));
    SqSign(c);
    assert Sq(Times(kk, c)) == Times(kk, Times(kk, Sq(c)));
    TimesFraction(kk, Sq(c));
    TimesFraction(kk, Times(kk, Sq(c)));
  }

  lemma FractionOf(k: real, j: real)
    requires 0.0 < k <= 1.0
    ensures -Abs(j) <= Times(k, j) <= Abs(j)
  {
    TimesFraction(k, Abs(j));
    assert Times(k, -j) == -Times(k, j);
  }

  lemma SquareOfFraction(k: real)
    requires 0.0 < k <= 1.0
    ensures 0.0 < Sq(k) <= 1.0 && Sq(k) == Times(k, k)
  {
    SqSign(k);
    SqOrder(k, 1.0);
    assert Sq(1.0) == 1.0;
  }

  lemma TermBends(w: real, f: real, g: real, r: real, s: real, x: real, y: real, k: real, c: real)
    requires w > 0.0 && 0.0 < k <= 1.0 && c >= 0.0
    requires var p := Residual(r, f, g, Times(k, x), Times(k, y));
             s <= p <= s + Times(Sq(k), c)
    ensures Prod3(w, s, s) <= WSquare(w, Residual(r, f, g, Times(k, x), Times(k, y)))
                              + Times(Sq(k), Times(w, Curvature(r, Lin(f, g, x, y), c)))
  {
    hide Residual;
    hide Sq;
    hide Times;
    hide Lin;
    hide Prod3;
    hide WSquare;
    var j, p := Lin(f, g, x, y), Residual(r, f, g, Times(k, x), Times(k, y));
    FractionResidual(r, f, g, x, y, k);
    FractionOf(k, j);
    SquareOfFraction(k);
    SquareBends(p, Abs(r) + Abs(j), p - s, Sq(k), c);
    assert p - (p - s) == s;
    var bend := Times(Sq(k), Curvature(r, j, c));
    TimesMonotone(Sq(s), Sq(p) + bend, w);
    WeightForms(w, s, p, Sq(k), Curvature(r, j, c));
  }

  lemma FractionResidual(r: real, f: real, g: real, x: real, y: real, k: real)
    ensures Residual(r, f, g, Times(k, x), Times(k, y)) == r - Times(k, Lin(f, g, x, y))
  {
  }

  lemma WeightForms(w: real, s: real, p: real, kk: real, c: real)
    ensures Times(Sq(s), w) == Prod3(w, s, s)
    ensures Times(Sq(p) + Times(kk, c), w) == WSquare(w, p) + Times(kk, Times(w, c))
  {
  }

  lemma {:induction false} CostBends(w: seq<real>, f: seq<real>, g: seq<real>, r: seq<real>, s: seq<real>,
                                     x: real, y: real, k: real, c: real)
    requires |w| == |f| == |g| == |r| == |s| && Positive(w) && 0.0 < k <= 1.0 && c >= 0.0
    requires forall i :: 0 <= i < |w| ==>
               s[i] <= Residual(r[i], f[i], g[i], Times(k, x), Times(k, y)) <= s[i] + Times(Sq(k), c)
    ensures Sum3(w, s, s)
         <= Cost(w, f, g, r, Times(k, x), Times(k, y)) + Times(Sq(k), Bend(w, f, g, r, x, y, c))
  {
    hide Residual;
    hide Sq;
    hide Curvature;
    hide Lin;
    hide Prod3;
    hide WSquare;
    if w != [] {
      var n := |w| - 1;
      CostBends(w[..n], f[..n], g[..n], r[..n], s[..n], x, y, k, c);
      TermBends(w[n], f[n], g[n], r[n], s[n], x, y, k, c);
      TimesAdds(Bend(w[..n], f[..n], g[..n], r[..n], x, y, c), Times(w[n], Curvature(r[n], Lin(f[n], g[n], x, y), c)),
                Sq(k));
    }
  }

  /** Along a fraction of the step the linearised cost falls at least by the slope, less its square. */
  lemma FractionCost(w: seq<real>, f: seq<real>, g: seq<real>, r: seq<real>, x: real, y: real, k: real, q: real)
    requires |w| == |f| == |g| == |r| && q == Lin(Sum3(w, f, r), Sum3(w, g, r), x, y)
    requires Quad(Sum3(w, f, f), Sum3(w, f, g), Sum3(w, g, g), x, y) <= q
    ensures Cost(w, f, g, r, Times(k, x), Times(k, y)) <= Sum3(w, r, r) - 2.0 * Times(k, q) + Times(Sq(k), q)
  {
    hide Lin;
    hide Quad;
    hide Times;
    hide Sq;
    var xx, xy, yy := Sum3(w, f, f), Sum3(w, f, g), Sum3(w, g, g);
    var rx, ry := Sum3(w, f, r), Sum3(w, g, r);
    CostIsQuadratic(w, f, g, r, Times(k, x), Times(k, y));
    LinScales(rx, ry, x, y, k);
    QuadScales(xx, xy, yy, x, y, k);
    SquareTwice(k, Quad(xx, xy, yy, x, y));
    SqSign(k);
    TimesMonotone(Quad(xx, xy, yy, x, y), q, Sq(k));
    TimesCommutes(Sq(k), q);
    TimesCommutes(Sq(k), Quad(xx, xy, yy, x, y));
  }

  lemma SquareTwice(k: real, q: real)
    ensures Times(k, Times(k, q)) == Times(Sq(k), q)
  {
  }

  // ---------------------------------------------------------------- and so the solver descends

  lemma CompletedSquare(xx: real, xy: real, yy: real, x: real, y: real)
    ensures Times(xx, Quad(xx, xy, yy, x, y)) == Sq(xx * x + xy * y) + Times(Det2(xx, xy, yy), Sq(y))
  {
  }

  lemma CompletedSquareY(xx: real, xy: real, yy: real, x: real, y: real)
    ensures Times(yy, Quad(xx, xy, yy, x, y)) == Sq(xy * x + yy * y) + Times(Det2(xx, xy, yy), Sq(x))
  {
  }

  lemma PositiveProduct(a: real, b: real, c: real, d: real)
    requires Times(a, b) == Sq(c) + d && d >= 0.0 && b >= 0.0 && (c != 0.0 || d > 0.0)
    ensures b > 0.0
  {
    SqSign(c);
  }

  /** The full step of a non-singular system with a pull has a positive slope. */
  lemma SlopePositive(m: Normal, q: real)
    requires Det2(m.xx, m.xy, m.yy) > 0.0 && (m.rx != 0.0 || m.ry != 0.0)
    requires q == Quad(m.xx, m.xy, m.yy, FullX(m), FullY(m)) && q >= 0.0
    requires NormalEquations(m.xx, m.xy, m.yy, m.rx, m.ry, FullX(m), FullY(m))
    ensures q > 0.0 && Lin(m.rx, m.ry, FullX(m), FullY(m)) == q
  {
    hide FullX;
    hide FullY;
    var x, y := FullX(m), FullY(m);
    var det := Det2(m.xx, m.xy, m.yy);
    LinIsQuad(m.xx, m.xy, m.yy, m.rx, m.ry, x, y);
    SqSign(x);
    SqSign(y);
    TimesSign(det, Sq(x));
    TimesSign(det, Sq(y));
    CompletedSquare(m.xx, m.xy, m.yy, x, y);
    CompletedSquareY(m.xx, m.xy, m.yy, x, y);
    if m.rx != 0.0 {
      PositiveProduct(m.xx, q, m.rx, Times(det, Sq(y)));
    } else {
      PositiveProduct(m.yy, q, m.ry, Times(det, Sq(x)));
    }
  }

  lemma LinIsQuad(xx: real, xy: real, yy: real, rx: real, ry: real, x: real, y: real)
    requires NormalEquations(xx, xy, yy, rx, ry, x, y)
    ensures Lin(rx, ry, x, y) == Quad(xx, xy, yy, x, y)
  {
  }

  /** The slope of the damped step, and its quadratic part. */
  lemma DampedSlope(m: Normal, l: real, q: real)
    requires 0.0 < l <= 1.0 && Det2(m.xx, m.xy, m.yy) != 0.0
    requires q == Quad(m.xx, m.xy, m.yy, FullX(m), FullY(m)) == Lin(m.rx, m.ry, FullX(m), FullY(m)) && q > 0.0
    ensures var dx, dy := Times(l, FullX(m)), Times(l, FullY(m));
            0.0 < Lin(m.rx, m.ry, dx, dy) && Quad(m.xx, m.xy, m.yy, dx, dy) <= Lin(m.rx, m.ry, dx, dy)
  {
    hide FullX;
    hide FullY;
    LinScales(m.rx, m.ry, FullX(m), FullY(m), l);
    QuadScales(m.xx, m.xy, m.yy, FullX(m), FullY(m), l);
    FractionBound(l, q);
    MulPositive(l, q);
  }

  /** A fraction below this one gains more from the slope than it can lose to the bend. */
  function SafeFraction(q: real, bend: real): real
    requires q > 0.0 && bend >= 0.0
  {
    Min(1.0, q / (q + bend))
  }

  lemma SafeGain(k: real, q: real, bend: real)
    requires q > 0.0 && bend >= 0.0 && 0.0 < k < SafeFraction(q, bend)
    ensures -2.0 * Times(k, q) + Times(Sq(k), q) + Times(Sq(k), bend) < 0.0
  {
    var t := q + bend;
    DivCancel(q, t);
    MulStrictlyMonotone(k, q / t, t);
    assert Times(k, t) < q;
    MulStrictlyMonotone(Times(k, t), q, k);
    assert Times(Sq(k), q) + Times(Sq(k), bend) == Times(k, t) * k;
    MulPositive(k, q);
  }

  /** The errors along a fraction of a step stay between the linear model and its second-order bound. */
  lemma ErrorsBend(taps: seq<Tap>, x: real, y: real, dx: real, dy: real, k: real, sqrt: real -> real, i: nat)
    requires SqrtLaw(sqrt) && Clear(taps, x, y) && i < |taps|
    ensures var s := RangeErrors(taps, x + Times(k, dx), y + Times(k, dy), sqrt)[i];
            var p := Residual(Residuals(taps, x, y, sqrt)[i], JacobianX(taps, x, y, sqrt)[i],
                              JacobianY(taps, x, y, sqrt)[i], Times(k, dx), Times(k, dy));
            s <= p <= s + Times(Sq(k), NormSq(dx, dy) / 2.0)
  {
    hide Reach;
    hide Quotient;
    hide NormSq;
    var t, u, v := taps[i], Times(k, dx), Times(k, dy);
    var d := PredDist(t, x, y, sqrt);
    DistanceIsTangent(t, x, y, u, v, sqrt);
    HalfBend(dx, dy, k, d);
  }

  lemma HalfBend(dx: real, dy: real, k: real, d: real)
    requires d >= 1.0
    ensures NormSq(Times(k, dx), Times(k, dy)) / (2.0 * d) <= Times(Sq(k), NormSq(dx, dy) / 2.0)
  {
    var q := NormSq(Times(k, dx), Times(k, dy));
    assert q == Times(Sq(k), NormSq(dx, dy));
    NormSqSign(Times(k, dx), Times(k, dy));
    QuotientShrinks(q, d);
  }

  lemma QuotientShrinks(q: real, d: real)
    requires q >= 0.0 && d >= 1.0
    ensures q / (2.0 * d) <= q / 2.0
  {
    DivPositive(q, 2.0 * d);
    DivCancel(q, 2.0 * d);
    MulMonotone(1.0, d, q / (2.0 * d));
  }

  /** At least 1 m away from every tap the solver's residuals are the range errors. */
  lemma ResidualsAreErrors(taps: seq<Tap>, x: real, y: real, sqrt: real -> real)
    requires SqrtLaw(sqrt) && Clear(taps, x, y)
    ensures Residuals(taps, x, y, sqrt) == RangeErrors(taps, x, y, sqrt)
  {
    hide Reach;
    forall i | 0 <= i < |taps| ensures PredDist(taps[i], x, y, sqrt) == sqrt(Reach(taps[i], x, y)) {
      PredDistIsEuclidean(taps[i], x, y, sqrt);
      RootOfReach(taps[i], x, y, sqrt);
      SameRoot(PredDist(taps[i], x, y, sqrt), sqrt(Reach(taps[i], x, y)));
    }
  }

  /** The slope of the solver's step is positive unless nothing pulls, and bounds its quadratic part. */
  lemma StepSlope(w: seq<real>, f: seq<real>, g: seq<real>, r: seq<real>, m: Normal, sqrt: real -> real)
    requires |w| == |f| == |g| == |r| && Positive(w) && SqrtLaw(sqrt) && m == NormalOf(w, f, g, r)
    requires DampedStep(m, sqrt).Step? && (m.rx != 0.0 || m.ry != 0.0)
    ensures var s := DampedStep(m, sqrt);
            0.0 < Lin(m.rx, m.ry, s.dx, s.dy) && Quad(m.xx, m.xy, m.yy, s.dx, s.dy) <= Lin(m.rx, m.ry, s.dx, s.dy)
  {
    hide FullX;
    hide FullY;
    hide Lin;
    hide Quad;
    var s := DampedStep(m, sqrt);
    StepShape(m, sqrt);
    DampingRange(s.len);
    DetIsCrossSum(w, f, g);
    DetSign(w, f, g);
    QuadNonNegative(w, f, g, FullX(m), FullY(m));
    var q := Quad(m.xx, m.xy, m.yy, FullX(m), FullY(m));
    SlopePositive(m, q);
    DampedSlope(m, Damping(s.len), q);
  }

  /** Half the squared length of a step. */
  function HalfSquare(dx: real, dy: real): (c: real)
    ensures c >= 0.0
  {
    NormSqSign(dx, dy);
    NormSq(dx, dy) / 2.0
  }

  lemma FractionDescendsRanges(taps: seq<Tap>, w: seq<real>, x: real, y: real, dx: real, dy: real, k: real,
                               sqrt: real -> real, q: real, bend: real)
    requires SqrtLaw(sqrt) && |w| == |taps| && Positive(w) && Clear(taps, x, y)
    requires var f, g, r := JacobianX(taps, x, y, sqrt), JacobianY(taps, x, y, sqrt), Residuals(taps, x, y, sqrt);
             && q == Lin(Sum3(w, f, r), Sum3(w, g, r), dx, dy) && bend == Bend(w, f, g, r, dx, dy, HalfSquare(dx, dy))
             && Quad(Sum3(w, f, f), Sum3(w, f, g), Sum3(w, g, g), dx, dy) <= q
    requires q > 0.0 && bend >= 0.0 && 0.0 < k < SafeFraction(q, bend)
    ensures CostAlong(taps, w, x, y, dx, dy, k, sqrt) < RangeCost(taps, w, x, y, sqrt)
  {
    hide Lin;
    hide Quad;
    hide Residual;
    hide Bend;
    hide Clear;
    hide Times;
    hide Sq;
    hide Sum3;
    var f, g, r := JacobianX(taps, x, y, sqrt), JacobianY(taps, x, y, sqrt), Residuals(taps, x, y, sqrt);
    var e, c := RangeErrors(taps, x + Times(k, dx), y + Times(k, dy), sqrt), HalfSquare(dx, dy);
    assert forall i :: 0 <= i < |w| ==>
        e[i] <= Residual(r[i], f[i], g[i], Times(k, dx), Times(k, dy)) <= e[i] + Times(Sq(k), c) by {
      forall i | 0 <= i < |w|
        ensures e[i] <= Residual(r[i], f[i], g[i], Times(k, dx), Times(k, dy)) <= e[i] + Times(Sq(k), c)
      {
        ErrorsBend(taps, x, y, dx, dy, k, sqrt, i);
      }
    }
    ResidualsAreErrors(taps, x, y, sqrt);
    CostBends(w, f, g, r, e, dx, dy, k, c);
    FractionCost(w, f, g, r, dx, dy, k, q);
    SafeGain(k, q, bend);
  }

  /**
   The step points downhill on the true range cost: unless the estimate is already stationary, every small enough
   fraction of the step, damped or not, makes the weighted squared range error strictly smaller.
   */
  lemma StepDescendsRanges(taps: seq<Tap>, w: seq<real>, x: real, y: real, sqrt: real -> real) returns (limit: real)
    requires SqrtLaw(sqrt) && |w| == |taps| && Positive(w) && Clear(taps, x, y)
    requires StepAt(taps, w, x, y, sqrt).Step?
    requires var r := Residuals(taps, x, y, sqrt);
             Sum3(w, JacobianX(taps, x, y, sqrt), r) != 0.0 || Sum3(w, JacobianY(taps, x, y, sqrt), r) != 0.0
    ensures limit > 0.0
    ensures var s := StepAt(taps, w, x, y, sqrt);
            forall k :: 0.0 < k < limit ==>
              CostAlong(taps, w, x, y, s.dx, s.dy, k, sqrt) < RangeCost(taps, w, x, y, sqrt)
  {
    hide DampedStep;
    hide Lin;
    hide Quad;
    hide Bend;
    hide Clear;
    hide HalfSquare;
    var f, g, r := JacobianX(taps, x, y, sqrt), JacobianY(taps, x, y, sqrt), Residuals(taps, x, y, sqrt);
    var m := NormalOf(w, f, g, r);
    var s := DampedStep(m, sqrt);
    StepSlope(w, f, g, r, m, sqrt);
    var q, bend := Lin(m.rx, m.ry, s.dx, s.dy), Bend(w, f, g, r, s.dx, s.dy, HalfSquare(s.dx, s.dy));
    BendSign(w, f, g, r, s.dx, s.dy, HalfSquare(s.dx, s.dy));
    limit := SafeFraction(q, bend);
    DivPositive(q, q + bend);
    forall k | 0.0 < k < limit
      ensures CostAlong(taps, w, x, y, s.dx, s.dy, k, sqrt) < RangeCost(taps, w, x, y, sqrt)
    {
      FractionDescendsRanges(taps, w, x, y, s.dx, s.dy, k, sqrt, q, bend);
    }
  }

  /** A step of a regular system is zero exactly when the weighted residuals pull in no direction. */
  lemma RestsIff(taps: seq<Tap>, w: seq<real>, x: real, y: real, sqrt: real -> real)
    requires SqrtLaw(sqrt) && |w| == |taps| && Positive(w) && StepAt(taps, w, x, y, sqrt).Step?
    ensures var s, r := StepAt(taps, w, x, y, sqrt), Residuals(taps, x, y, sqrt);
            s.dx == 0.0 && s.dy == 0.0 <==>
              Sum3(w, JacobianX(taps, x, y, sqrt), r) == 0.0 && Sum3(w, JacobianY(taps, x, y, sqrt), r) == 0.0
  {
    hide DampedStep;
    var f, g, r := JacobianX(taps, x, y, sqrt), JacobianY(taps, x, y, sqrt), Residuals(taps, x, y, sqrt);
    var m := NormalOf(w, f, g, r);
    if m.rx == 0.0 && m.ry == 0.0 {
      ZeroStep(m, sqrt);
    } else {
      StepSlope(w, f, g, r, m, sqrt);
    }
  }
}
