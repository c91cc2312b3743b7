/**
 What the solver's ranges mean in the plane: predicted distances are Euclidean, their
 linearisation is exact to first order, exact ranges make a fixed point, and a tap is kept
 as an inlier when the estimate lies in the ring around it.
 */
module Ranging {
  import opened RealMath
  import opened Sequences
  import opened LeastSquares
  import opened Outliers
  import opened Taps
  import opened Trilateration

  /** Squared distance from a tap. */
  function Reach(t: Tap, x: real, y: real): real {
    NormSq(x - t.x, y - t.y)
  }

  lemma RootOfReach(t: Tap, x: real, y: real, sqrt: real -> real)
    requires SqrtLaw(sqrt)
    ensures IsSqrt(sqrt(Reach(t, x, y)), Reach(t, x, y)) && Reach(t, x, y) >= 0.0
  {
    NormSqSign(x - t.x, y - t.y);
  }

  /** The predicted distance is the Euclidean one, or 1 m closer than that. */
  lemma PredDistIsEuclidean(t: Tap, x: real, y: real, sqrt: real -> real)
    requires SqrtLaw(sqrt)
    ensures Sq(PredDist(t, x, y, sqrt)) == Max(1.0, Reach(t, x, y))
  {
    hide NormSq;
    var d := sqrt(Reach(t, x, y));
    RootOfReach(t, x, y, sqrt);
    SqOrder(d, 1.0);
    SqOrder(1.0, d);
  }

  // ---------------------------------------------------------------- the linearisation

  /** Change of the squared distance over a displacement. */
  lemma ReachMoves(dx: real, dy: real, u: real, v: real)
    ensures NormSq(dx + u, dy + v) == NormSq(dx, dy) + 2.0 * Lin(dx, dy, u, v) + NormSq(u, v)
  {
  }

  /** The direction cosines times the distance give back the offset. */
  lemma CosinesScale(dx: real, dy: real, d: real, u: real, v: real)
    requires d > 0.0
    ensures Times(d, Lin(Quotient(dx, d), Quotient(dy, d), u, v)) == Lin(dx, dy, u, v)
  {
    DivCancel(dx, d);
    DivCancel(dy, d);
    ScaledLin(Quotient(dx, d), Quotient(dy, d), d, u, v);
  }

  lemma ScaledLin(a: real, b: real, d: real, u: real, v: real)
    ensures Times(d, Lin(a, b, u, v)) == Lin(d * a, d * b, u, v)
  {
  }

  /** Two distances d and e after a displacement with tangential part j and squared length q. */
  lemma TangentBounds(d: real, e: real, j: real, q: real)
    requires d >= 1.0 && e >= 0.0 && Sq(e) == Sq(d) + 2.0 * Times(d, j) + q
    requires Times(j, j) <= q
    ensures d + j <= e <= d + j + q / (2.0 * d)
  {
    assert Sq(d + j) == Sq(d) + 2.0 * Times(d, j) + Times(j, j);
    if e < d + j { SqOrder(e, d + j); }
    SqSign(d - e);
    assert Sq(d - e) == Sq(d) - 2.0 * Times(d, e) + Sq(e);
    assert 2.0 * Times(d, e) <= 2.0 * Sq(d) + 2.0 * Times(d, j) + q;
    HalfQuotient(d, e, j, q);
  }

  lemma HalfQuotient(d: real, e: real, j: real, q: real)
    requires d >= 1.0 && 2.0 * Times(d, e) <= 2.0 * Sq(d) + 2.0 * Times(d, j) + q
    ensures e <= d + j + q / (2.0 * d)
  {
    var h := q / (2.0 * d);
    DivCancel(q, 2.0 * d);
    assert 2.0 * Times(d, h) == q;
    assert Times(d + j + h, d) == Sq(d) + Times(d, j) + Times(d, h);
    if e > d + j + h { MulStrictlyMonotone(d + j + h, e, d); }
  }

  /** A direction cosine never exceeds the displacement it is taken along. */
  lemma CosineBound(dx: real, dy: real, d: real, u: real, v: real)
    requires d > 0.0 && Sq(d) == NormSq(dx, dy)
    ensures var j := Lin(Quotient(dx, d), Quotient(dy, d), u, v);
            Times(j, j) <= NormSq(u, v)
  {
    var a, b := Quotient(dx, d), Quotient(dy, d);
    UnitCosines(dx, dy, d);
    NormProduct(a, b, u, v);
    var j := Lin(a, b, u, v);
    assert Times(j, j) == Sq(j);
    assert Times(1.0, NormSq(u, v)) == NormSq(u, v);
  }

  lemma UnitCosines(dx: real, dy: real, d: real)
    requires d > 0.0 && Sq(d) == NormSq(dx, dy)
    ensures NormSq(Quotient(dx, d), Quotient(dy, d)) == 1.0
  {
    var a, b := dx / d, dy / d;
    DivCancel(dx, d);
    DivCancel(dy, d);
    SqSign(d);
    assert Times(NormSq(a, b), Sq(d)) == NormSq(d * a, d * b);
    UnitFromScale(NormSq(a, b), Sq(d));
  }

  /**
   The Jacobian is the gradient of the distance: from at least 1 m away, a displacement (u, v) changes the distance
   by its linear part, and by at most |(u, v)|^2 / 2d more.
   */
  lemma DistanceIsTangent(t: Tap, x: real, y: real, u: real, v: real, sqrt: real -> real)
    requires SqrtLaw(sqrt) && Reach(t, x, y) >= 1.0
    ensures var d, e := PredDist(t, x, y, sqrt), sqrt(Reach(t, x + u, y + v));
            var j := Lin(Quotient(x - t.x, d), Quotient(y - t.y, d), u, v);
            d + j <= e <= d + j + NormSq(u, v) / (2.0 * d)
  {
    hide NormSq;
    hide Quotient;
    hide Lin;
    hide Sq;
    hide Times;
    var d, e := PredDist(t, x, y, sqrt), sqrt(Reach(t, x + u, y + v));
    var dx, dy := x - t.x, y - t.y;
    PredDistIsEuclidean(t, x, y, sqrt);
    RootOfReach(t, x + u, y + v, sqrt);
    assert x + u - t.x == dx + u && y + v - t.y == dy + v;
    ReachMoves(dx, dy, u, v);
    CosinesScale(dx, dy, d, u, v);
    CosineBound(dx, dy, d, u, v);
    TangentBounds(d, e, Lin(Quotient(dx, d), Quotient(dy, d), u, v), NormSq(u, v));
  }

  // ---------------------------------------------------------------- exact ranges

  /** Every tap is at least 1 m from (x, y). */
  ghost predicate Clear(taps: seq<Tap>, x: real, y: real) {
    forall i :: 0 <= i < |taps| ==> Reach(taps[i], x, y) >= 1.0
  }

  /** Every measured range is the distance to (x, y). */
  ghost predicate ExactAt(taps: seq<Tap>, x: real, y: real) {
    forall i :: 0 <= i < |taps| ==> taps[i].distance >= 0.0 && Sq(taps[i].distance) == Reach(taps[i], x, y)
  }

  ghost predicate AllZero(r: seq<real>) {
    forall i :: 0 <= i < |r| ==> r[i] == 0.0
  }

  lemma SameRoot(a: real, b: real)
    requires a >= 0.0 && b >= 0.0
    ensures a == b <==> Sq(a) == Sq(b)
  {
    SqOrder(a, b);
    SqOrder(b, a);
  }

  /** The residuals vanish exactly where every range is the true distance. */
  lemma ResidualsVanishIff(taps: seq<Tap>, x: real, y: real, sqrt: real -> real)
    requires SqrtLaw(sqrt) && Clear(taps, x, y) && forall i :: 0 <= i < |taps| ==> taps[i].distance >= 0.0
    ensures AllZero(Residuals(taps, x, y, sqrt)) <==> ExactAt(taps, x, y)
  {
    hide Reach;
    hide Sq;
    forall i | 0 <= i < |taps|
      ensures Residuals(taps, x, y, sqrt)[i] == 0.0 <==> Sq(taps[i].distance) == Reach(taps[i], x, y)
    {
      PredDistIsEuclidean(taps[i], x, y, sqrt);
      SameRoot(taps[i].distance, PredDist(taps[i], x, y, sqrt));
    }
  }

  lemma {:induction false} NoPull(w: seq<real>, f: seq<real>, r: seq<real>)
    requires |w| == |f| == |r| && AllZero(r)
    ensures Sum3(w, f, r) == 0.0
  {
    if w != [] { NoPull(w[..|w| - 1], f[..|w| - 1], r[..|w| - 1]); }
  }

  /** Where every range is exact, the step is zero. */
  lemma ExactIsFixed(taps: seq<Tap>, w: seq<real>, x: real, y: real, sqrt: real -> real)
    requires SqrtLaw(sqrt) && |w| == |taps| && Clear(taps, x, y) && ExactAt(taps, x, y)
    ensures StepAt(taps, w, x, y, sqrt).Singular? || StepAt(taps, w, x, y, sqrt) == Step(0.0, 0.0, 0.0)
  {
    var jx, jy, r := JacobianX(taps, x, y, sqrt), JacobianY(taps, x, y, sqrt), Residuals(taps, x, y, sqrt);
    ResidualsVanishIff(taps, x, y, sqrt);
    NoPull(w, jx, r);
    NoPull(w, jy, r);
    ZeroStep(NormalOf(w, jx, jy, r), sqrt);
  }

  lemma ZeroStep(m: Normal, sqrt: real -> real)
    requires SqrtLaw(sqrt) && m.rx == 0.0 && m.ry == 0.0
    ensures DampedStep(m, sqrt).Singular? || DampedStep(m, sqrt) == Step(0.0, 0.0, 0.0)
  {
    assert IsSqrt(sqrt(0.0), 0.0);
    SqSign(sqrt(0.0));
  }

  /** The iteration that starts at (ex, ey) comes to (x, y) after n steps without stopping. */
  ghost predicate Reaches(steps: StepFn, ex: real, ey: real, n: nat, x: real, y: real, cfg: Config)
    decreases n
  {
    if n == 0 then ex == x && ey == y
    else
      var s := steps(ex, ey);
      s.Step? && s.len >= cfg.convergenceThresh && Reaches(steps, ex + s.dx, ey + s.dy, n - 1, x, y, cfg)
  }

  lemma {:induction false} IterateReaches(steps: StepFn, ex: real, ey: real, n: nat, x: real, y: real, k: nat,
                                          cfg: Config)
    requires Reaches(steps, ex, ey, n, x, y, cfg) && k + n <= cfg.maxIterations
    ensures Iterate(steps, ex, ey, k, cfg) == Iterate(steps, x, y, k + n, cfg)
    decreases n
  {
    if n > 0 {
      var s := steps(ex, ey);
      IterateReaches(steps, ex + s.dx, ey + s.dy, n - 1, x, y, k + 1, cfg);
    }
  }

  lemma {:induction false} IterateRests(steps: StepFn, x: real, y: real, k: nat, cfg: Config)
    requires steps(x, y) == Step(0.0, 0.0, 0.0) && cfg.convergenceThresh <= 0.0
    ensures Iterate(steps, x, y, k, cfg) == NoConvergence
    decreases cfg.maxIterations - k
  {
    if k < cfg.maxIterations { IterateRests(steps, x, y, k + 1, cfg); }
  }

  /** A solve that comes to the true position in time stops there and answers it, unless the geometry is degenerate. */
  lemma SolveFindsTruth(taps: seq<Tap>, w: seq<real>, ex: real, ey: real, n: nat, x: real, y: real, cfg: Config,
                        sqrt: real -> real)
    requires SqrtLaw(sqrt) && |w| == |taps| && Clear(taps, x, y) && ExactAt(taps, x, y)
    requires Reaches(StepsOf(taps, w, sqrt), ex, ey, n, x, y, cfg) && n < cfg.maxIterations
    ensures Iterate(StepsOf(taps, w, sqrt), ex, ey, 0, cfg)
         == if StepAt(taps, w, x, y, sqrt).Singular? then Degenerate
            else if cfg.convergenceThresh > 0.0 then Solved(x, y, n + 1) else NoConvergence
  {
    hide StepAt;
    var steps := StepsOf(taps, w, sqrt);
    ExactIsFixed(taps, w, x, y, sqrt);
    IterateReaches(steps, ex, ey, n, x, y, 0, cfg);
    if steps(x, y).Step? && cfg.convergenceThresh <= 0.0 { IterateRests(steps, x, y, n, cfg); }
  }

  // ---------------------------------------------------------------- ranges determine the position

  lemma CommonChord(t: Tap, s: Tap, x: real, y: real, p: real, q: real)
    requires Reach(t, x, y) == Reach(t, p, q) && Reach(s, x, y) == Reach(s, p, q)
    ensures Lin(x - p, y - q, s.x - t.x, s.y - t.y) == 0.0
  {
  }

  lemma OnlyZero(u: real, v: real, a: real, b: real, c: real, d: real)
    requires Lin(u, v, a, b) == 0.0 && Lin(u, v, c, d) == 0.0 && Cross(a, b, c, d) != 0.0
    ensures u == 0.0 && v == 0.0
  {
    assert Times(u, Cross(a, b, c, d)) == Times(Lin(u, v, a, b), d) - Times(Lin(u, v, c, d), b);
    assert Times(v, Cross(a, b, c, d)) == Times(Lin(u, v, c, d), a) - Times(Lin(u, v, a, b), c);
  }

  /** Twice the area of the triangle that a tap spans with the first two. */
  function Doubled(s: Tap, t: Tap, u: Tap): real {
    Abs(Cross(t.x - s.x, t.y - s.y, u.x - s.x, u.y - s.y))
  }

  /** Collinear: fewer than three taps, the first two within 1 m, or no triangle with them of 100 square metres. */
  lemma CollinearIff(taps: seq<Tap>, sqrt: real -> real)
    requires SqrtLaw(sqrt)
    ensures Collinear(taps, sqrt) <==>
              || |taps| < 3 || Reach(taps[0], taps[1].x, taps[1].y) < 1.0
              || forall i :: 2 <= i < |taps| ==> Doubled(taps[0], taps[1], taps[i]) < 2.0 * 100.0
  {
    hide NormSq;
    hide Cross;
    if |taps| >= 3 {
      var d := sqrt(Reach(taps[0], taps[1].x, taps[1].y));
      RootOfReach(taps[0], taps[1].x, taps[1].y, sqrt);
      SqOrder(d, 1.0);
    }
  }

  /** Taps that pass the collinearity test measure at most one position: exact ranges fix it. */
  lemma TruthIsUnique(taps: seq<Tap>, x: real, y: real, p: real, q: real, sqrt: real -> real)
    requires !Collinear(taps, sqrt) && ExactAt(taps, x, y) && ExactAt(taps, p, q)
    ensures x == p && y == q
  {
    hide Reach;
    hide Cross;
    hide Lin;
    hide Sq;
    hide NormSq;
    var a, b := taps[1].x - taps[0].x, taps[1].y - taps[0].y;
    var i :| 2 <= i < |taps| && Abs(Cross(a, b, taps[i].x - taps[0].x, taps[i].y - taps[0].y)) >= 200.0;
    CommonChord(taps[0], taps[1], x, y, p, q);
    CommonChord(taps[0], taps[i], x, y, p, q);
    OnlyZero(x - p, y - q, a, b, taps[i].x - taps[0].x, taps[i].y - taps[0].y);
  }

  // ---------------------------------------------------------------- valid taps and inliers

  function IsValid(taps: seq<Tap>): nat -> bool {
    i => 0 <= i < |taps| && taps[i].distance > 0.0 && taps[i].uncertainty > 0.0
  }

  lemma {:induction false} ValidUpTo(taps: seq<Tap>, n: nat) returns (ix: seq<nat>)
    requires n <= |taps|
    ensures Lists(ix, n, IsValid(taps)) && ValidTaps(taps[..n]) == Pick(taps, ix)
  {
    if n == 0 {
      ix := [];
    } else {
      var before := ValidUpTo(taps, n - 1);
      assert taps[..n][..n - 1] == taps[..n - 1];
      ListsSnoc(before, n - 1, IsValid(taps));
      PickSnoc(taps, before, n - 1, IsValid(taps)(n - 1));
      ix := Listed(before, n - 1, IsValid(taps)(n - 1));
    }
  }

  /** Validation keeps, in order, exactly the taps with a positive range and a positive uncertainty. */
  lemma ValidTapsPick(taps: seq<Tap>) returns (ix: seq<nat>)
    ensures Lists(ix, |taps|, IsValid(taps)) && ValidTaps(taps) == Pick(taps, ix)
  {
    ix := ValidUpTo(taps, |taps|);
    assert taps[..|taps|] == taps;
  }

  /** (x, y) lies in the ring of half-width t around the circle of the measured range. */
  ghost predicate InRing(tap: Tap, x: real, y: real, t: real) {
    var outer, inner := tap.distance + t, tap.distance - t;
    outer >= 0.0 && Reach(tap, x, y) <= Sq(outer) && (inner <= 0.0 || Sq(inner) <= Reach(tap, x, y))
  }

  lemma RingIff(tap: Tap, x: real, y: real, t: real, d: real)
    requires IsSqrt(d, Reach(tap, x, y))
    ensures Abs(tap.distance - d) <= t <==> InRing(tap, x, y, t)
  {
    hide Reach;
    if tap.distance + t >= 0.0 { SqOrder(d, tap.distance + t); }
    if tap.distance - t >= 0.0 { SqOrder(tap.distance - t, d); }
  }

  lemma {:induction false} AbsResidualsAt(taps: seq<Tap>, x: real, y: real, sqrt: real -> real)
    ensures forall i :: 0 <= i < |taps| ==>
              AbsResiduals(taps, x, y, sqrt)[i] == Abs(taps[i].distance - sqrt(Reach(taps[i], x, y)))
  {
    hide NormSq;
    if taps != [] { AbsResidualsAt(taps[..|taps| - 1], x, y, sqrt); }
  }

  ghost function StaysIn(taps: seq<Tap>, x: real, y: real, t: real): nat -> bool {
    i => 0 <= i < |taps| && InRing(taps[i], x, y, t)
  }

  lemma NothingKept(taps: seq<Tap>, r: seq<real>, t: real, p: nat -> bool)
    requires |taps| == |r|
    ensures Survivors(taps[..0], r[..0], t) == [] == Pick(taps, []) && Lists([], 0, p)
  {
  }

  lemma SurvivorsSnoc(taps: seq<Tap>, r: seq<real>, t: real, n: nat)
    requires n < |taps| == |r|
    ensures Survivors(taps[..n + 1], r[..n + 1], t)
         == Survivors(taps[..n], r[..n], t) + (if r[n] <= t then [taps[n]] else [])
  {
    assert taps[..n + 1][..n] == taps[..n] && r[..n + 1][..n] == r[..n];
  }

  lemma {:induction false} SurvivorsUpTo(taps: seq<Tap>, r: seq<real>, t: real, p: nat -> bool, n: nat)
    returns (ix: seq<nat>)
    requires n <= |taps| == |r| && forall i :: 0 <= i < |taps| ==> (r[i] <= t <==> p(i))
    ensures Lists(ix, n, p) && Survivors(taps[..n], r[..n], t) == Pick(taps, ix)
  {
    hide Survivors;
    hide Lists;
    if n == 0 {
      ix := [];
      NothingKept(taps, r, t, p);
    } else {
      var before := SurvivorsUpTo(taps, r, t, p, n - 1);
      SurvivorsSnoc(taps, r, t, n - 1);
      ListsSnoc(before, n - 1, p);
      PickSnoc(taps, before, n - 1, p(n - 1));
      ix := Listed(before, n - 1, p(n - 1));
    }
  }

  /** The inliers are, in order, exactly the taps whose ring at the threshold holds the estimate. */
  lemma InliersPick(taps: seq<Tap>, x: real, y: real, cfg: Config, sqrt: real -> real) returns (ix: seq<nat>)
    requires SqrtLaw(sqrt)
    ensures var t := Threshold(AbsResiduals(taps, x, y, sqrt), cfg.outlierThresholdSigma, sqrt);
            Lists(ix, |taps|, StaysIn(taps, x, y, t)) && Inliers(taps, x, y, cfg, sqrt) == Pick(taps, ix)
  {
    hide InRing;
    hide Threshold;
    hide Reach;
    var r := AbsResiduals(taps, x, y, sqrt);
    var t := Threshold(r, cfg.outlierThresholdSigma, sqrt);
    AbsResidualsAt(taps, x, y, sqrt);
    forall i | 0 <= i < |taps| ensures r[i] <= t <==> InRing(taps[i], x, y, t) {
      RootOfReach(taps[i], x, y, sqrt);
      RingIff(taps[i], x, y, t, sqrt(Reach(taps[i], x, y)));
    }
    ix := SurvivorsUpTo(taps, r, t, StaysIn(taps, x, y, t), |taps|);
    assert taps[..|taps|] == taps && r[..|taps|] == r;
  }

  /** Rejection never drops a tap whose range is exact at the estimate, so an exact first fix is final. */
  lemma ExactFixIsFinal(taps: seq<Tap>, cfg: Config, sqrt: real -> real)
    requires SqrtLaw(sqrt) && taps != [] && cfg.outlierThresholdSigma >= 0.0
    requires var s := SolveFor(taps, cfg, sqrt);
             s.Solved? && ExactAt(taps, s.x, s.y)
    ensures Locate(taps, cfg, sqrt) == Report(SolveFor(taps, cfg, sqrt), |taps|)
  {
    hide SolveFor;
    hide Reach;
    var s := SolveFor(taps, cfg, sqrt);
    var r := AbsResiduals(taps, s.x, s.y, sqrt);
    AbsResidualsAt(taps, s.x, s.y, sqrt);
    forall i | 0 <= i < |taps| ensures r[i] == 0.0 {
      RootOfReach(taps[i], s.x, s.y, sqrt);
      SameRoot(taps[i].distance, sqrt(Reach(taps[i], s.x, s.y)));
    }
    var t := Threshold(r, cfg.outlierThresholdSigma, sqrt);
    ThresholdSquare(r, cfg.outlierThresholdSigma, sqrt);
    NothingDropped(r, t);
  }

  lemma {:induction false} NothingDropped(r: seq<real>, t: real)
    requires AllZero(r) && t >= 0.0
    ensures Dropped(r, t) == 0
  {
    if r != [] { NothingDropped(r[..|r| - 1], t); }
  }
}
