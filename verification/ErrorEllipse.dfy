/**
 The uncertainty ellipse of a trilaterated position: eigenvalues of the covariance
 sigma^2 * (H'WH)^-1, turned into clamped semi-axes and a circular error.
 */
module ErrorEllipse {
  import opened RealMath
  import opened LeastSquares
  import opened Outliers
  import opened Taps
  import opened Trilateration

  datatype Cov2 = Cov2(xx: real, xy: real, yy: real)

  function Trace(c: Cov2): real {
    c.xx + c.yy
  }

  function Discriminant(c: Cov2): real {
    Trace(c) * Trace(c) - 4.0 * Det2(c.xx, c.xy, c.yy)
  }

  function Major(c: Cov2, sqrt: real -> real): real {
    (Trace(c) + sqrt(Discriminant(c))) / 2.0
  }

  function Minor(c: Cov2, sqrt: real -> real): real {
    (Trace(c) - sqrt(Discriminant(c))) / 2.0
  }

  function Variance(rr: real, n: nat): real {
    Max(rr / Dof(n), 1.0)
  }

  /** sigma^2 times the inverse of the normal matrix. */
  function Covariance(s2: real, m: Normal): Cov2
    requires Det2(m.xx, m.xy, m.yy) != 0.0
  {
    var det := Det2(m.xx, m.xy, m.yy);
    Cov2(s2 * m.yy / det, -s2 * m.xy / det, s2 * m.xx / det)
  }

  ghost predicate PosDef2(c: Cov2) {
    c.xx >= 0.0 && c.yy >= 0.0 && Det2(c.xx, c.xy, c.yy) > 0.0
  }

  lemma CovariancePosDef(s2: real, m: Normal)
    requires s2 >= 1.0 && m.xx >= 0.0 && m.yy >= 0.0 && Det2(m.xx, m.xy, m.yy) > 0.0
    ensures PosDef2(Covariance(s2, m))
  {
  }

  /** The covariance times the normal matrix is the residual variance times the identity. */
  lemma CovarianceInverts(s2: real, m: Normal)
    requires Det2(m.xx, m.xy, m.yy) != 0.0
    ensures var c := Covariance(s2, m);
            && Lin(c.xx, c.xy, m.xx, m.xy) == s2 && Lin(c.xx, c.xy, m.xy, m.yy) == 0.0
            && Lin(c.xy, c.yy, m.xx, m.xy) == 0.0 && Lin(c.xy, c.yy, m.xy, m.yy) == s2
  {
  }

  /** The residual variance accounts for the whole weighted residual energy, and is never below 1. */
  lemma VarianceOf(rr: real, n: nat)
    ensures Variance(rr, n) >= 1.0 && Times(Variance(rr, n), Dof(n)) >= rr
    ensures Variance(rr, n) > 1.0 ==> Times(Variance(rr, n), Dof(n)) == rr
  {
    DivCancel(rr, Dof(n));
    if rr / Dof(n) < 1.0 { MulMonotone(rr / Dof(n), 1.0, Dof(n)); }
  }

  /**
   Eigenvalues of a positive definite covariance are real, positive, ordered, and the roots of its
   characteristic polynomial.
   */
  lemma Spectrum(c: Cov2, sqrt: real -> real)
    requires PosDef2(c) && SqrtLaw(sqrt)
    ensures Discriminant(c) >= 0.0
    ensures Major(c, sqrt) >= Minor(c, sqrt) > 0.0
    ensures Major(c, sqrt) + Minor(c, sqrt) == Trace(c)
    ensures Times(Major(c, sqrt), Minor(c, sqrt)) == Det2(c.xx, c.xy, c.yy)
  {
    var t, d := Trace(c), Discriminant(c);
    DiscriminantForm(c);
    SqSign(c.xx - c.yy);
    SqSign(c.xy);
    var root := sqrt(d);
    assert IsSqrt(root, d);
    assert Sq(t) == t * t;
    SqOrder(root, t);
    SpectrumProduct(t, root, Det2(c.xx, c.xy, c.yy));
  }

  lemma DiscriminantForm(c: Cov2)
    ensures Discriminant(c) == Sq(c.xx - c.yy) + 4.0 * Sq(c.xy)
  {
  }

  lemma SpectrumProduct(t: real, root: real, det: real)
    requires Sq(root) == t * t - 4.0 * det
    ensures Times((t + root) / 2.0, (t - root) / 2.0) == det
  {
  }

  /** The variance in every direction lies between the two eigenvalues. */
  lemma EllipseCoversDirections(c: Cov2, sqrt: real -> real, u: real, v: real)
    requires PosDef2(c) && SqrtLaw(sqrt)
    ensures Times(Minor(c, sqrt), NormSq(u, v)) <= Quad(c.xx, c.xy, c.yy, u, v) <= Times(Major(c, sqrt), NormSq(u, v))
  {
    hide Quad;
    hide NormSq;
    hide Times;
    var root, e := sqrt(Discriminant(c)), (c.xx - c.yy) / 2.0;
    Spectrum(c, sqrt);
    assert IsSqrt(root, Discriminant(c));
    DiscriminantForm(c);
    HalfGap(c.xx - c.yy, c.xy, root);
    var h := root / 2.0;
    assert Sq(-e) == Sq(e) && Sq(-c.xy) == Sq(c.xy);
    DirectionalGap(h, e, c.xy, u, v);
    DirectionalGap(h, -e, -c.xy, u, v);
    SplitForm(Trace(c) / 2.0, e, c.xy, u, v);
    SplitScale(Trace(c) / 2.0, h, NormSq(u, v));
  }

  lemma SplitForm(t: real, e: real, b: real, u: real, v: real)
    ensures Quad(t + e, b, t - e, u, v) == Times(t, NormSq(u, v)) + Quad(e, b, -e, u, v)
    ensures Quad(-e, -b, e, u, v) == -Quad(e, b, -e, u, v)
  {
  }

  lemma SplitScale(t: real, h: real, n: real)
    ensures Times(t + h, n) == Times(t, n) + Times(h, n)
    ensures Times(t - h, n) == Times(t, n) - Times(h, n)
  {
  }

  lemma HalfGap(gap: real, xy: real, root: real)
    requires root >= 0.0 && Sq(root) == Sq(gap) + 4.0 * Sq(xy)
    ensures Sq(root / 2.0) == Sq(gap / 2.0) + Sq(xy) && root / 2.0 >= 0.0
  {
  }

  /** h * |(u, v)|^2 dominates the traceless form (e, b, -e) when h^2 = e^2 + b^2. */
  lemma DirectionalGap(h: real, e: real, b: real, u: real, v: real)
    requires h >= 0.0 && Sq(h) == Sq(e) + Sq(b)
    ensures Quad(e, b, -e, u, v) <= Times(h, NormSq(u, v))
  {
    NormSqSign(u, v);
    SqSign(b);
    SqOrderAbs(e, h);
    if h == e {
      assert Sq(b) == 0.0;
      SqSign(b);
      assert Quad(e, 0.0, -e, u, v) == Times(h, u * u) - Times(h, v * v);
      MulNonNegative(h, v * v);
    } else {
      var p := h - e;
      GapSquare(h, e, b, u, v);
      SqSign(p * u - b * v);
      var gap := Times(h, NormSq(u, v)) - Quad(e, b, -e, u, v);
      if gap < 0.0 { MulStrictlyMonotone(gap, 0.0, p); }
    }
  }

  lemma SqOrderAbs(e: real, h: real)
    requires h >= 0.0 && Sq(e) <= Sq(h)
    ensures -h <= e <= h
  {
    if e >= 0.0 {
      SqOrder(e, h);
    } else {
      SqOrder(-e, h);
      assert Sq(-e) == Sq(e);
    }
  }

  lemma GapSquare(h: real, e: real, b: real, u: real, v: real)
    requires Sq(h) == Sq(e) + Sq(b)
    ensures (Times(h, NormSq(u, v)) - Quad(e, b, -e, u, v)) * (h - e) == Sq((h - e) * u - b * v)
  {
  }

  // ---------------------------------------------------------------- the computation

  datatype Ellipse = Ellipse(errorM: real, semiMajor: real, semiMinor: real)

  /** The reported ellipse of a covariance: clamped semi-axes and clamped total standard deviation. */
  function EllipseOf(c: Cov2, sqrt: real -> real): Ellipse {
    var major := Clamp(sqrt(Major(c, sqrt)), 10.0, 5000.0);
    Ellipse(Clamp(sqrt(Trace(c)), 10.0, 5000.0), major, Min(Max(sqrt(Minor(c, sqrt)), 5.0), major))
  }

  ghost predicate InRange(e: Ellipse) {
    5.0 <= e.semiMinor <= e.semiMajor && 10.0 <= e.semiMajor <= 5000.0 && 10.0 <= e.errorM <= 5000.0
  }

  /** e is the square root of x, cut off at lo and hi. */
  ghost predicate RootBetween(e: real, x: real, lo: real, hi: real) {
    if x < Sq(lo) then e == lo else if x > Sq(hi) then e == hi else e >= 0.0 && Sq(e) == x
  }

  lemma ClampedRoot(x: real, lo: real, hi: real, root: real)
    requires IsSqrt(root, x) && 0.0 <= lo <= hi
    ensures RootBetween(Clamp(root, lo, hi), x, lo, hi)
  {
    SqOrder(root, lo);
    SqOrder(hi, root);
  }

  /** The semi-axes are the roots of the eigenvalues and the error that of their sum, within 10 m (5 m) and 5 km. */
  lemma AxesAreRoots(c: Cov2, sqrt: real -> real)
    requires PosDef2(c) && SqrtLaw(sqrt)
    ensures var e := EllipseOf(c, sqrt);
            && RootBetween(e.semiMajor, Major(c, sqrt), 10.0, 5000.0) && RootBetween(e.errorM, Trace(c), 10.0, 5000.0)
            && RootBetween(e.semiMinor, Minor(c, sqrt), 5.0, 5000.0)
  {
    hide RootBetween;
    hide Sq;
    hide Times;
    hide Det2;
    Spectrum(c, sqrt);
    var major, minor := sqrt(Major(c, sqrt)), sqrt(Minor(c, sqrt));
    assert IsSqrt(major, Major(c, sqrt)) && IsSqrt(minor, Minor(c, sqrt)) && IsSqrt(sqrt(Trace(c)), Trace(c));
    SqOrder(minor, major);
    ClampedRoot(Major(c, sqrt), 10.0, 5000.0, major);
    ClampedRoot(Trace(c), 10.0, 5000.0, sqrt(Trace(c)));
    ClampedRoot(Minor(c, sqrt), 5.0, 5000.0, minor);
    assert EllipseOf(c, sqrt).semiMinor == Clamp(minor, 5.0, 5000.0);
  }

  lemma {:induction false} SumOfSquaresSign(w: seq<real>, f: seq<real>)
    requires |w| == |f| && Positive(w)
    ensures Sum3(w, f, f) >= 0.0
  {
    if w != [] {
      var n := |w| - 1;
      SumOfSquaresSign(w[..n], f[..n]);
      WeightedSquare(w[n], f[n]);
      assert Prod3(w[n], f[n], f[n]) == WSquare(w[n], f[n]);
    }
  }

  /** Accumulates the normal matrix and the weighted residual energy at the estimate. */
  method Moments(taps: seq<Tap>, w: seq<real>, ex: real, ey: real, sqrt: real -> real) returns (m: Normal, rr: real)
    requires |w| == |taps|
    ensures var jx, jy := JacobianX(taps, ex, ey, sqrt), JacobianY(taps, ex, ey, sqrt);
            var r := Residuals(taps, ex, ey, sqrt);
            m == NormalOf(w, jx, jy, r) && rr == Sum3(w, r, r)
  {
    var residuals, jx, jy := Linearise(taps, ex, ey, sqrt);
    m := Accumulate(w, jx, jy, residuals);
    rr := 0.0;
    for i := 0 to |w|
      invariant rr == Sum3(w[..i], residuals[..i], residuals[..i])
    {
      assert w[..i + 1][..i] == w[..i] && residuals[..i + 1][..i] == residuals[..i];
      rr := rr + Prod3(w[i], residuals[i], residuals[i]);
    }
    assert w[..|w|] == w && residuals[..|w|] == residuals;
  }

  /** The eigenvalue step, with every guard of the code. For a positive definite covariance no guard fires. */
  method Axes(c: Cov2, sqrt: real -> real) returns (e: Ellipse)
    requires PosDef2(c) && SqrtLaw(sqrt)
    ensures e == EllipseOf(c, sqrt) && InRange(e)
  {
    hide Det2;
    hide Sq;
    hide Times;
    var trace := Trace(c);
    var discriminant := Discriminant(c);
    var lambda1, lambda2;
    Spectrum(c, sqrt);
    if discriminant < 0.0 {
      lambda1, lambda2 := 0.5 * trace, 0.5 * trace;
    } else {
      var sqrtDisc := sqrt(discriminant);
      lambda1, lambda2 := (trace + sqrtDisc) / 2.0, (trace - sqrtDisc) / 2.0;
    }
    if lambda1 < 0.0 { lambda1 := 1.0; }
    if lambda2 < 0.0 { lambda2 := 1.0; }
    var semiMajor, semiMinor := sqrt(lambda1), sqrt(lambda2);
    assert IsSqrt(semiMajor, lambda1) && IsSqrt(semiMinor, lambda2);
    SqOrder(semiMinor, semiMajor);
    if semiMinor > semiMajor { semiMajor, semiMinor := semiMinor, semiMajor; }
    var errorM := sqrt(Sq(semiMajor) + Sq(semiMinor));
    assert Sq(semiMajor) + Sq(semiMinor) == trace;
    if errorM < 10.0 { errorM := 10.0; }
    if errorM > 5000.0 { errorM := 5000.0; }
    if semiMajor < 10.0 { semiMajor := 10.0; }
    if semiMajor > 5000.0 { semiMajor := 5000.0; }
    if semiMinor < 5.0 { semiMinor := 5.0; }
    if semiMinor > semiMajor { semiMinor := semiMajor; }
    e := Ellipse(errorM, semiMajor, semiMinor);
  }

  method ComputeErrorEllipse(taps: seq<Tap>, w: seq<real>, ex: real, ey: real, sqrt: real -> real) returns (e: Ellipse)
    requires |w| == |taps| && Positive(w) && SqrtLaw(sqrt)
    ensures InRange(e)
    ensures var jx, jy := JacobianX(taps, ex, ey, sqrt), JacobianY(taps, ex, ey, sqrt);
            var r := Residuals(taps, ex, ey, sqrt);
            var m := NormalOf(w, jx, jy, r);
            if |taps| < 2 then e == Ellipse(100.0, 100.0, 100.0)
            else if CrossSum(w, jx, jy) < 0.0000000001 then e == Ellipse(500.0, 500.0, 500.0)
            else
              && Det2(m.xx, m.xy, m.yy) > 0.0
              && e == EllipseOf(Covariance(Variance(Sum3(w, r, r), |taps|), m), sqrt)
  {
    if |taps| < 2 { return Ellipse(100.0, 100.0, 100.0); }
    var m, rr := Moments(taps, w, ex, ey, sqrt);
    ghost var jx, jy := JacobianX(taps, ex, ey, sqrt), JacobianY(taps, ex, ey, sqrt);
    DetIsCrossSum(w, jx, jy);
    DetSign(w, jx, jy);
    SumOfSquaresSign(w, jx);
    SumOfSquaresSign(w, jy);
    hide *;
    e := FromMoments(|taps|, m, rr, sqrt);
  }

  /** Residual variance, singularity test, covariance and axes from the accumulated sums. */
  method FromMoments(n: nat, m: Normal, rr: real, sqrt: real -> real) returns (e: Ellipse)
    requires SqrtLaw(sqrt) && m.xx >= 0.0 && m.yy >= 0.0 && Det2(m.xx, m.xy, m.yy) >= 0.0
    ensures InRange(e)
    ensures if Det2(m.xx, m.xy, m.yy) < 0.0000000001 then e == Ellipse(500.0, 500.0, 500.0)
            else e == EllipseOf(Covariance(Variance(rr, n), m), sqrt)
  {
    var sigmaSquared := rr / Dof(n);
    if sigmaSquared < 1.0 { sigmaSquared := 1.0; }
    var det := Det2(m.xx, m.xy, m.yy);
    if Abs(det) < 0.0000000001 { return Ellipse(500.0, 500.0, 500.0); }
    CovariancePosDef(sigmaSquared, m);
    e := Axes(Covariance(sigmaSquared, m), sqrt);
  }
}
