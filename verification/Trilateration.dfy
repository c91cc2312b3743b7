/**
 Position from tap distances: damped Gauss-Newton iterations on the weighted range
 residuals, followed by one outlier rejection and re-solve. Taps are given in a local
 metre frame.
 */
module Trilateration {
  import opened RealMath
  import opened LeastSquares
  import opened Outliers
  import opened Taps
  import opened InitialEstimate

  const MAX_STEP_M := 500.0

  // ---------------------------------------------------------------- one step, as a function

  function PredDist(t: Tap, ex: real, ey: real, sqrt: real -> real): (d: real)
    ensures d >= 1.0
  {
    var d := sqrt(NormSq(ex - t.x, ey - t.y));
    if d < 1.0 then 1.0 else d
  }

  function Quotient(x: real, y: real): real
    requires y != 0.0
  {
    x / y
  }

  function Residuals(taps: seq<Tap>, ex: real, ey: real, sqrt: real -> real): (r: seq<real>)
    ensures |r| == |taps|
    ensures forall i :: 0 <= i < |taps| ==> r[i] == taps[i].distance - PredDist(taps[i], ex, ey, sqrt)
  {
    seq(|taps|, i requires 0 <= i < |taps| => taps[i].distance - PredDist(taps[i], ex, ey, sqrt))
  }

  function JacobianX(taps: seq<Tap>, ex: real, ey: real, sqrt: real -> real): (r: seq<real>)
    ensures |r| == |taps|
    ensures forall i :: 0 <= i < |taps| ==> r[i] == Quotient(ex - taps[i].x, PredDist(taps[i], ex, ey, sqrt))
  {
    seq(|taps|, i requires 0 <= i < |taps| => Quotient(ex - taps[i].x, PredDist(taps[i], ex, ey, sqrt)))
  }

  function JacobianY(taps: seq<Tap>, ex: real, ey: real, sqrt: real -> real): (r: seq<real>)
    ensures |r| == |taps|
    ensures forall i :: 0 <= i < |taps| ==> r[i] == Quotient(ey - taps[i].y, PredDist(taps[i], ex, ey, sqrt))
  {
    seq(|taps|, i requires 0 <= i < |taps| => Quotient(ey - taps[i].y, PredDist(taps[i], ex, ey, sqrt)))
  }

  /** The normal equations J'WJ * delta = J'W * residuals. */
  datatype Normal = Normal(xx: real, xy: real, yy: real, rx: real, ry: real)

  function NormalOf(w: seq<real>, jx: seq<real>, jy: seq<real>, r: seq<real>): Normal
    requires |w| == |jx| == |jy| == |r|
  {
    Normal(Sum3(w, jx, jx), Sum3(w, jx, jy), Sum3(w, jy, jy), Sum3(w, jx, r), Sum3(w, jy, r))
  }

  datatype StepResult = Singular | Step(dx: real, dy: real, len: real)

  function Cramer(a: real, b: real, c: real, d: real, det: real): real
    requires det != 0.0
  {
    (a * b - c * d) / det
  }

  /** The unclamped step of a non-singular system. */
  function FullX(m: Normal): real
    requires Det2(m.xx, m.xy, m.yy) != 0.0
  {
    Cramer(m.yy, m.rx, m.xy, m.ry, Det2(m.xx, m.xy, m.yy))
  }

  function FullY(m: Normal): real
    requires Det2(m.xx, m.xy, m.yy) != 0.0
  {
    Cramer(m.xx, m.ry, m.xy, m.rx, Det2(m.xx, m.xy, m.yy))
  }

  /** Solve for the step; scale it down to 500 m if it is longer. */
  function DampedStep(m: Normal, sqrt: real -> real): StepResult {
    var det := Det2(m.xx, m.xy, m.yy);
    if Abs(det) < 0.000000000001 then Singular
    else
      var dx, dy := FullX(m), FullY(m);
      var len := sqrt(NormSq(dx, dy));
      if len > MAX_STEP_M then Step(Times(MAX_STEP_M / len, dx), Times(MAX_STEP_M / len, dy), len)
      else Step(dx, dy, len)
  }

  function StepAt(taps: seq<Tap>, w: seq<real>, ex: real, ey: real, sqrt: real -> real): StepResult
    requires |w| == |taps|
  {
    DampedStep(NormalOf(w, JacobianX(taps, ex, ey, sqrt), JacobianY(taps, ex, ey, sqrt), Residuals(taps, ex, ey, sqrt)),
               sqrt)
  }

  datatype Solution = Degenerate | NoConvergence | Solved(x: real, y: real, iterations: nat)

  type StepFn = (real, real) -> StepResult

  function StepsOf(taps: seq<Tap>, w: seq<real>, sqrt: real -> real): StepFn
    requires |w| == |taps|
  {
    (x, y) => StepAt(taps, w, x, y, sqrt)
  }

  /** The remaining iterations from estimate (ex, ey) after k of them. */
  function Iterate(steps: StepFn, ex: real, ey: real, k: nat, cfg: Config): Solution
    decreases cfg.maxIterations - k
  {
    if k >= cfg.maxIterations then NoConvergence
    else
      match steps(ex, ey)
      case Singular => Degenerate
      case Step(dx, dy, len) =>
        if len < cfg.convergenceThresh then Solved(ex + dx, ey + dy, k + 1)
        else Iterate(steps, ex + dx, ey + dy, k + 1, cfg)
  }

  // ---------------------------------------------------------------- the solver loops

  method Linearise(taps: seq<Tap>, ex: real, ey: real, sqrt: real -> real)
    returns (residuals: seq<real>, jx: seq<real>, jy: seq<real>)
    ensures residuals == Residuals(taps, ex, ey, sqrt)
    ensures jx == JacobianX(taps, ex, ey, sqrt) && jy == JacobianY(taps, ex, ey, sqrt)
  {
    hide Quotient;
    hide NormSq;
    residuals, jx, jy := [], [], [];
    for i := 0 to |taps|
      invariant residuals == Residuals(taps, ex, ey, sqrt)[..i]
      invariant jx == JacobianX(taps, ex, ey, sqrt)[..i] && jy == JacobianY(taps, ex, ey, sqrt)[..i]
    {
      var dx, dy := ex - taps[i].x, ey - taps[i].y;
      var predDist := sqrt(NormSq(dx, dy));
      if predDist < 1.0 { predDist := 1.0; }
      residuals := residuals + [taps[i].distance - predDist];
      jx := jx + [Quotient(dx, predDist)];
      jy := jy + [Quotient(dy, predDist)];
    }
  }

  method Accumulate(w: seq<real>, jx: seq<real>, jy: seq<real>, r: seq<real>) returns (m: Normal)
    requires |w| == |jx| == |jy| == |r|
    ensures m == NormalOf(w, jx, jy, r)
  {
    var xx, xy, yy, rx, ry := 0.0, 0.0, 0.0, 0.0, 0.0;
    for i := 0 to |w|
      invariant Normal(xx, xy, yy, rx, ry) == NormalOf(w[..i], jx[..i], jy[..i], r[..i])
    {
      xx := xx + Prod3(w[i], jx[i], jx[i]);
      xy := xy + Prod3(w[i], jx[i], jy[i]);
      yy := yy + Prod3(w[i], jy[i], jy[i]);
      rx := rx + Prod3(w[i], jx[i], r[i]);
      ry := ry + Prod3(w[i], jy[i], r[i]);
      assert w[..i + 1][..i] == w[..i] && jx[..i + 1][..i] == jx[..i];
      assert jy[..i + 1][..i] == jy[..i] && r[..i + 1][..i] == r[..i];
    }
    assert w[..|w|] == w && jx[..|w|] == jx && jy[..|w|] == jy && r[..|w|] == r;
    m := Normal(xx, xy, yy, rx, ry);
  }

  method Solve(taps: seq<Tap>, w: seq<real>, startX: real, startY: real, cfg: Config, sqrt: real -> real)
    returns (s: Solution)
    requires |w| == |taps|
    ensures s == Iterate(StepsOf(taps, w, sqrt), startX, startY, 0, cfg)
  {
    hide StepsOf;
    var ex, ey := startX, startY;
    ghost var steps := StepsOf(taps, w, sqrt);
    for iterations := 0 to cfg.maxIterations
      invariant Iterate(steps, ex, ey, iterations, cfg) == Iterate(steps, startX, startY, 0, cfg)
    {
      var step := StepFrom(taps, w, ex, ey, sqrt, steps);
      if step.Singular? { return Degenerate; }
      ex := ex + step.dx;
      ey := ey + step.dy;
      if step.len < cfg.convergenceThresh { return Solved(ex, ey, iterations + 1); }
    }
    return NoConvergence;
  }

  method StepFrom(taps: seq<Tap>, w: seq<real>, ex: real, ey: real, sqrt: real -> real, ghost steps: StepFn)
    returns (step: StepResult)
    requires |w| == |taps| && steps == StepsOf(taps, w, sqrt)
    ensures step == steps(ex, ey)
  {
    var residuals, jx, jy := Linearise(taps, ex, ey, sqrt);
    var m := Accumulate(w, jx, jy, residuals);
    step := SolveNormal(m, sqrt);
  }

  /** Cramer's rule, then the clamp. */
  method SolveNormal(m: Normal, sqrt: real -> real) returns (step: StepResult)
    ensures step == DampedStep(m, sqrt)
  {
    var det := Det2(m.xx, m.xy, m.yy);
    if Abs(det) < 0.000000000001 { return Singular; }
    var deltaX := Cramer(m.yy, m.rx, m.xy, m.ry, det);
    var deltaY := Cramer(m.xx, m.ry, m.xy, m.rx, det);
    var stepLen := sqrt(NormSq(deltaX, deltaY));
    if stepLen > MAX_STEP_M {
      var scale := MAX_STEP_M / stepLen;
      deltaX := Times(scale, deltaX);
      deltaY := Times(scale, deltaY);
    }
    step := Step(deltaX, deltaY, stepLen);
  }

  // ---------------------------------------------------------------- what a step guarantees

  /** Length within a bound, without a square root. */
  ghost predicate Within(x: real, y: real, bound: real) {
    bound >= 0.0 && NormSq(x, y) <= Sq(bound)
  }

  /** The fraction of the full step that the clamp lets through. */
  function Damping(len: real): real {
    if len > MAX_STEP_M then MAX_STEP_M / len else 1.0
  }

  lemma DampingRange(len: real)
    ensures 0.0 < Damping(len) <= 1.0
    ensures len >= 0.0 ==> Damping(len) * len <= MAX_STEP_M
  {
  }

  /** The step is the exact solution of the normal equations, scaled by a factor in (0, 1], at most 500 m long. */
  lemma StepShape(m: Normal, sqrt: real -> real)
    requires SqrtLaw(sqrt) && DampedStep(m, sqrt).Step?
    ensures Det2(m.xx, m.xy, m.yy) != 0.0
    ensures NormalEquations(m.xx, m.xy, m.yy, m.rx, m.ry, FullX(m), FullY(m))
    ensures var s := DampedStep(m, sqrt);
            && s.len >= 0.0
            && s.dx == Times(Damping(s.len), FullX(m)) && s.dy == Times(Damping(s.len), FullY(m))
            && Within(s.dx, s.dy, MAX_STEP_M) && Within(s.dx, s.dy, s.len)
  {
    var x, y := FullX(m), FullY(m);
    CramerSolves(m.xx, m.xy, m.yy, m.rx, m.ry, x, y);
    NormSqSign(x, y);
    var len := sqrt(NormSq(x, y));
    assert IsSqrt(len, NormSq(x, y));
    DampingRange(len);
    ScaledWithin(x, y, len, Damping(len));
  }

  lemma ScaledWithin(x: real, y: real, len: real, k: real)
    requires len >= 0.0 && NormSq(x, y) == Sq(len) && 0.0 <= k <= 1.0 && k * len <= MAX_STEP_M
    ensures Within(Times(k, x), Times(k, y), MAX_STEP_M) && Within(Times(k, x), Times(k, y), len)
  {
    assert NormSq(Times(k, x), Times(k, y)) == Times(Sq(k), NormSq(x, y));
    SqProduct(k, len);
    MulNonNegative(k, len);
    SqOrder(k * len, MAX_STEP_M);
    MulMonotone(k, 1.0, len);
    SqOrder(k * len, len);
  }

  /** The degenerate exit means a determinant in [0, 1e-12): weighted cross products, never negative. */
  lemma DegenerateIff(w: seq<real>, jx: seq<real>, jy: seq<real>, r: seq<real>, sqrt: real -> real)
    requires |w| == |jx| == |jy| == |r| && Positive(w)
    ensures var m := NormalOf(w, jx, jy, r);
            Det2(m.xx, m.xy, m.yy) == CrossSum(w, jx, jy) >= 0.0
    ensures DampedStep(NormalOf(w, jx, jy, r), sqrt).Singular? <==> CrossSum(w, jx, jy) < 0.000000000001
  {
    DetIsCrossSum(w, jx, jy);
    DetSign(w, jx, jy);
  }

  /** The step never raises the linearised cost and never points against J'Wr. */
  lemma StepDescends(w: seq<real>, jx: seq<real>, jy: seq<real>, r: seq<real>, sqrt: real -> real, m: Normal)
    requires |w| == |jx| == |jy| == |r| && Positive(w) && SqrtLaw(sqrt)
    requires m == NormalOf(w, jx, jy, r) && DampedStep(m, sqrt).Step?
    ensures var s := DampedStep(m, sqrt);
            Cost(w, jx, jy, r, s.dx, s.dy) <= Cost(w, jx, jy, r, 0.0, 0.0) && Lin(m.rx, m.ry, s.dx, s.dy) >= 0.0
  {
    var s := DampedStep(m, sqrt);
    StepShape(m, sqrt);
    DampingRange(s.len);
    FractionDescends(w, jx, jy, r, FullX(m), FullY(m), Damping(s.len));
  }

  /** A step that is not clamped beats every other step (u, v) on the linearised cost. */
  lemma StepIsOptimal(w: seq<real>, jx: seq<real>, jy: seq<real>, r: seq<real>, sqrt: real -> real, m: Normal,
                      u: real, v: real)
    requires |w| == |jx| == |jy| == |r| && Positive(w) && SqrtLaw(sqrt)
    requires m == NormalOf(w, jx, jy, r) && DampedStep(m, sqrt).Step? && DampedStep(m, sqrt).len <= MAX_STEP_M
    ensures var s := DampedStep(m, sqrt);
            Cost(w, jx, jy, r, s.dx, s.dy) <= Cost(w, jx, jy, r, u, v)
  {
    var s := DampedStep(m, sqrt);
    StepShape(m, sqrt);
    SolutionIsLeastSquares(w, jx, jy, r, FullX(m), FullY(m), u, v);
  }

  // ---------------------------------------------------------------- what the iteration guarantees

  /** The triangle inequality for Within. */
  lemma WithinAdds(x: real, y: real, r: real, u: real, v: real, s: real)
    requires Within(x, y, r) && Within(u, v, s)
    ensures Within(x + u, y + v, r + s)
  {
    DotBound(x, y, r, u, v, s);
    assert NormSq(x + u, y + v) == NormSq(x, y) + 2.0 * Lin(x, y, u, v) + NormSq(u, v);
    assert Sq(r + s) == Sq(r) + 2.0 * Times(r, s) + Sq(s);
  }

  lemma DotBound(x: real, y: real, r: real, u: real, v: real, s: real)
    requires Within(x, y, r) && Within(u, v, s)
    ensures Lin(x, y, u, v) <= Times(r, s)
  {
    var dot := Lin(x, y, u, v);
    TimesSign(r, s);
    if dot > Times(r, s) {
      SqOrder(Times(r, s), dot);
      assert Sq(Times(r, s)) == Times(Sq(r), Sq(s));
      NormProduct(x, y, u, v);
      NormSqSign(u, v);
      SqSign(r);
      TimesMonotone(NormSq(x, y), Sq(r), NormSq(u, v));
      TimesMonotone(NormSq(u, v), Sq(s), Sq(r));
      TimesCommutes(NormSq(u, v), Sq(r));
      TimesCommutes(Sq(s), Sq(r));
    }
  }

  lemma NormProduct(x: real, y: real, u: real, v: real)
    ensures Sq(Lin(x, y, u, v)) <= Times(NormSq(x, y), NormSq(u, v))
  {
    CauchySchwarz(x, y, u, v);
  }

  /** (x, y) is one step from (px, py), and that step was shorter than the threshold. */
  ghost predicate LastStep(steps: StepFn, px: real, py: real, x: real, y: real, cfg: Config) {
    var s := steps(px, py);
    s.Step? && s.len < cfg.convergenceThresh && x == px + s.dx && y == py + s.dy
  }

  /**
   A solution is reached within the iteration limit, lies at most 500 m per iteration away
   from the start, and its last step was shorter than the convergence threshold.
   */
  lemma {:induction false} IterateStaysClose(steps: StepFn, ex: real, ey: real, k: nat, cfg: Config)
    requires forall x, y :: steps(x, y).Step? ==> Within(steps(x, y).dx, steps(x, y).dy, MAX_STEP_M)
    ensures var s := Iterate(steps, ex, ey, k, cfg);
            s.Solved? ==>
              && k < s.iterations <= cfg.maxIterations
              && Within(s.x - ex, s.y - ey, MAX_STEP_M * (s.iterations - k) as real)
              && exists px, py :: LastStep(steps, px, py, s.x, s.y, cfg)
    decreases cfg.maxIterations - k
  {
    var s := Iterate(steps, ex, ey, k, cfg);
    if s.Solved? {
      var step := steps(ex, ey);
      if step.len < cfg.convergenceThresh {
        assert LastStep(steps, ex, ey, s.x, s.y, cfg);
      } else {
        IterateStaysClose(steps, ex + step.dx, ey + step.dy, k + 1, cfg);
        var left := MAX_STEP_M * (s.iterations - k - 1) as real;
        WithinAdds(s.x - (ex + step.dx), s.y - (ey + step.dy), left, step.dx, step.dy, MAX_STEP_M);
      }
    }
  }

  /** The solver's own steps meet the 500 m bound. */
  lemma StepsAreBounded(taps: seq<Tap>, w: seq<real>, sqrt: real -> real, x: real, y: real)
    requires |w| == |taps| && SqrtLaw(sqrt)
    ensures var s := StepsOf(taps, w, sqrt)(x, y);
            s.Step? ==> Within(s.dx, s.dy, MAX_STEP_M)
  {
  }

  // ---------------------------------------------------------------- outlier rejection and the whole call

  /** Absolute range residuals at (ex, ey), without the 1 m floor of the solver. */
  function AbsResiduals(taps: seq<Tap>, ex: real, ey: real, sqrt: real -> real): (r: seq<real>)
    ensures |r| == |taps|
  {
    if taps == [] then []
    else
      var t := taps[|taps| - 1];
      AbsResiduals(taps[..|taps| - 1], ex, ey, sqrt) + [Abs(t.distance - sqrt(NormSq(ex - t.x, ey - t.y)))]
  }

  function Inliers(taps: seq<Tap>, ex: real, ey: real, cfg: Config, sqrt: real -> real): seq<Tap> {
    var r := AbsResiduals(taps, ex, ey, sqrt);
    Survivors(taps, r, Threshold(r, cfg.outlierThresholdSigma, sqrt))
  }

  method RejectOutliers(taps: seq<Tap>, ex: real, ey: real, cfg: Config, sqrt: real -> real) returns (kept: seq<Tap>)
    ensures kept == Inliers(taps, ex, ey, cfg, sqrt)
  {
    hide AbsResiduals;
    hide SumSquares;
    hide Survivors;
    hide Times;
    var residuals, residSum := MeasureResiduals(taps, ex, ey, sqrt);
    var sigma := sqrt(residSum / Dof(|taps|));
    if sigma < MIN_SIGMA { sigma := MIN_SIGMA; }
    var threshold := Times(cfg.outlierThresholdSigma, sigma);
    kept := Keep(taps, residuals, threshold);
  }

  lemma AbsResidualsSnoc(taps: seq<Tap>, t: Tap, ex: real, ey: real, sqrt: real -> real)
    ensures AbsResiduals(taps + [t], ex, ey, sqrt)
         == AbsResiduals(taps, ex, ey, sqrt) + [Abs(t.distance - sqrt(NormSq(ex - t.x, ey - t.y)))]
  {
    hide NormSq;
    assert (taps + [t])[..|taps|] == taps;
  }

  lemma SumSquaresSnoc(r: seq<real>, x: real)
    ensures SumSquares(r + [x]) == SumSquares(r) + Sq(x)
  {
    assert (r + [x])[..|r|] == r;
  }

  lemma NothingMeasured(ex: real, ey: real, sqrt: real -> real)
    ensures AbsResiduals([], ex, ey, sqrt) == [] && SumSquares([]) == 0.0
  {
  }

  method MeasureResiduals(taps: seq<Tap>, ex: real, ey: real, sqrt: real -> real)
    returns (residuals: seq<real>, residSum: real)
    ensures residuals == AbsResiduals(taps, ex, ey, sqrt) && residSum == SumSquares(residuals)
  {
    hide *;
    residuals, residSum := [], 0.0;
    NothingMeasured(ex, ey, sqrt);
    for i := 0 to |taps|
      invariant residuals == AbsResiduals(taps[..i], ex, ey, sqrt) && residSum == SumSquares(residuals)
    {
      var predDist := sqrt(NormSq(ex - taps[i].x, ey - taps[i].y));
      var residual := Abs(taps[i].distance - predDist);
      AbsResidualsSnoc(taps[..i], taps[i], ex, ey, sqrt);
      SumSquaresSnoc(residuals, residual);
      assert taps[..i + 1] == taps[..i] + [taps[i]];
      residuals := residuals + [residual];
      residSum := residSum + Sq(residual);
    }
    assert taps[..|taps|] == taps;
  }

  method Keep(taps: seq<Tap>, residuals: seq<real>, threshold: real) returns (kept: seq<Tap>)
    requires |taps| == |residuals|
    ensures kept == Survivors(taps, residuals, threshold)
  {
    kept := [];
    for i := 0 to |taps|
      invariant kept == Survivors(taps[..i], residuals[..i], threshold)
    {
      assert taps[..i + 1][..i] == taps[..i] && residuals[..i + 1][..i] == residuals[..i];
      if residuals[i] <= threshold { kept := kept + [taps[i]]; }
    }
    assert taps[..|taps|] == taps && residuals[..|taps|] == residuals;
  }

  /** Panic: the solver looks at the first of no taps. */
  datatype Outcome = InsufficientTaps | InvalidInput | DegenerateGeometry | DidNotConverge | Panic
                   | Position(x: real, y: real, iterations: nat, tapsUsed: nat)

  function ValidTaps(taps: seq<Tap>): seq<Tap> {
    if taps == [] then []
    else
      var t := taps[|taps| - 1];
      ValidTaps(taps[..|taps| - 1]) + (if t.distance > 0.0 && t.uncertainty > 0.0 then [t] else [])
  }

  function SolveFor(taps: seq<Tap>, cfg: Config, sqrt: real -> real): Solution
    requires SqrtLaw(sqrt) && taps != []
  {
    var w := Weights(taps, cfg, sqrt);
    var (x, y) := Estimate(taps, w, sqrt);
    Iterate(StepsOf(taps, w, sqrt), x, y, 0, cfg)
  }

  function Report(s: Solution, tapsUsed: nat): Outcome {
    match s
    case Degenerate => DegenerateGeometry
    case NoConvergence => DidNotConverge
    case Solved(x, y, n) => Position(x, y, n, tapsUsed)
  }

  /** The answer for taps that passed validation: one solve, and a re-solve without outliers. */
  function Locate(taps: seq<Tap>, cfg: Config, sqrt: real -> real): Outcome
    requires SqrtLaw(sqrt)
  {
    if taps == [] then Panic
    else
      var first := SolveFor(taps, cfg, sqrt);
      if first.Solved? && cfg.robustOutlierReject && |taps| > cfg.minTaps then
        var cleaned := Inliers(taps, first.x, first.y, cfg, sqrt);
        if cfg.minTaps <= |cleaned| < |taps| then
          if cleaned == [] then Panic
          else
            var second := SolveFor(cleaned, cfg, sqrt);
            if second.Solved? then Report(second, |cleaned|) else Report(first, |taps|)
        else Report(first, |taps|)
      else Report(first, |taps|)
  }

  predicate Collinear(taps: seq<Tap>, sqrt: real -> real) {
    |taps| < 3 || sqrt(NormSq(taps[1].x - taps[0].x, taps[1].y - taps[0].y)) < 1.0
    || forall i :: 2 <= i < |taps| ==>
         Abs(Cross(taps[1].x - taps[0].x, taps[1].y - taps[0].y, taps[i].x - taps[0].x, taps[i].y - taps[0].y)) < 200.0
  }

  method Trilaterate(taps: seq<Tap>, cfg: Config, sqrt: real -> real) returns (out: Outcome)
    requires SqrtLaw(sqrt)
    ensures |taps| < cfg.minTaps <==> out == InsufficientTaps
    ensures var valid := ValidTaps(taps);
            |taps| >= cfg.minTaps ==>
              if |valid| < cfg.minTaps then out == InvalidInput
              else if |valid| >= 3 && Collinear(valid, sqrt) then out == DegenerateGeometry
              else out == Locate(valid, cfg, sqrt)
  {
    hide NormSq;
    hide SolveFor;
    hide Inliers;
    hide Collinear;
    if |taps| < cfg.minTaps { return InsufficientTaps; }
    var valid: seq<Tap> := [];
    for i := 0 to |taps|
      invariant valid == ValidTaps(taps[..i])
    {
      assert taps[..i + 1][..i] == taps[..i];
      if taps[i].distance > 0.0 && taps[i].uncertainty > 0.0 { valid := valid + [taps[i]]; }
    }
    assert taps[..|taps|] == taps;
    if |valid| < cfg.minTaps { return InvalidInput; }
    var flat := IsCollinear(valid, sqrt);
    if |valid| >= 3 && flat { return DegenerateGeometry; }

    if valid == [] { return Panic; }
    var first := SolveFromCentroid(valid, cfg, sqrt);
    out := Report(first, |valid|);
    if first.Solved? && cfg.robustOutlierReject && |valid| > cfg.minTaps {
      var cleaned := RejectOutliers(valid, first.x, first.y, cfg, sqrt);
      if cfg.minTaps <= |cleaned| < |valid| {
        if cleaned == [] { return Panic; }
        var second := SolveFromCentroid(cleaned, cfg, sqrt);
        if second.Solved? { out := Report(second, |cleaned|); }
      }
    }
  }

  /** Weights, initial estimate and iteration for one set of taps. */
  method SolveFromCentroid(taps: seq<Tap>, cfg: Config, sqrt: real -> real) returns (s: Solution)
    requires SqrtLaw(sqrt) && taps != []
    ensures s == SolveFor(taps, cfg, sqrt)
  {
    hide StepsOf;
    hide Estimate;
    var w := Weights(taps, cfg, sqrt);
    var x, y := WeightedCentroidEstimate(taps, w, sqrt);
    s := Solve(taps, w, x, y, cfg, sqrt);
  }

  method IsCollinear(taps: seq<Tap>, sqrt: real -> real) returns (flat: bool)
    ensures flat == Collinear(taps, sqrt)
  {
    hide NormSq;
    hide Cross;
    if |taps| < 3 { return true; }
    var v1x, v1y := taps[1].x - taps[0].x, taps[1].y - taps[0].y;
    if sqrt(NormSq(v1x, v1y)) < 1.0 { return true; }
    var maxCross := 0.0;
    for i := 2 to |taps|
      invariant maxCross < 200.0 <==> forall l :: 2 <= l < i ==>
                  Abs(Cross(v1x, v1y, taps[l].x - taps[0].x, taps[l].y - taps[0].y)) < 200.0
    {
      var cross := Abs(Cross(v1x, v1y, taps[i].x - taps[0].x, taps[i].y - taps[0].y));
      if cross > maxCross { maxCross := cross; }
    }
    flat := maxCross < 200.0;
  }

  /** With the default settings a call on up to eight valid taps is one plain solve. */
  lemma UpToEightTapsIsOneSolve(taps: seq<Tap>, sqrt: real -> real)
    requires SqrtLaw(sqrt) && 3 <= |taps| <= 8
    ensures Locate(taps, DEFAULT_CONFIG, sqrt) == Report(SolveFor(taps, DEFAULT_CONFIG, sqrt), |taps|)
  {
    var first := SolveFor(taps, DEFAULT_CONFIG, sqrt);
    if first.Solved? {
      DefaultRejection(AbsResiduals(taps, first.x, first.y, sqrt), sqrt);
    }
  }

  /** The solver is run on no taps: there is none at first, or none is asked for and rejection leaves none. */
  lemma PanicsIff(taps: seq<Tap>, cfg: Config, sqrt: real -> real)
    requires SqrtLaw(sqrt)
    ensures Locate(taps, cfg, sqrt).Panic? <==>
            taps == [] ||
            var first := SolveFor(taps, cfg, sqrt);
            && cfg.minTaps <= 0 && cfg.robustOutlierReject && first.Solved?
            && Inliers(taps, first.x, first.y, cfg, sqrt) == []
  {
    hide SolveFor;
    hide Inliers;
  }

  /** A configuration never panics, on as many taps as it asks for, if and only if it asks for at least one. */
  lemma NeverPanicsIff(cfg: Config, sqrt: real -> real)
    requires SqrtLaw(sqrt)
    ensures (forall taps :: |taps| >= cfg.minTaps ==> !Locate(taps, cfg, sqrt).Panic?) <==> cfg.minTaps >= 1
  {
    hide SolveFor;
    hide Inliers;
    if cfg.minTaps >= 1 {
      forall taps: seq<Tap> | |taps| >= cfg.minTaps ensures !Locate(taps, cfg, sqrt).Panic? {
        PanicsIff(taps, cfg, sqrt);
      }
    } else {
      PanicsIff([], cfg, sqrt);
    }
  }

  /** A negative threshold rejects every tap, so it panics whenever no tap is asked for and the first solve succeeds. */
  lemma NegativeThresholdPanics(taps: seq<Tap>, cfg: Config, sqrt: real -> real)
    requires SqrtLaw(sqrt) && cfg.minTaps <= 0 && cfg.robustOutlierReject && cfg.outlierThresholdSigma < 0.0
    requires taps != [] && SolveFor(taps, cfg, sqrt).Solved?
    ensures Locate(taps, cfg, sqrt) == Panic
  {
    hide SolveFor;
    var first := SolveFor(taps, cfg, sqrt);
    var r := AbsResiduals(taps, first.x, first.y, sqrt);
    AbsResidualsSign(taps, first.x, first.y, sqrt);
    NegativeThreshold(r, Threshold(r, cfg.outlierThresholdSigma, sqrt));
    PanicsIff(taps, cfg, sqrt);
  }

  lemma {:induction false} AbsResidualsSign(taps: seq<Tap>, ex: real, ey: real, sqrt: real -> real)
    ensures forall i :: 0 <= i < |taps| ==> AbsResiduals(taps, ex, ey, sqrt)[i] >= 0.0
  {
    hide NormSq;
    if taps != [] { AbsResidualsSign(taps[..|taps| - 1], ex, ey, sqrt); }
  }

  /** Rejection never loses a fix unless it panics, which it does not when at least one tap is asked for. */
  lemma RejectionKeepsTheFix(taps: seq<Tap>, cfg: Config, sqrt: real -> real)
    requires SqrtLaw(sqrt) && taps != []
    ensures Locate(taps, cfg, sqrt).Position? || Locate(taps, cfg, sqrt).Panic? <==> SolveFor(taps, cfg, sqrt).Solved?
    ensures cfg.minTaps >= 1 ==> !Locate(taps, cfg, sqrt).Panic?
  {
    hide SolveFor;
    hide Inliers;
  }

  /** The taps the answer rests on: the inliers if a second solve is due and succeeds, all of them otherwise. */
  function TapsBehind(taps: seq<Tap>, cfg: Config, sqrt: real -> real): seq<Tap>
    requires SqrtLaw(sqrt) && taps != []
  {
    var first := SolveFor(taps, cfg, sqrt);
    if !first.Solved? || !cfg.robustOutlierReject then taps
    else
      var cleaned := Inliers(taps, first.x, first.y, cfg, sqrt);
      if cfg.minTaps <= |cleaned| < |taps| && cleaned != [] && SolveFor(cleaned, cfg, sqrt).Solved? then cleaned
      else taps
  }

  /** Unless it panics, an answer is the solution, or the failure, of one solve over the taps it claims to use. */
  lemma AnswerIsSolution(taps: seq<Tap>, cfg: Config, sqrt: real -> real)
    requires SqrtLaw(sqrt) && taps != [] && !Locate(taps, cfg, sqrt).Panic?
    ensures TapsBehind(taps, cfg, sqrt) != []
    ensures var out, s := Locate(taps, cfg, sqrt), SolveFor(TapsBehind(taps, cfg, sqrt), cfg, sqrt);
            && (out.DegenerateGeometry? <==> s == Degenerate) && (out.DidNotConverge? <==> s == NoConvergence)
            && (out.Position? <==> s.Solved?)
            && (s.Solved? ==>
                  out.x == s.x && out.y == s.y && out.iterations == s.iterations
                  && out.tapsUsed == |TapsBehind(taps, cfg, sqrt)|)
  {
    hide SolveFor;
    hide Inliers;
  }

  /** With the default settings rejection never leaves fewer than four of more than three taps. */
  lemma DefaultKeepsFour(taps: seq<Tap>, sqrt: real -> real)
    requires SqrtLaw(sqrt) && |taps| > 3 && Locate(taps, DEFAULT_CONFIG, sqrt).Position?
    ensures Locate(taps, DEFAULT_CONFIG, sqrt).tapsUsed > 3
  {
    hide SolveFor;
    var first := SolveFor(taps, DEFAULT_CONFIG, sqrt);
    if first.Solved? {
      DefaultRejection(AbsResiduals(taps, first.x, first.y, sqrt), sqrt);
    }
  }

  /** A position is found within the iteration limit and at most 500 m per iteration from the initial estimate. */
  lemma SolutionStaysClose(taps: seq<Tap>, cfg: Config, sqrt: real -> real)
    requires SqrtLaw(sqrt) && taps != []
    ensures var s, from := SolveFor(taps, cfg, sqrt), Estimate(taps, Weights(taps, cfg, sqrt), sqrt);
            s.Solved? ==>
              && 0 < s.iterations <= cfg.maxIterations
              && Within(s.x - from.0, s.y - from.1, MAX_STEP_M * s.iterations as real)
              && exists px, py :: LastStep(StepsOf(taps, Weights(taps, cfg, sqrt), sqrt), px, py, s.x, s.y, cfg)
  {
    hide StepsOf;
    hide Estimate;
    var w := Weights(taps, cfg, sqrt);
    var (ex, ey) := Estimate(taps, w, sqrt);
    var steps := StepsOf(taps, w, sqrt);
    forall x, y ensures steps(x, y).Step? ==> Within(steps(x, y).dx, steps(x, y).dy, MAX_STEP_M) {
      StepsAreBounded(taps, w, sqrt, x, y);
    }
    IterateStaysClose(steps, ex, ey, 0, cfg);
  }
}
