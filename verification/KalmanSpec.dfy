/**
 The simple form of the trajectory filter: two independent position/velocity filters,
 one per axis, that share one 2x2 covariance. Everything the 4x4 matrix code computes is
 stated against this module.
 */
module KalmanSpec {
  import opened RealMath

  const Q_ACCEL := 2.0
  const MIN_DT_SEC := 0.01
  const MAX_DT_SEC := 60.0
  const INNOVATION_GATE := 9.21

  /** One axis: position variance, position/velocity covariance, velocity variance. */
  datatype Cov = Cov(a: real, b: real, d: real)

  function Det(c: Cov): real {
    c.a * c.d - c.b * c.b
  }

  /** Positive definite, with a non-negative position/velocity correlation. */
  ghost predicate PosDef(c: Cov) {
    c.a > 0.0 && c.b >= 0.0 && c.d > 0.0 && Det(c) > 0.0
  }

  /** A position fix in the filter's local metre frame. */
  datatype Measurement = Measurement(north: real, east: real, errorM: real, time: real, source: string)

  datatype Track = Track(north: real, east: real, vNorth: real, vEast: real, cov: Cov, last: real)

  /** Stuck: a call is still waiting for the mutex that it holds itself. */
  datatype Filter = Fresh | Running(track: Track) | Stuck

  function InitialSigma(errorM: real): real {
    if errorM < 50.0 then 50.0 else errorM
  }

  function InitialTrack(m: Measurement): Track {
    var sigma := InitialSigma(m.errorM);
    Track(m.north, m.east, 0.0, 0.0, Cov(sigma * sigma, 0.0, 25.0), m.time)
  }

  /** Measurement noise variance, scaled by the quality of the source. */
  function MeasurementNoise(m: Measurement): real {
    var floored := Max(Sq(m.errorM), 100.0);
    if m.source == "gps" then floored
    else if m.source == "weighted_least_squares" || m.source == "trilaterated" then floored * 1.5
    else if m.source == "circle_intersection" then floored * 2.5
    else if m.source == "range_bearing" then floored * 4.0
    else floored * 2.0
  }

  /** Constant-velocity drift F*C*F' of the covariance, before process noise. */
  function Drift(c: Cov, dt: real): Cov {
    Cov(c.a + 2.0 * dt * c.b + dt * dt * c.d, c.b + dt * c.d, c.d)
  }

  /** Continuous white-noise acceleration over a gap of dt seconds. */
  function NoiseCov(dt: real): Cov {
    var qa := Q_ACCEL * Q_ACCEL;
    Cov(qa * dt * dt * dt / 3.0, qa * dt * dt / 2.0, qa * dt)
  }

  function PredictCov(c: Cov, dt: real): Cov {
    var f, q := Drift(c, dt), NoiseCov(dt);
    Cov(f.a + q.a, f.b + q.b, f.d + q.d)
  }

  function CorrectCov(c: Cov, r: real): Cov
    requires c.a + r != 0.0
  {
    var s := c.a + r;
    Cov(c.a * r / s, c.b * r / s, c.d - c.b * c.b / s)
  }

  function Advance(position: real, velocity: real, dt: real): real {
    position + velocity * dt
  }

  function PredictTrack(t: Track, time: real): Track {
    var dt := time - t.last;
    Track(Advance(t.north, t.vNorth, dt), Advance(t.east, t.vEast, dt), t.vNorth, t.vEast, PredictCov(t.cov, dt), time)
  }

  function Normalised(dn: real, de: real, s: real): real
    requires s != 0.0
  {
    (dn * dn + de * de) / s
  }

  /** Squared Mahalanobis distance of the innovation. */
  function Mahalanobis(t: Track, m: Measurement, r: real): real
    requires t.cov.a + r != 0.0
  {
    Normalised(m.north - t.north, m.east - t.east, t.cov.a + r)
  }

  /** A state moved by a gain times the innovation z - predicted. */
  function Pulled(state: real, gain: real, predicted: real, z: real): real {
    state + gain * (z - predicted)
  }

  function PositionGain(c: Cov, r: real): real
    requires c.a + r != 0.0
  {
    c.a / (c.a + r)
  }

  function VelocityGain(c: Cov, r: real): real
    requires c.a + r != 0.0
  {
    c.b / (c.a + r)
  }

  function CorrectTrack(t: Track, m: Measurement, r: real): Track
    requires t.cov.a + r != 0.0
  {
    var kPos, kVel := PositionGain(t.cov, r), VelocityGain(t.cov, r);
    Track(Pulled(t.north, kPos, t.north, m.north), Pulled(t.east, kPos, t.east, m.east),
          Pulled(t.vNorth, kVel, t.north, m.north), Pulled(t.vEast, kVel, t.east, m.east),
          CorrectCov(t.cov, r), m.time)
  }

  /** One call of Update. */
  function Step(f: Filter, m: Measurement): Filter
    requires Inv(f)
  {
    match f
    case Stuck => Stuck
    case Fresh => Running(InitialTrack(m))
    case Running(t) =>
      var dt := m.time - t.last;
      if dt < MIN_DT_SEC then f
      else if dt > MAX_DT_SEC then Stuck
      else
        var p := PredictTrack(t, m.time);
        var r := MeasurementNoise(m);
        NoiseFloor(m);
        PredictKeepsPosDef(t.cov, dt);
        if Mahalanobis(p, m, r) > INNOVATION_GATE then Running(p) else Running(CorrectTrack(p, m, r))
  }

  ghost predicate Inv(f: Filter) {
    f.Running? ==> PosDef(f.track.cov)
  }

  // ---------------------------------------------------------------- single steps

  lemma NoiseFloor(m: Measurement)
    ensures MeasurementNoise(m) >= 100.0
  {
  }

  /** A GPS fix counts with its squared error, at least (10 m)^2; every other source with a fixed multiple of that. */
  lemma NoiseRatios(m: Measurement)
    ensures var gps := MeasurementNoise(m.(source := "gps"));
            && gps == Max(100.0, Sq(m.errorM))
            && MeasurementNoise(m.(source := "weighted_least_squares")) == 1.5 * gps
            && MeasurementNoise(m.(source := "trilaterated")) == 1.5 * gps
            && MeasurementNoise(m.(source := "circle_intersection")) == 2.5 * gps
            && MeasurementNoise(m.(source := "range_bearing")) == 4.0 * gps
            && (m.source !in {"gps", "weighted_least_squares", "trilaterated", "circle_intersection", "range_bearing"}
                ==> MeasurementNoise(m) == 2.0 * gps)
  {
    var s, t, u, v, w := "gps", "weighted_least_squares", "trilaterated", "circle_intersection", "range_bearing";
    assert |s| == 3 && |t| == 22 && |u| == 12 && |v| == 19 && |w| == 13;
  }

  lemma SquareOfAbs(x: real)
    ensures Sq(Abs(x)) == Sq(x)
  {
  }

  /** A larger reported error never makes a fix of the same source count for more. */
  lemma NoiseGrows(m: Measurement, n: Measurement)
    requires m.source == n.source && Abs(m.errorM) <= Abs(n.errorM)
    ensures MeasurementNoise(m) <= MeasurementNoise(n)
  {
    SqOrder(Abs(m.errorM), Abs(n.errorM));
    SquareOfAbs(m.errorM);
    SquareOfAbs(n.errorM);
  }

  /** Adding the process noise raises the determinant by two separately positive terms. */
  lemma NoiseTerms(c: Cov, dt: real)
    ensures Det(PredictCov(c, dt)) ==
            Det(c) + 4.0 * dt * (c.a + c.b * dt + c.d * (dt * dt) / 3.0) + 4.0 / 3.0 * (dt * dt) * (dt * dt)
  {
  }

  lemma PredictKeepsPosDef(c: Cov, dt: real)
    requires PosDef(c) && dt > 0.0
    ensures PosDef(PredictCov(c, dt))
    ensures Det(PredictCov(c, dt)) > Det(c)
    ensures PredictCov(c, dt).a > c.a && PredictCov(c, dt).d > c.d
  {
    NoiseTerms(c, dt);
    MulPositive(dt, dt);
    MulPositive(dt * dt, dt);
    MulPositive(dt * dt, dt * dt);
    MulPositive(dt, c.d);
    MulPositive(dt * dt, c.d);
    MulNonNegative(dt, c.b);
    MulPositive(dt, c.a + c.b * dt + c.d * (dt * dt) / 3.0);
  }

  /** The corrected entries, with the division by the innovation variance cleared. */
  lemma CorrectEntries(c: Cov, r: real)
    requires PosDef(c) && r > 0.0
    ensures var n := CorrectCov(c, r);
            var s := c.a + r;
            n.a * s == c.a * r && n.b * s == c.b * r && (c.d - n.d) * s == c.b * c.b
  {
  }

  lemma CorrectDet(c: Cov, r: real)
    requires PosDef(c) && r > 0.0
    ensures Det(CorrectCov(c, r)) * (c.a + r) == Det(c) * r
    ensures Det(CorrectCov(c, r)) == Det(c) * r / (c.a + r)
  {
  }

  /**
   An accepted fix keeps the covariance positive definite, shrinks the position variance
   strictly below both the predicted and the measurement variance, never raises the
   velocity variance, and scales the determinant by r / (a + r).
   */
  lemma CorrectShrinks(c: Cov, r: real)
    requires PosDef(c) && r > 0.0
    ensures PosDef(CorrectCov(c, r))
    ensures CorrectCov(c, r).a < c.a && CorrectCov(c, r).a < r
    ensures CorrectCov(c, r).d <= c.d
    ensures Det(CorrectCov(c, r)) == Det(c) * r / (c.a + r) < Det(c)
  {
    var n := CorrectCov(c, r);
    CorrectEntries(c, r);
    CorrectDet(c, r);
    ScaledDown(n.a, c.a, c.a, r);
    ScaledDown(n.a, r, r, c.a);
    ScaledDown(Det(n), Det(c), c.a, r);
    QuotientSign(n.b, c.b * r, c.a + r);
    QuotientSign(c.d - n.d, c.b * c.b, c.a + r);
    DiagonalPositive(n.a, n.b, n.d);
  }

  lemma ScaledDown(y: real, x: real, p: real, q: real)
    requires x > 0.0 && p > 0.0 && q > 0.0 && y * (p + q) == x * q
    ensures 0.0 < y < x
  {
  }

  lemma QuotientSign(y: real, x: real, s: real)
    requires x >= 0.0 && s > 0.0 && y * s == x
    ensures y >= 0.0
  {
  }

  lemma DiagonalPositive(a: real, b: real, d: real)
    requires a > 0.0 && a * d - b * b > 0.0
    ensures d > 0.0
  {
  }

  /** Information form: precisions add, and the new position is the precision-weighted mean. */
  lemma CorrectIsBayesian(t: Track, m: Measurement, r: real)
    requires PosDef(t.cov) && r > 0.0
    ensures var n := CorrectTrack(t, m, r);
            n.cov.a > 0.0 &&
            1.0 / n.cov.a == 1.0 / t.cov.a + 1.0 / r &&
            n.north / n.cov.a == t.north / t.cov.a + m.north / r &&
            n.east / n.cov.a == t.east / t.cov.a + m.east / r
  {
    var n := CorrectTrack(t, m, r);
    var a, s := t.cov.a, t.cov.a + r;
    CorrectShrinks(t.cov, r);
    CorrectEntries(t.cov, r);
    DivCancel(a, s);
    FusePrecision(n.cov.a, a, r);
    FuseMean(n.north, n.cov.a, t.north, m.north, a, r, PositionGain(t.cov, r));
    FuseMean(n.east, n.cov.a, t.east, m.east, a, r, PositionGain(t.cov, r));
  }

  lemma FusePrecision(na: real, a: real, r: real)
    requires na > 0.0 && a > 0.0 && r > 0.0 && na * (a + r) == a * r
    ensures 1.0 / na == 1.0 / a + 1.0 / r
  {
  }

  lemma FuseMean(x': real, na: real, x: real, z: real, a: real, r: real, k: real)
    requires na > 0.0 && a > 0.0 && r > 0.0 && na * (a + r) == a * r
    requires k * (a + r) == a && x' == Pulled(x, k, x, z)
    ensures x' / na == x / a + z / r
  {
  }

  /**
   Position and velocity variance left by the correction with gains k (position) and
   g (velocity), for an innovation of variance a + r.
   */
  function PositionVariance(c: Cov, r: real, k: real): real {
    (1.0 - k) * (1.0 - k) * c.a + k * k * r
  }

  function VelocityVariance(c: Cov, r: real, g: real): real {
    c.d - 2.0 * g * c.b + g * g * (c.a + r)
  }

  /** No other pair of gains leaves less variance: the filter's gains are the unique minimisers. */
  lemma GainIsOptimal(c: Cov, r: real, k: real, g: real)
    requires PosDef(c) && r > 0.0
    ensures PositionVariance(c, r, k) >= CorrectCov(c, r).a == PositionVariance(c, r, c.a / (c.a + r))
    ensures VelocityVariance(c, r, g) >= CorrectCov(c, r).d == VelocityVariance(c, r, c.b / (c.a + r))
    ensures PositionVariance(c, r, k) == CorrectCov(c, r).a ==> k == c.a / (c.a + r)
    ensures VelocityVariance(c, r, g) == CorrectCov(c, r).d ==> g == c.b / (c.a + r)
  {
    var s := c.a + r;
    var k0, g0 := c.a / s, c.b / s;
    CorrectEntries(c, r);
    DivCancel(c.a, s);
    DivCancel(c.b, s);
    PositionExcess(c, r, k, k0);
    PositionExcess(c, r, k0, k0);
    VelocityExcess(c, r, g, g0);
    VelocityExcess(c, r, g0, g0);
    ExcessPositive(s, k - k0);
    ExcessPositive(s, g - g0);
  }

  function Excess(s: real, e: real): real {
    s * (e * e)
  }

  lemma ExcessPositive(s: real, e: real)
    requires s > 0.0
    ensures Excess(s, e) >= 0.0
    ensures e != 0.0 ==> Excess(s, e) > 0.0
  {
    if e > 0.0 {
      MulPositive(s, e);
      MulPositive(s * e, e);
    } else if e < 0.0 {
      MulPositive(s, -e);
      MulPositive(s * -e, -e);
    }
  }

  lemma PositionExcess(c: Cov, r: real, k: real, k0: real)
    requires PosDef(c) && r > 0.0 && k0 * (c.a + r) == c.a
    ensures PositionVariance(c, r, k) == CorrectCov(c, r).a + Excess(c.a + r, k - k0)
  {
  }

  lemma VelocityExcess(c: Cov, r: real, g: real, g0: real)
    requires PosDef(c) && r > 0.0 && g0 * (c.a + r) == c.b
    ensures VelocityVariance(c, r, g) == CorrectCov(c, r).d + Excess(c.a + r, g - g0)
  {
    CorrectEntries(c, r);
    CompleteSquare(c.d, c.b, c.a + r, g, g0, CorrectCov(c, r).d);
  }

  lemma CompleteSquare(x: real, y: real, s: real, k: real, k0: real, n: real)
    requires s != 0.0 && k0 * s == y && (x - n) * s == y * y
    ensures x - 2.0 * k * y + k * k * s == n + s * ((k - k0) * (k - k0))
  {
  }

  /** The point a fraction k of the way from x to z. */
  function Between(x: real, z: real, k: real): real {
    (1.0 - k) * x + k * z
  }

  /** The corrected position lies strictly inside the segment from prediction to fix. */
  lemma CorrectOnSegment(t: Track, m: Measurement, r: real)
    requires PosDef(t.cov) && r > 0.0
    ensures 0.0 < PositionGain(t.cov, r) < 1.0
    ensures CorrectTrack(t, m, r).north == Between(t.north, m.north, PositionGain(t.cov, r))
    ensures CorrectTrack(t, m, r).east == Between(t.east, m.east, PositionGain(t.cov, r))
  {
  }

  // ---------------------------------------------------------------- whole runs

  lemma StepKeepsInv(f: Filter, m: Measurement)
    requires Inv(f)
    ensures Inv(Step(f, m))
  {
    if f.Running? && MIN_DT_SEC <= m.time - f.track.last <= MAX_DT_SEC {
      var p := PredictTrack(f.track, m.time);
      PredictKeepsPosDef(f.track.cov, m.time - f.track.last);
      NoiseFloor(m);
      CorrectShrinks(p.cov, MeasurementNoise(m));
    }
  }

  /** The filter after a whole sequence of Update calls on a new object. */
  function Run(ms: seq<Measurement>): (f: Filter)
    ensures Inv(f)
  {
    if ms == [] then Fresh
    else
      var before := Run(ms[..|ms| - 1]);
      StepKeepsInv(before, ms[|ms| - 1]);
      Step(before, ms[|ms| - 1])
  }

  /** The time of the last measurement that the filter absorbs, from the timestamps alone. */
  function LastApplied(ms: seq<Measurement>): real
    requires ms != []
  {
    var t := ms[|ms| - 1].time;
    if |ms| == 1 then t
    else
      var before := LastApplied(ms[..|ms| - 1]);
      if t - before < MIN_DT_SEC then before else t
  }

  ghost predicate LongGapAt(ms: seq<Measurement>, i: nat) {
    1 <= i < |ms| && ms[i].time - LastApplied(ms[..i]) > MAX_DT_SEC
  }

  /**
   A run wedges the filter exactly when some measurement arrives more than 60 s after the
   last absorbed one; otherwise the covariance is positive definite to the end.
   */
  lemma {:induction false} RunSticksIffLongGap(ms: seq<Measurement>)
    requires ms != []
    ensures Run(ms).Stuck? <==> exists i :: LongGapAt(ms, i)
    ensures Run(ms).Running? ==> Run(ms).track.last == LastApplied(ms) && PosDef(Run(ms).track.cov)
    ensures !Run(ms).Fresh?
  {
    var n := |ms| - 1;
    var prefix := ms[..n];
    if n > 0 {
      RunSticksIffLongGap(prefix);
      forall i | 0 <= i < n
        ensures LongGapAt(prefix, i) <==> LongGapAt(ms, i)
      {
        if i > 0 { assert prefix[..i] == ms[..i]; }
      }
    }
    if Run(prefix).Stuck? {
      var i :| LongGapAt(prefix, i);
      assert LongGapAt(ms, i);
    } else if Run(ms).Stuck? {
      assert LongGapAt(ms, n);
    } else {
      assert !LongGapAt(ms, n);
    }
  }

  /** Two fixes are enough: the second one wedges the filter exactly when it comes more than 60 s after the first. */
  lemma TwoFixesStickIff(first: Measurement, second: Measurement)
    ensures Run([first, second]).Stuck? <==> second.time - first.time > MAX_DT_SEC
  {
    var ms := [first, second];
    assert ms[..1] == [first];
    assert LastApplied([first]) == first.time by { assert [first][..0] == []; }
    RunSticksIffLongGap(ms);
    assert LongGapAt(ms, 1) <==> second.time - first.time > MAX_DT_SEC;
  }

  /** Such a run: a GPS fix, and another one 61 s later. */
  lemma LongGapSticks()
    ensures Run([Measurement(0.0, 0.0, 10.0, 0.0, "gps"), Measurement(100.0, 50.0, 10.0, 61.0, "gps")]).Stuck?
  {
    TwoFixesStickIff(Measurement(0.0, 0.0, 10.0, 0.0, "gps"), Measurement(100.0, 50.0, 10.0, 61.0, "gps"));
  }

  /** Timestamps that never jump ahead by more than 59.99 s keep the filter alive, in any order. */
  lemma {:induction false} SteadyRunNeverSticks(ms: seq<Measurement>)
    requires ms != []
    requires forall i :: 0 <= i < |ms| - 1 ==> ms[i + 1].time - ms[i].time <= MAX_DT_SEC - MIN_DT_SEC
    ensures Run(ms).Running?
    ensures ms[|ms| - 1].time - Run(ms).track.last < MIN_DT_SEC
  {
    var n := |ms| - 1;
    if n > 0 {
      var prefix := ms[..n];
      SteadyRunNeverSticks(prefix);
      assert ms[n - 1 + 1].time - ms[n - 1].time <= MAX_DT_SEC - MIN_DT_SEC;
    } else {
      assert Run(ms[..n]) == Fresh;
    }
  }

  // ---------------------------------------------------------------- dead reckoning

  function ReportedNoise(dt: real): real {
    2.0 * (Q_ACCEL * Q_ACCEL) * dt * dt * dt / 3.0
  }

  /** Variance that Predict reports for both axes: it leaves out the drift terms. */
  function ReportedVariance(c: Cov, dt: real): real {
    c.a + c.a + ReportedNoise(dt)
  }

  /**
   The extrapolated uncertainty understates the covariance that the filter itself would
   predict for the same gap, by exactly the drift of the velocity uncertainty.
   */
  lemma PredictUnderstates(c: Cov, dt: real)
    requires PosDef(c) && dt > 0.0
    ensures 2.0 * PredictCov(c, dt).a - ReportedVariance(c, dt) == 4.0 * dt * c.b + 2.0 * dt * dt * c.d > 0.0
  {
  }
}
