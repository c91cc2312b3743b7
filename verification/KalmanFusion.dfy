/**
 What an update does to a running filter, without its predict and correct stages: precisions
 add, the position becomes the precision-weighted mean of course and fix, and the velocity
 moves with the innovation. Every state of every run is explained this way.
 */
module KalmanFusion {
  import opened RealMath
  import opened KalmanSpec
  import KalmanGate

  // ---------------------------------------------------------------- the meaning of an update

  /** Position variance, its covariance with the velocity, and velocity variance, dt seconds later. */
  function PositionSpread(c: Cov, dt: real): real {
    c.a + 2.0 * c.b * dt + c.d * dt * dt + 4.0 * dt * dt * dt / 3.0
  }

  function CrossSpread(c: Cov, dt: real): real {
    c.b + c.d * dt + 2.0 * dt * dt
  }

  function VelocitySpread(c: Cov, dt: real): real {
    c.d + 4.0 * dt
  }

  /** The squared distance of the fix from where the track would be by then. */
  function Miss(t: Track, m: Measurement): real {
    var dt := m.time - t.last;
    Sq(m.north - (t.north + t.vNorth * dt)) + Sq(m.east - (t.east + t.vEast * dt))
  }

  /** The fix is within the gate: 9.21 times the variance of its distance from the course. */
  ghost predicate Near(t: Track, m: Measurement) {
    Miss(t, m) <= 9.21 * (PositionSpread(t.cov, m.time - t.last) + MeasurementNoise(m))
  }

  /** One axis of an accepted fix: x and v before, x' and v' after a gap of dt with the fix z of variance r. */
  ghost predicate Fused(x: real, v: real, x': real, v': real, z: real, c: Cov, c': Cov, dt: real, r: real)
    requires PositionSpread(c, dt) > 0.0 && r > 0.0 && c'.a > 0.0
  {
    var a := PositionSpread(c, dt);
    && x' / c'.a == (x + v * dt) / a + z / r
    && v' == v + CrossSpread(c, dt) / (a + r) * (z - (x + v * dt))
  }

  /** An accepted fix: precisions add, both axes are fused, and the velocity becomes more certain. */
  ghost predicate Absorbs(t: Track, m: Measurement, n: Track) {
    var dt, r := m.time - t.last, MeasurementNoise(m);
    var a, b := PositionSpread(t.cov, dt), CrossSpread(t.cov, dt);
    && a > 0.0 && r > 0.0 && n.cov.a > 0.0 && n.last == m.time
    && 1.0 / n.cov.a == 1.0 / a + 1.0 / r
    && Times(n.cov.b, a + r) == Times(b, r)
    && Times(VelocitySpread(t.cov, dt) - n.cov.d, a + r) == Sq(b)
    && Fused(t.north, t.vNorth, n.north, n.vNorth, m.north, t.cov, n.cov, dt, r)
    && Fused(t.east, t.vEast, n.east, n.vEast, m.east, t.cov, n.cov, dt, r)
  }

  /** A rejected fix: the track moves on along its course, and only its uncertainty grows. */
  ghost predicate Coasts(t: Track, m: Measurement, n: Track) {
    var dt := m.time - t.last;
    && n.last == m.time && n.vNorth == t.vNorth && n.vEast == t.vEast
    && n.north == t.north + t.vNorth * dt && n.east == t.east + t.vEast * dt
    && n.cov == Cov(PositionSpread(t.cov, dt), CrossSpread(t.cov, dt), VelocitySpread(t.cov, dt))
  }

  /** The first fix: at rest, as uncertain as the fix but at least 50 m, and 5 m/s. */
  ghost predicate Starts(m: Measurement, n: Track) {
    && n.north == m.north && n.east == m.east && n.vNorth == n.vEast == 0.0 && n.last == m.time
    && n.cov == Cov(Sq(Max(50.0, m.errorM)), 0.0, Sq(5.0))
  }

  /** What one call makes of a filter. */
  ghost predicate Explained(f: Filter, m: Measurement, g: Filter) {
    match f
    case Stuck => g.Stuck?
    case Fresh => g.Running? && Starts(m, g.track)
    case Running(t) =>
      var dt := m.time - t.last;
      if dt < 0.01 then g == f
      else if dt > 60.0 then g.Stuck?
      else g.Running? && if Near(t, m) then Absorbs(t, m, g.track) else Coasts(t, m, g.track)
  }

  // ---------------------------------------------------------------- every update is explained

  lemma SpreadIsPrediction(c: Cov, dt: real)
    ensures PredictCov(c, dt) == Cov(PositionSpread(c, dt), CrossSpread(c, dt), VelocitySpread(c, dt))
  {
  }

  lemma PredictionCoasts(t: Track, m: Measurement)
    ensures Coasts(t, m, PredictTrack(t, m.time))
  {
    SpreadIsPrediction(t.cov, m.time - t.last);
  }

  lemma ScaledOrder(q: real, k: real, s: real)
    requires s > 0.0
    ensures q <= k <==> Times(q, s) <= Times(k, s)
  {
    if q > k { TimesStrictlyMonotone(k, q, s); } else { TimesMonotone(q, k, s); }
  }

  lemma QuotientAtMost(x: real, s: real, k: real)
    requires s > 0.0
    ensures x / s <= k <==> x <= k * s
  {
    DivCancel(x, s);
    ScaledOrder(x / s, k, s);
  }

  /** The gate compares the miss with the variance of the innovation. */
  lemma GateIsNear(t: Track, m: Measurement, p: Track)
    requires Coasts(t, m, p) && p.cov.a + MeasurementNoise(m) > 0.0
    ensures Near(t, m) <==> Mahalanobis(p, m, MeasurementNoise(m)) <= INNOVATION_GATE
  {
    hide MeasurementNoise;
    hide PositionSpread;
    QuotientAtMost(Miss(t, m), p.cov.a + MeasurementNoise(m), INNOVATION_GATE);
    assert Miss(t, m) == (m.north - p.north) * (m.north - p.north) + (m.east - p.east) * (m.east - p.east);
  }

  /** The correction of the coasted track absorbs the fix. */
  lemma CorrectionAbsorbs(t: Track, m: Measurement, p: Track, r: real)
    requires Coasts(t, m, p) && PosDef(p.cov) && r == MeasurementNoise(m) && r > 0.0
    ensures Absorbs(t, m, CorrectTrack(p, m, r))
  {
    hide MeasurementNoise;
    hide PositionSpread;
    hide CrossSpread;
    hide VelocitySpread;
    CorrectIsBayesian(p, m, r);
    CorrectEntries(p.cov, r);
  }

  /** Every call of Update, accepted, rejected, ignored or locked up. */
  lemma StepIsExplained(f: Filter, m: Measurement)
    requires Inv(f)
    ensures Explained(f, m, Step(f, m))
  {
    hide Absorbs;
    hide Coasts;
    hide Near;
    hide Mahalanobis;
    hide CorrectTrack;
    hide MeasurementNoise;
    match f
    case Stuck =>
    case Fresh => assert InitialTrack(m).cov.a == Sq(Max(50.0, m.errorM));
    case Running(t) =>
      var dt := m.time - t.last;
      if 0.01 <= dt <= 60.0 {
        var p, r := PredictTrack(t, m.time), MeasurementNoise(m);
        PredictionCoasts(t, m);
        PredictKeepsPosDef(t.cov, dt);
        NoiseFloor(m);
        GateIsNear(t, m, p);
        CorrectionAbsorbs(t, m, p, r);
      }
  }

  /** Every state of every run is explained by the state and the fix before it. */
  lemma RunIsExplained(ms: seq<Measurement>, m: Measurement)
    ensures Explained(Run(ms), m, Run(ms + [m]))
  {
    hide Explained;
    KalmanGate.RunSnoc(ms, m);
    StepIsExplained(Run(ms), m);
  }

  // ---------------------------------------------------------------- accepted runs

  /** The track of a single GPS fix at the origin. */
  const AT_REST := Track(0.0, 0.0, 0.0, 0.0, Cov(2500.0, 0.0, 25.0), 0.0)

  /** The fix that follows it: 10 m north, one second later. */
  const NEXT_FIX := Measurement(10.0, 0.0, 10.0, 1.0, "gps")

  lemma NextFixIsNear()
    ensures Near(AT_REST, NEXT_FIX) && MeasurementNoise(NEXT_FIX) == 100.0
    ensures PositionSpread(AT_REST.cov, 1.0) == 7579.0 / 3.0 && CrossSpread(AT_REST.cov, 1.0) == 27.0
  {
  }

  lemma FusedNumbers(a: real, x: real)
    requires a > 0.0 && 1.0 / a == 1.0 / (7579.0 / 3.0) + 1.0 / 100.0 && x / a == 10.0 / 100.0
    ensures a == 757900.0 / 7879.0 && x == 75790.0 / 7879.0
  {
    DivCancel(1.0, a);
    DivCancel(x, a);
  }

  lemma NextTrack(n: Track)
    requires Absorbs(AT_REST, NEXT_FIX, n)
    ensures n.north == 75790.0 / 7879.0 && n.vNorth == 810.0 / 7879.0
    ensures n.cov.a == 757900.0 / 7879.0 && n.last == 1.0
  {
    hide PositionSpread;
    hide CrossSpread;
    hide MeasurementNoise;
    NextFixIsNear();
    FusedNumbers(n.cov.a, n.north);
  }

  /** Two GPS fixes 10 m and 1 s apart: the second is accepted, and taken for 7579 / 7879 of the way. */
  lemma SecondFixIsAbsorbed()
    ensures var f := Run([Measurement(0.0, 0.0, 10.0, 0.0, "gps"), Measurement(10.0, 0.0, 10.0, 1.0, "gps")]);
            && f.Running? && f.track.north == 75790.0 / 7879.0 && f.track.vNorth == 810.0 / 7879.0
            && f.track.cov.a == 757900.0 / 7879.0 && f.track.last == 1.0
  {
    hide Near;
    hide Absorbs;
    hide MeasurementNoise;
    var first := Measurement(0.0, 0.0, 10.0, 0.0, "gps");
    assert [] + [first] == [first] && [first] + [NEXT_FIX] == [first, NEXT_FIX];
    RunIsExplained([], first);
    assert Run([first]).track == AT_REST;
    RunIsExplained([first], NEXT_FIX);
    NextFixIsNear();
    NextTrack(Run([first, NEXT_FIX]).track);
  }
}
