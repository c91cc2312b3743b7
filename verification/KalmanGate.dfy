/**
 The innovation gate over consecutive rejections: while fixes are rejected the filter only
 predicts, so its uncertainty outgrows any target on a straight course, and the gate opens
 again within a known time.
 */
module KalmanGate {
  import opened RealMath
  import opened KalmanSpec

  // ---------------------------------------------------------------- predicting twice

  lemma DriftForm(c: Cov, t: real)
    ensures Drift(c, t) == Cov(c.a + 2.0 * Times(t, c.b) + Times(Sq(t), c.d), c.b + Times(t, c.d), c.d)
  {
  }

  lemma TimesTwice(t: real, s: real, d: real)
    ensures Times(t, Times(s, d)) == Times(Times(t, s), d)
  {
  }

  lemma SquareOfSum(s: real, t: real)
    ensures Sq(s + t) == Sq(s) + 2.0 * Times(t, s) + Sq(t)
  {
  }

  /** The square of a sum, times d. */
  lemma ScaledSquareOfSum(s: real, t: real, d: real)
    ensures Times(Sq(s + t), d) == Times(Sq(s), d) + 2.0 * Times(Times(t, s), d) + Times(Sq(t), d)
  {
    hide Sq;
    var x := Times(t, s);
    SquareOfSum(s, t);
    TimesAdds(Sq(s) + 2.0 * x, Sq(t), d);
    TimesAdds(Sq(s), 2.0 * x, d);
    TimesAdds(x, x, d);
    assert x + x == 2.0 * x;
  }

  lemma DriftTwice(c: Cov, s: real, t: real)
    ensures Drift(Drift(c, s), t) == Drift(c, s + t)
  {
    hide Drift;
    hide Times;
    hide Sq;
    var m := Drift(c, s);
    DriftForm(c, s);
    DriftForm(m, t);
    DriftForm(c, s + t);
    TimesAdds(c.b, Times(s, c.d), t);
    TimesTwice(t, s, c.d);
    TimesAdds(s, t, c.b);
    TimesAdds(s, t, c.d);
    ScaledSquareOfSum(s, t, c.d);
  }

  function Cube(t: real): real {
    t * t * t
  }

  lemma NoiseEntries(t: real)
    ensures NoiseCov(t) == Cov(4.0 * Cube(t) / 3.0, 2.0 * Sq(t), 4.0 * t)
  {
  }

  lemma CubeOfSum(s: real, t: real)
    ensures Cube(s + t) == Cube(s) + 3.0 * Times(t, Sq(s)) + 3.0 * Times(Sq(t), s) + Cube(t)
  {
    var u := s + t;
    assert u * u == s * s + 2.0 * (s * t) + t * t;
    assert u * u * u == s * s * s + 3.0 * (t * (s * s)) + 3.0 * (t * t * s) + t * t * t;
  }

  lemma DriftEntries(a: real, b: real, d: real, t: real)
    ensures Drift(Cov(a, 2.0 * b, 4.0 * d), t)
         == Cov(a + 4.0 * Times(t, b) + 4.0 * Times(Sq(t), d), 2.0 * b + 4.0 * Times(t, d), 4.0 * d)
  {
  }

  /** Noise that has drifted, and new noise, is the noise of the whole gap. */
  lemma NoiseTwice(s: real, t: real)
    ensures var d, n := Drift(NoiseCov(s), t), NoiseCov(t);
            Cov(d.a + n.a, d.b + n.b, d.d + n.d) == NoiseCov(s + t)
  {
    hide NoiseCov;
    hide Drift;
    hide Cube;
    hide Sq;
    hide Times;
    NoiseEntries(s);
    NoiseEntries(t);
    NoiseEntries(s + t);
    DriftEntries(4.0 * Cube(s) / 3.0, Sq(s), s, t);
    CubeOfSum(s, t);
    SquareOfSum(s, t);
  }

  lemma DriftAdds(c: Cov, n: Cov, t: real)
    ensures var x, y := Drift(c, t), Drift(n, t);
            Drift(Cov(c.a + n.a, c.b + n.b, c.d + n.d), t) == Cov(x.a + y.a, x.b + y.b, x.d + y.d)
  {
    hide Drift;
    hide Times;
    hide Sq;
    DriftForm(c, t);
    DriftForm(n, t);
    DriftForm(Cov(c.a + n.a, c.b + n.b, c.d + n.d), t);
    TimesAdds(c.b, n.b, t);
    TimesAdds(c.d, n.d, t);
    TimesAdds(c.d, n.d, Sq(t));
  }

  /** Predicting over two gaps is predicting over their sum. */
  lemma PredictSemigroup(c: Cov, s: real, t: real)
    ensures PredictCov(PredictCov(c, s), t) == PredictCov(c, s + t)
  {
    hide Drift;
    hide NoiseCov;
    DriftAdds(Drift(c, s), NoiseCov(s), t);
    DriftTwice(c, s, t);
    NoiseTwice(s, t);
  }

  lemma AdvanceTwice(x: real, v: real, s: real, t: real)
    ensures Advance(Advance(x, v, s), v, t) == Advance(x, v, s + t)
  {
  }

  /** A filter that only predicts forgets its stops on the way. */
  lemma TrackSemigroup(t: Track, mid: real, end: real)
    ensures PredictTrack(PredictTrack(t, mid), end) == PredictTrack(t, end)
  {
    hide PredictCov;
    hide Advance;
    var s, u := mid - t.last, end - mid;
    assert s + u == end - t.last;
    PredictSemigroup(t.cov, s, u);
    AdvanceTwice(t.north, t.vNorth, s, u);
    AdvanceTwice(t.east, t.vEast, s, u);
  }

  lemma PredictNothing(t: Track)
    ensures PredictTrack(t, t.last) == t
  {
  }

  lemma PredictPosDef(t: Track, time: real)
    requires PosDef(t.cov) && time >= t.last
    ensures PosDef(PredictTrack(t, time).cov)
  {
    if time > t.last { PredictKeepsPosDef(t.cov, time - t.last); } else { PredictNothing(t); }
  }

  // ---------------------------------------------------------------- when the gate is open

  /** The fix lies within d of the course from (north, east) with velocity (vn, ve), followed since the time from. */
  ghost predicate OnCourse(m: Measurement, north: real, east: real, vn: real, ve: real, from: real, d: real) {
    var dt := m.time - from;
    Sq(m.north - Advance(north, vn, dt)) + Sq(m.east - Advance(east, ve, dt)) <= Sq(d)
  }

  /** The squared speed of the course relative to the track. */
  function Slip(t: Track, vn: real, ve: real): real {
    Sq(vn - t.vNorth) + Sq(ve - t.vEast)
  }

  /** (p + q * t)^2 is at most 2 * p^2 + 2 * q^2 * t^2. */
  lemma SplitSquare(p: real, q: real, t: real)
    ensures Sq(p + q * t) <= 2.0 * Sq(p) + 2.0 * Times(Sq(q), Sq(t))
  {
    SqSign(p - q * t);
    assert Sq(p + q * t) + Sq(p - q * t) == 2.0 * Sq(p) + 2.0 * Sq(q * t);
    assert Sq(q * t) == Times(Sq(q), Sq(t)) by { SqProduct(q, t); }
  }

  /** One axis: the innovation is the miss of the course plus the slip over the gap. */
  lemma InnovationSplit(z: real, x: real, v: real, w: real, t: real)
    ensures Sq(z - Advance(x, v, t)) <= 2.0 * Sq(z - Advance(x, w, t)) + 2.0 * Times(Sq(w - v), Sq(t))
  {
    var p, q := z - Advance(x, w, t), w - v;
    assert z - Advance(x, v, t) == p + q * t;
    SplitSquare(p, q, t);
  }

  lemma InnovationBound(t: Track, m: Measurement, vn: real, ve: real, d: real)
    requires OnCourse(m, t.north, t.east, vn, ve, t.last, d)
    ensures var p, gap := PredictTrack(t, m.time), m.time - t.last;
            Sq(m.north - p.north) + Sq(m.east - p.east) <= 2.0 * Sq(d) + 2.0 * Times(Slip(t, vn, ve), Sq(gap))
  {
    hide Sq;
    hide Advance;
    var gap := m.time - t.last;
    InnovationSplit(m.north, t.north, t.vNorth, vn, gap);
    InnovationSplit(m.east, t.east, t.vEast, ve, gap);
    TimesAdds(Sq(vn - t.vNorth), Sq(ve - t.vEast), Sq(gap));
  }

  /** The position variance grows at least with the cube of the gap. */
  lemma VarianceGrows(c: Cov, t: real)
    requires PosDef(c) && t >= 0.0
    ensures PredictCov(c, t).a > 4.0 * Cube(t) / 3.0
  {
    hide Drift;
    hide NoiseCov;
    hide Times;
    hide Sq;
    hide Cube;
    DriftForm(c, t);
    NoiseEntries(t);
    SqSign(t);
    TimesSign(t, c.b);
    TimesSign(Sq(t), c.d);
  }

  /** After this time the variance exceeds what a miss d and a squared slip u can amount to. */
  ghost predicate LongEnough(t: real, d: real, u: real) {
    t >= 0.0 && 3.0 * Cube(t) >= Sq(d) && 3.0 * t >= u
  }

  lemma CubeCovers(t: real, u: real)
    requires t >= 0.0 && 3.0 * t >= u
    ensures Times(u, Sq(t)) <= 3.0 * Cube(t)
  {
    SqSign(t);
    TimesMonotone(u, 3.0 * t, Sq(t));
  }

  lemma GateAlgebra(x: real, s: real, k: real)
    requires k >= 0.0 && x <= 12.0 * k && s > 4.0 * k / 3.0
    ensures x / s <= INNOVATION_GATE
  {
    var q := x / s;
    DivCancel(x, s);
    if q > INNOVATION_GATE { MulStrictlyMonotone(INNOVATION_GATE, q, s); }
  }

  /** A fix on a straight course is accepted once the track has been predicted for long enough. */
  lemma GateReopens(t: Track, m: Measurement, vn: real, ve: real, d: real)
    requires PosDef(t.cov) && OnCourse(m, t.north, t.east, vn, ve, t.last, d)
    requires LongEnough(m.time - t.last, d, Slip(t, vn, ve))
    ensures PosDef(PredictTrack(t, m.time).cov)
    ensures Mahalanobis(PredictTrack(t, m.time), m, MeasurementNoise(m)) <= INNOVATION_GATE
  {
    hide OnCourse;
    hide Slip;
    hide MeasurementNoise;
    hide PredictCov;
    hide Cube;
    var gap, p := m.time - t.last, PredictTrack(t, m.time);
    NoiseFloor(m);
    PredictPosDef(t, m.time);
    InnovationBound(t, m, vn, ve, d);
    CubeCovers(gap, Slip(t, vn, ve));
    VarianceGrows(t.cov, gap);
    CubeSign(gap);
    GateAlgebra(Sq(m.north - p.north) + Sq(m.east - p.east), p.cov.a + MeasurementNoise(m), Cube(gap));
  }

  lemma CubeSign(t: real)
    requires t >= 0.0
    ensures Cube(t) >= 0.0
  {
    MulNonNegative(t, t);
    MulNonNegative(t * t, t);
  }

  // ---------------------------------------------------------------- consecutive rejections

  /** The fix comes too soon after the last one that was applied, and is ignored. */
  predicate TooSoon(last: real, m: Measurement) {
    m.time - last < MIN_DT_SEC
  }

  /** The time of the last applied fix. */
  function LastTime(t: Track, ms: seq<Measurement>): real {
    if ms == [] then t.last
    else
      var last := LastTime(t, ms[..|ms| - 1]);
      if TooSoon(last, ms[|ms| - 1]) then last else ms[|ms| - 1].time
  }

  /** The number of applied fixes. */
  function Applied(t: Track, ms: seq<Measurement>): nat {
    if ms == [] then 0
    else
      var before := ms[..|ms| - 1];
      Applied(t, before) + (if TooSoon(LastTime(t, before), ms[|ms| - 1]) then 0 else 1)
  }

  /** The update with this fix is applied and rejected by the gate. */
  ghost predicate Rejects(t: Track, m: Measurement)
    requires PosDef(t.cov)
  {
    && MIN_DT_SEC <= m.time - t.last <= MAX_DT_SEC
    && (PredictPosDef(t, m.time); NoiseFloor(m);
        Mahalanobis(PredictTrack(t, m.time), m, MeasurementNoise(m)) > INNOVATION_GATE)
  }

  /** Every fix is ignored or rejected, one after the other. */
  ghost predicate RejectsAll(t: Track, ms: seq<Measurement>)
    requires PosDef(t.cov)
    ensures RejectsAll(t, ms) ==> LastTime(t, ms) >= t.last
  {
    ms == [] ||
    var before, m := ms[..|ms| - 1], ms[|ms| - 1];
    var last := LastTime(t, before);
    && RejectsAll(t, before)
    && (PredictPosDef(t, last); TooSoon(last, m) || Rejects(PredictTrack(t, last), m))
  }

  /** An ignored fix changes nothing, a rejected one leaves the prediction. */
  lemma RejectionIsPrediction(t: Track, m: Measurement)
    requires PosDef(t.cov)
    ensures TooSoon(t.last, m) ==> Step(Running(t), m) == Running(t)
    ensures Rejects(t, m) ==> Step(Running(t), m) == Running(PredictTrack(t, m.time))
  {
  }

  lemma RunSnoc(ms: seq<Measurement>, m: Measurement)
    ensures Run(ms + [m]) == Step(Run(ms), m)
  {
    hide Step;
    assert (ms + [m])[..|ms|] == ms;
  }

  lemma PredictedLast(t: Track, time: real)
    ensures PredictTrack(t, time).last == time
  {
  }

  /** After any number of consecutive rejections the filter is where one prediction would have taken it. */
  lemma {:induction false} RejectionsPredict(ms: seq<Measurement>, more: seq<Measurement>)
    requires Run(ms).Running? && RejectsAll(Run(ms).track, more)
    ensures Run(ms + more) == Running(PredictTrack(Run(ms).track, LastTime(Run(ms).track, more)))
  {
    hide Run;
    hide Step;
    hide PredictTrack;
    var t := Run(ms).track;
    if more == [] {
      assert ms + more == ms;
      PredictNothing(t);
    } else {
      var before, m := more[..|more| - 1], more[|more| - 1];
      var last := LastTime(t, before);
      RejectionsPredict(ms, before);
      assert ms + more == ms + before + [m];
      RunSnoc(ms + before, m);
      PredictPosDef(t, last);
      PredictedLast(t, last);
      RejectionIsPrediction(PredictTrack(t, last), m);
      TrackSemigroup(t, last, m.time);
    }
  }

  /** The time after which a fix that misses its course by at most d is accepted, for a squared slip u. */
  function ReopenTime(d: real, u: real): real {
    Max(1.0, Max(d, u / 3.0))
  }

  lemma ReopenIsLongEnough(t: real, d: real, u: real)
    requires d >= 0.0 && t >= ReopenTime(d, u)
    ensures LongEnough(t, d, u)
  {
    SqOrder(d, t);
    SqSign(t);
    TimesMonotone(1.0, t, Sq(t));
  }

  /** A fix on the course that is rejected came too early for the gate to be open. */
  lemma StillShut(t: Track, last: real, m: Measurement, vn: real, ve: real, d: real)
    requires PosDef(t.cov) && last >= t.last && d >= 0.0
    requires PosDef(PredictTrack(t, last).cov) && Rejects(PredictTrack(t, last), m)
    requires OnCourse(m, t.north, t.east, vn, ve, t.last, d)
    ensures m.time - t.last < ReopenTime(d, Slip(t, vn, ve))
  {
    hide PredictTrack;
    hide OnCourse;
    hide Slip;
    hide Mahalanobis;
    PredictedLast(t, last);
    TrackSemigroup(t, last, m.time);
    if m.time - t.last >= ReopenTime(d, Slip(t, vn, ve)) {
      ReopenIsLongEnough(m.time - t.last, d, Slip(t, vn, ve));
      GateReopens(t, m, vn, ve, d);
    }
  }

  lemma {:induction false} RejectionsEnd(t: Track, ms: seq<Measurement>, vn: real, ve: real, d: real)
    requires PosDef(t.cov) && RejectsAll(t, ms) && d >= 0.0
    requires forall m :: m in ms ==> OnCourse(m, t.north, t.east, vn, ve, t.last, d)
    ensures MIN_DT_SEC * Applied(t, ms) as real <= LastTime(t, ms) - t.last < ReopenTime(d, Slip(t, vn, ve))
  {
    hide PredictTrack;
    hide OnCourse;
    hide Slip;
    if ms != [] {
      var before, m := ms[..|ms| - 1], ms[|ms| - 1];
      var last := LastTime(t, before);
      RejectionsEnd(t, before, vn, ve, d);
      assert m in ms;
      PredictPosDef(t, last);
      PredictedLast(t, last);
      if !TooSoon(last, m) { StillShut(t, last, m, vn, ve, d); }
    }
  }

  /**
   No lock-out: whatever the run before, fixes within d of one straight course are rejected in a row
   for less than ReopenTime seconds, and less than 100 times that often.
   */
  lemma NoLockout(ms: seq<Measurement>, more: seq<Measurement>, vn: real, ve: real, d: real)
    requires Run(ms).Running? && RejectsAll(Run(ms).track, more) && d >= 0.0
    requires var t := Run(ms).track;
             forall m :: m in more ==> OnCourse(m, t.north, t.east, vn, ve, t.last, d)
    ensures var t := Run(ms).track;
            && Run(ms + more) == Running(PredictTrack(t, LastTime(t, more)))
            && LastTime(t, more) - t.last < ReopenTime(d, Slip(t, vn, ve))
            && Applied(t, more) as real < 100.0 * ReopenTime(d, Slip(t, vn, ve))
  {
    hide Run;
    hide PredictTrack;
    hide OnCourse;
    hide Slip;
    RejectionsPredict(ms, more);
    RejectionsEnd(Run(ms).track, more, vn, ve, d);
  }

  // ---------------------------------------------------------------- the gate does reject

  lemma OneRejection(t: Track, m: Measurement)
    requires PosDef(t.cov) && Rejects(t, m)
    ensures RejectsAll(t, [m]) && Applied(t, [m]) == 1
  {
    hide PredictTrack;
    hide Mahalanobis;
    assert [m][..0] == [];
    PredictNothing(t);
  }

  /** A resting track, one second later. */
  lemma OneSecondLater(t: Track)
    requires t == Track(0.0, 0.0, 0.0, 0.0, Cov(2500.0, 0.0, 25.0), 0.0)
    ensures PredictTrack(t, 1.0) == Track(0.0, 0.0, 0.0, 0.0, Cov(2525.0 + 4.0 / 3.0, 27.0, 29.0), 1.0)
  {
  }

  lemma FarOff(p: Track, m: Measurement, r: real)
    requires p.north == p.east == 0.0 && p.cov.a == 2525.0 + 4.0 / 3.0
    requires m.north == 1000.0 && m.east == 0.0 && r == 100.0
    ensures Mahalanobis(p, m, r) > INNOVATION_GATE
  {
    GateExceeded(1000000.0, p.cov.a + r);
  }

  lemma GateExceeded(x: real, s: real)
    requires s > 0.0 && x > 10.0 * s
    ensures x / s > INNOVATION_GATE
  {
    DivCancel(x, s);
    if x / s <= 10.0 { MulMonotone(x / s, 10.0, s); }
  }

  /** Two fixes, the second so far away that it is rejected. */
  lemma FarFixIsRejected()
    ensures var first, far := Measurement(0.0, 0.0, 10.0, 0.0, "gps"), Measurement(1000.0, 0.0, 10.0, 1.0, "gps");
            && Run([first]).Running? && RejectsAll(Run([first]).track, [far])
            && Applied(Run([first]).track, [far]) == 1
  {
    hide PredictTrack;
    hide Mahalanobis;
    hide RejectsAll;
    hide Applied;
    var first, far := Measurement(0.0, 0.0, 10.0, 0.0, "gps"), Measurement(1000.0, 0.0, 10.0, 1.0, "gps");
    assert [first][..0] == [];
    assert Run([first]) == Running(InitialTrack(first));
    var t := InitialTrack(first);
    OneSecondLater(t);
    FarOff(PredictTrack(t, 1.0), far, MeasurementNoise(far));
    OneRejection(t, far);
  }
}
