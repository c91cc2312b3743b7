/**
 The filter object of one drone: state vector [north, east, vNorth, vEast], a full 4x4
 covariance, and the mutex that every public method takes. Update and Predict are proved
 against the per-axis filter of KalmanSpec.
 */
module Kalman {
  import opened RealMath
  import opened KalmanSpec
  import opened KalmanMatrix
  import KalmanFusion

  datatype Estimate = Estimate(north: real, east: real, vNorth: real, vEast: real,
                               speed: real, errorM: real, time: real)

  /** Blocked: the call waits forever for the mutex. */
  datatype Outcome = Blocked | NoData | Done(estimate: Estimate)

  function RoundTo(x: real, scale: real): real
    requires scale != 0.0
  {
    Round(x * scale) / scale
  }

  function SpeedSquared(vNorth: real, vEast: real): real {
    vNorth * vNorth + vEast * vEast
  }

  /** The published estimate at a position, for a given two-axis position variance. */
  function Publish(t: Track, north: real, east: real, variance: real, time: real, sqrt: real -> real): Estimate {
    Estimate(north, east, RoundTo(t.vNorth, 100.0), RoundTo(t.vEast, 100.0),
             RoundTo(sqrt(SpeedSquared(t.vNorth, t.vEast)), 100.0),
             RoundTo(Clamp(sqrt(variance), 5.0, 5000.0), 10.0), time)
  }

  function EstimateOf(t: Track, time: real, sqrt: real -> real): Estimate {
    Publish(t, t.north, t.east, t.cov.a + t.cov.a, time, sqrt)
  }

  /** Constant-velocity extrapolation by at most 60 s. */
  function Extrapolate(t: Track, time: real, sqrt: real -> real): Estimate {
    var dt := time - t.last;
    if dt <= 0.0 then EstimateOf(t, time, sqrt)
    else
      var capped := Min(dt, MAX_DT_SEC);
      Publish(t, Advance(t.north, t.vNorth, capped), Advance(t.east, t.vEast, capped),
              ReportedVariance(t.cov, capped), time, sqrt)
  }

  /** Rounding to one decimal keeps the published error inside its clamp. */
  lemma ErrorInRange(t: Track, north: real, east: real, variance: real, time: real, sqrt: real -> real)
    ensures 5.0 <= Publish(t, north, east, variance, time, sqrt).errorM <= 5000.0
  {
  }

  ghost predicate Whole(x: real) {
    x == x.Floor as real
  }

  /** y is a multiple of 1 / scale next to x. */
  ghost predicate RoundedTo(y: real, x: real, scale: real)
    requires scale > 0.0
  {
    Abs(y - x) <= 0.5 / scale && Whole(Times(y, scale))
  }

  lemma WholeNumber(k: int)
    ensures Whole(k as real)
  {
  }

  lemma FloorIsNearest(x: real)
    ensures Abs((x + 0.5).Floor as real - x) <= 0.5
  {
  }

  lemma RoundIsNearest(x: real)
    ensures Abs(Round(x) - x) <= 0.5 && Whole(Round(x))
  {
    hide Whole;
    if x >= 0.0 {
      FloorIsNearest(x);
      WholeNumber((x + 0.5).Floor);
    } else {
      var k := (-x + 0.5).Floor;
      FloorIsNearest(-x);
      WholeNumber(-k);
      assert Round(x) == -(k as real) == (-k) as real;
    }
  }

  lemma RoundToMeans(x: real, scale: real)
    requires scale > 0.0
    ensures RoundedTo(RoundTo(x, scale), x, scale)
  {
    hide Whole;
    hide Round;
    var r := Round(x * scale);
    RoundIsNearest(x * scale);
    DivCancel(r, scale);
    assert Times(r / scale, scale) == r;
    assert (r / scale - x) * scale == r - x * scale;
    ScaledBack(r / scale - x, scale);
  }

  lemma ScaledBack(e: real, scale: real)
    requires scale > 0.0 && Abs(e * scale) <= 0.5
    ensures Abs(e) <= 0.5 / scale
  {
    var h := 0.5 / scale;
    DivCancel(0.5, scale);
    if e > h { MulStrictlyMonotone(h, e, scale); }
    if -e > h { MulStrictlyMonotone(h, -e, scale); }
  }

  /** Velocities and speed are published to the centimetre, the clamped error to the decimetre. */
  lemma PublishedMeans(t: Track, north: real, east: real, variance: real, time: real, sqrt: real -> real)
    ensures var e := Publish(t, north, east, variance, time, sqrt);
            && e.north == north && e.east == east && e.time == time
            && RoundedTo(e.vNorth, t.vNorth, 100.0) && RoundedTo(e.vEast, t.vEast, 100.0)
            && RoundedTo(e.speed, sqrt(Sq(t.vNorth) + Sq(t.vEast)), 100.0)
            && RoundedTo(e.errorM, Max(5.0, Min(sqrt(variance), 5000.0)), 10.0)
  {
    hide RoundedTo;
    hide RoundTo;
    RoundToMeans(t.vNorth, 100.0);
    RoundToMeans(t.vEast, 100.0);
    assert SpeedSquared(t.vNorth, t.vEast) == Sq(t.vNorth) + Sq(t.vEast);
    RoundToMeans(sqrt(Sq(t.vNorth) + Sq(t.vEast)), 100.0);
    assert Clamp(sqrt(variance), 5.0, 5000.0) == Max(5.0, Min(sqrt(variance), 5000.0));
    RoundToMeans(Clamp(sqrt(variance), 5.0, 5000.0), 10.0);
  }

  /** How far ahead a prediction looks: never back, never beyond 60 s. */
  function Horizon(t: Track, time: real): real {
    Max(0.0, Min(time - t.last, 60.0))
  }

  /** Dead reckoning in one form for all times: along the course for the horizon, with the uncertainty of that. */
  lemma ExtrapolateMeans(t: Track, time: real, sqrt: real -> real)
    ensures var h := Horizon(t, time);
            Extrapolate(t, time, sqrt)
            == Publish(t, Advance(t.north, t.vNorth, h), Advance(t.east, t.vEast, h), ReportedVariance(t.cov, h), time,
                       sqrt)
  {
    hide Publish;
    var h := Horizon(t, time);
    if time - t.last <= 0.0 {
      assert h == 0.0;
    } else {
      assert h == Min(time - t.last, MAX_DT_SEC);
    }
  }

  class DroneKalmanFilter {
    var locked: bool
    const x: array<real>
    var p: array2<real>
    var initialized: bool
    var lastUpdate: real

    ghost predicate Valid()
      reads this, x, p
    {
      && x.Length == 4 && Is4x4(p)
      && (!locked && initialized ==> IsBlock(p, BlockOf(p)) && PosDef(BlockOf(p)))
      && (!locked && !initialized ==> IsBlock(p, Cov(0.0, 0.0, 0.0)))
    }

    ghost function View(): (f: Filter)
      requires Valid()
      reads this, x, p
      ensures Inv(f)
    {
      if locked then Stuck
      else if !initialized then Fresh
      else Running(Track(x[0], x[1], x[2], x[3], BlockOf(p), lastUpdate))
    }

    constructor ()
      ensures Valid() && View() == Fresh
      ensures fresh(x) && fresh(p)
    {
      locked, initialized, lastUpdate := false, false, 0.0;
      x := new real[4](_ => 0.0);
      p := new real[4, 4]((_, _) => 0.0);
    }

    /** The published estimate of the current state. */
    method GetEstimate(time: real, sqrt: real -> real) returns (e: Estimate)
      requires x.Length == 4 && Is4x4(p) && IsBlock(p, BlockOf(p))
      ensures e == EstimateOf(Track(x[0], x[1], x[2], x[3], BlockOf(p), lastUpdate), time, sqrt)
    {
      assert p[1, 1] == BlockEntry(BlockOf(p), 1, 1);
      var errorM := sqrt(p[0, 0] + p[1, 1]);
      if errorM < 5.0 { errorM := 5.0; }
      if errorM > 5000.0 { errorM := 5000.0; }
      var speed := sqrt(SpeedSquared(x[2], x[3]));
      e := Estimate(x[0], x[1], RoundTo(x[2], 100.0), RoundTo(x[3], 100.0),
                    RoundTo(speed, 100.0), RoundTo(errorM, 10.0), time);
    }

    /** First measurement: position from the fix, wide covariance. Only the diagonal is written. */
    method Initialise(m: Measurement)
      requires x.Length == 4 && IsBlock(p, Cov(0.0, 0.0, 0.0))
      modifies this`lastUpdate, this`initialized, x, p
      ensures initialized && lastUpdate == m.time
      ensures IsBlock(p, InitialTrack(m).cov) && PosDef(InitialTrack(m).cov)
      ensures [x[0], x[1], x[2], x[3]] == [m.north, m.east, 0.0, 0.0]
    {
      x[0], x[1], x[2], x[3] := m.north, m.east, 0.0, 0.0;
      var sigma := m.errorM;
      if sigma < 50.0 { sigma := 50.0; }
      p[0, 0] := sigma * sigma;
      p[1, 1] := sigma * sigma;
      p[2, 2] := 25.0;
      p[3, 3] := 25.0;
      lastUpdate := m.time;
      initialized := true;
      MulPositive(sigma, sigma);
    }

    method Update(m: Measurement, sqrt: real -> real) returns (out: Outcome)
      requires Valid()
      modifies this, x, p
      ensures Valid() && (p == old(p) || fresh(p))
      ensures View() == Step(old(View()), m) && KalmanFusion.Explained(old(View()), m, View())
      ensures View().Stuck? <==> out == Blocked
      ensures View().Running? ==> out == Done(EstimateOf(View().track, m.time, sqrt))
      decreases !locked
    {
      hide KalmanFusion.Explained;
      KalmanFusion.StepIsExplained(View(), m);
      if locked { return Blocked; }
      locked := true;

      if !initialized {
        Initialise(m);
        var e := GetEstimate(m.time, sqrt);
        locked := false;
        return Done(e);
      }

      var dt := m.time - lastUpdate;
      if dt < MIN_DT_SEC {
        var e := GetEstimate(m.time, sqrt);
        locked := false;
        return Done(e);
      }
      if dt > MAX_DT_SEC {
        initialized := false;
        out := Update(m, sqrt);
        return;
      }
      PredictAndCorrect(m, dt);
      var e := GetEstimate(m.time, sqrt);
      locked := false;
      out := Done(e);
    }

    /** The predict, gate and correct stages of Update. */
    method PredictAndCorrect(m: Measurement, dt: real)
      requires x.Length == 4 && Is4x4(p) && IsBlock(p, BlockOf(p)) && PosDef(BlockOf(p))
      requires dt == m.time - lastUpdate && MIN_DT_SEC <= dt <= MAX_DT_SEC
      modifies this`p, this`lastUpdate, x
      ensures fresh(p) && Is4x4(p) && IsBlock(p, BlockOf(p)) && PosDef(BlockOf(p))
      ensures Running(Track(x[0], x[1], x[2], x[3], BlockOf(p), lastUpdate))
           == Step(Running(old(Track(x[0], x[1], x[2], x[3], BlockOf(p), lastUpdate))), m)
    {
      ghost var pred := PredictTrack(Track(x[0], x[1], x[2], x[3], BlockOf(p), lastUpdate), m.time);
      var n, e, vn, ve := Advance(x[0], x[2], dt), Advance(x[1], x[3], dt), x[2], x[3];
      var pPred := PropagateBlock(p, dt, BlockOf(p));
      NoiseFloor(m);
      Absorb(m, MeasurementNoise(m), n, e, vn, ve, pPred, pred);
    }

    /** The gate and correct stages, from the predicted state and covariance. */
    method Absorb(m: Measurement, rBase: real, n: real, e: real, vn: real, ve: real,
                  pPred: array2<real>, ghost pred: Track)
      requires x.Length == 4 && IsBlock(pPred, pred.cov) && PosDef(pred.cov)
      requires pred == Track(n, e, vn, ve, pred.cov, m.time) && rBase >= 100.0
      modifies this`p, this`lastUpdate, x
      ensures (p == pPred || fresh(p)) && Is4x4(p) && IsBlock(p, BlockOf(p)) && PosDef(BlockOf(p))
      ensures Track(x[0], x[1], x[2], x[3], BlockOf(p), lastUpdate)
           == if Mahalanobis(pred, m, rBase) > INNOVATION_GATE then pred
              else CorrectTrack(pred, m, rBase)
    {
      var innovN, innovE := m.north - n, m.east - e;
      var s, si, mahal := Innovation(pPred, rBase, innovN, innovE, pred.cov);
      lastUpdate := m.time;
      if mahal > INNOVATION_GATE {
        x[0], x[1], x[2], x[3] := n, e, vn, ve;
        p := pPred;
        return;
      }
      var k, pNew := CorrectBlock(pPred, s, si, pred.cov, rBase);
      CorrectShrinks(pred.cov, rBase);
      AddGain(k, m, n, e, vn, ve, pred.cov, rBase);
      p := pNew;
    }

    /** x = x_pred + K * innovation. */
    method AddGain(k: array2<real>, m: Measurement, n: real, e: real, vn: real, ve: real, ghost c: Cov, ghost r: real)
      requires x.Length == 4 && k.Length0 == 4 && k.Length1 == 2 && c.a + r != 0.0
      requires forall i, u :: 0 <= i < 4 && 0 <= u < 2 ==> k[i, u] == GainEntry(c, r, i, u)
      modifies x
      ensures x[0] == Pulled(n, PositionGain(c, r), n, m.north) && x[1] == Pulled(e, PositionGain(c, r), e, m.east)
      ensures x[2] == Pulled(vn, VelocityGain(c, r), n, m.north) && x[3] == Pulled(ve, VelocityGain(c, r), e, m.east)
    {
      var innovN, innovE := m.north - n, m.east - e;
      forall i | 0 <= i < 4 ensures k[i, 0] == GainEntry(c, r, i, 0) && k[i, 1] == GainEntry(c, r, i, 1) {}
      x[0] := Mix(n, k[0, 0], innovN, k[0, 1], innovE);
      x[1] := Mix(e, k[1, 0], innovN, k[1, 1], innovE);
      x[2] := Mix(vn, k[2, 0], innovN, k[2, 1], innovE);
      x[3] := Mix(ve, k[3, 0], innovN, k[3, 1], innovE);
      MixOneSided(n, PositionGain(c, r), n, m.north, innovE);
      MixOneSided(e, PositionGain(c, r), e, m.east, innovN);
      MixOneSided(vn, VelocityGain(c, r), n, m.north, innovE);
      MixOneSided(ve, VelocityGain(c, r), e, m.east, innovN);
    }

    /** Dead reckoning: reads the state, changes nothing. */
    method Predict(time: real, sqrt: real -> real) returns (out: Outcome)
      requires Valid()
      ensures View().Stuck? <==> out == Blocked
      ensures View().Fresh? <==> out == NoData
      ensures View().Running? ==> out == Done(Extrapolate(View().track, time, sqrt))
    {
      if locked { return Blocked; }
      if !initialized { return NoData; }
      var dt := time - lastUpdate;
      if dt <= 0.0 {
        var e := GetEstimate(time, sqrt);
        return Done(e);
      }
      if dt > MAX_DT_SEC { dt := MAX_DT_SEC; }
      assert p[1, 1] == BlockEntry(BlockOf(p), 1, 1);
      var predN, predE := Advance(x[0], x[2], dt), Advance(x[1], x[3], dt);
      var errorM := sqrt(p[0, 0] + p[1, 1] + ReportedNoise(dt));
      if errorM < 5.0 { errorM := 5.0; }
      if errorM > 5000.0 { errorM := 5000.0; }
      var speed := sqrt(SpeedSquared(x[2], x[3]));
      out := Done(Estimate(predN, predE, RoundTo(x[2], 100.0), RoundTo(x[3], 100.0),
                           RoundTo(speed, 100.0), RoundTo(errorM, 10.0), time));
    }
  }

  /** The predicted covariance of a decoupled track. */
  method PropagateBlock(p: array2<real>, dt: real, ghost c: Cov) returns (pPred: array2<real>)
    requires IsBlock(p, c) && PosDef(c) && dt > 0.0
    ensures fresh(pPred) && IsBlock(pPred, PredictCov(c, dt)) && PosDef(PredictCov(c, dt))
  {
    pPred := PropagateCovariance(p, dt);
    PropagatedIsBlock(p, pPred, c, dt);
    PredictKeepsPosDef(c, dt);
  }

  /** Innovation covariance, its inverse, and the squared Mahalanobis distance of the innovation. */
  method Innovation(pPred: array2<real>, rBase: real, innovN: real, innovE: real, ghost c: Cov)
    returns (s: Mat2, si: Mat2, mahal: real)
    requires IsBlock(pPred, c) && PosDef(c) && rBase >= 100.0
    ensures s == Isotropic(c.a + rBase) && si == Isotropic(si.m00) && si.m00 * (c.a + rBase) == 1.0
    ensures mahal == Normalised(innovN, innovE, c.a + rBase)
  {
    s := Mat2(pPred[0, 0] + rBase, pPred[0, 1], pPred[1, 0], pPred[1, 1] + rBase);
    ghost var sv := c.a + rBase;
    assert s == Isotropic(sv);
    var sDet := s.m00 * s.m11 - s.m01 * s.m10;
    InnovationDet(c, rBase);
    InverseOfIsotropic(sv);
    if Abs(sDet) < 0.0000000001 {
      // The singular exit is never taken.
      assert false;
    }
    si := Mat2(s.m11 / sDet, -s.m01 / sDet, -s.m10 / sDet, s.m00 / sDet);
    mahal := innovN * innovN * si.m00 + innovN * innovE * (si.m01 + si.m10) + innovE * innovE * si.m11;
    MahalanobisForm(innovN, innovE, si.m00, sv);
  }

  /** One component of x_pred + K * innovation. */
  function Mix(state: real, k0: real, innovN: real, k1: real, innovE: real): real {
    state + k0 * innovN + k1 * innovE
  }

  lemma MixOneSided(state: real, gain: real, predicted: real, z: real, other: real)
    ensures Mix(state, gain, z - predicted, 0.0, other) == Pulled(state, gain, predicted, z)
    ensures Mix(state, 0.0, other, gain, z - predicted) == Pulled(state, gain, predicted, z)
  {
  }

  lemma PropagatedIsBlock(p: array2<real>, pPred: array2<real>, c: Cov, dt: real)
    requires IsBlock(p, c) && Is4x4(pPred)
    requires forall i, j :: 0 <= i < 4 && 0 <= j < 4 ==>
               pPred[i, j] == Transported(p, dt, i, j) + BlockEntry(NoiseCov(dt), i, j)
    ensures IsBlock(pPred, PredictCov(c, dt))
  {
    forall i, j | 0 <= i < 4 && 0 <= j < 4
      ensures pPred[i, j] == BlockEntry(PredictCov(c, dt), i, j)
    {
      TransportOfBlock(p, c, dt, i, j);
    }
  }

  /** The innovation determinant of a positive definite track is far from zero. */
  lemma InnovationDet(c: Cov, r: real)
    requires PosDef(c) && r >= 100.0
    ensures (c.a + r) * (c.a + r) > 10000.0
  {
  }

  lemma MahalanobisForm(dn: real, de: real, inv: real, s: real)
    requires s != 0.0 && inv * s == 1.0
    ensures dn * dn * inv + dn * de * 0.0 + de * de * inv == Normalised(dn, de, s)
  {
  }
}
