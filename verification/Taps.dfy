/** Tap measurements in a local metre frame, and the weight each of them gets. */
module Taps {
  import opened RealMath
  import opened LeastSquares

  datatype Tap = Tap(x: real, y: real, distance: real, uncertainty: real, confidence: real)

  datatype Config = Config(maxIterations: nat, convergenceThresh: real, minTaps: int,
                           weightByConfidence: bool, weightByDistance: bool,
                           robustOutlierReject: bool, outlierThresholdSigma: real)

  const DEFAULT_CONFIG := Config(50, 1.0, 3, true, false, true, 2.5)

  function NormSq(x: real, y: real): real {
    x * x + y * y
  }

  lemma NormSqSign(x: real, y: real)
    ensures NormSq(x, y) >= 0.0
  {
  }

  // ---------------------------------------------------------------- weights

  lemma DistanceRoot(t: Tap, sqrt: real -> real)
    requires SqrtLaw(sqrt) && t.distance > 0.0
    ensures sqrt(t.distance / 1000.0 + 1.0) > 0.0
  {
  }

  function Weight(t: Tap, cfg: Config, sqrt: real -> real): real
    requires SqrtLaw(sqrt)
  {
    var w1 := if t.uncertainty > 0.0 then 1.0 / (t.uncertainty * t.uncertainty) else 1.0;
    var w2 := if cfg.weightByConfidence && t.confidence > 0.0 then w1 * t.confidence else w1;
    if cfg.weightByDistance && t.distance > 0.0 then
      DistanceRoot(t, sqrt);
      w2 * (1.0 / sqrt(t.distance / 1000.0 + 1.0))
    else w2
  }

  /** Every tap gets a positive weight, also one with zero uncertainty or zero confidence. */
  lemma WeightPositive(t: Tap, cfg: Config, sqrt: real -> real)
    requires SqrtLaw(sqrt)
    ensures Weight(t, cfg, sqrt) > 0.0
  {
  }

  /** The weight times the squared uncertainty: the part that confidence and distance decide. */
  function Credit(t: Tap, cfg: Config, sqrt: real -> real): (c: real)
    requires SqrtLaw(sqrt)
    ensures c > 0.0
  {
    var c := if cfg.weightByConfidence && t.confidence > 0.0 then t.confidence else 1.0;
    if cfg.weightByDistance && t.distance > 0.0 then
      DistanceRoot(t, sqrt);
      c / sqrt(t.distance / 1000.0 + 1.0)
    else c
  }

  lemma SameProduct(w: real, k: real, u: real, r: real)
    requires u != 0.0 && r != 0.0
    ensures Times(1.0 / (u * u) * k * (1.0 / r), Sq(u)) == k / r
    ensures Times(1.0 / (u * u) * k, Sq(u)) == k
  {
  }

  /** A tap without an uncertainty counts as one of 1 m. */
  lemma WeightWithout(t: Tap, cfg: Config, sqrt: real -> real)
    requires SqrtLaw(sqrt) && t.uncertainty <= 0.0
    ensures Weight(t, cfg, sqrt) == Credit(t, cfg, sqrt)
  {
  }

  /** Inverse-variance weighting: the weight times the squared uncertainty does not depend on the uncertainty. */
  lemma WeightIsInverseVariance(t: Tap, cfg: Config, sqrt: real -> real)
    requires SqrtLaw(sqrt) && t.uncertainty > 0.0
    ensures Times(Weight(t, cfg, sqrt), Sq(t.uncertainty)) == Credit(t, cfg, sqrt)
  {
    var u := t.uncertainty;
    var k := if cfg.weightByConfidence && t.confidence > 0.0 then t.confidence else 1.0;
    if cfg.weightByDistance && t.distance > 0.0 {
      DistanceRoot(t, sqrt);
      SameProduct(1.0, k, u, sqrt(t.distance / 1000.0 + 1.0));
    } else {
      SameProduct(1.0, k, u, 1.0);
    }
  }

  /** A larger uncertainty never gives a larger weight. */
  lemma WeightFalls(t: Tap, u: real, cfg: Config, sqrt: real -> real)
    requires SqrtLaw(sqrt) && 0.0 < t.uncertainty <= u
    ensures Weight(t.(uncertainty := u), cfg, sqrt) <= Weight(t, cfg, sqrt)
  {
    hide Weight;
    var t' := t.(uncertainty := u);
    WeightIsInverseVariance(t, cfg, sqrt);
    WeightIsInverseVariance(t', cfg, sqrt);
    WeightPositive(t', cfg, sqrt);
    SqOrder(t.uncertainty, u);
    FallsAgainst(Weight(t, cfg, sqrt), Weight(t', cfg, sqrt), Sq(t.uncertainty), Sq(u));
  }

  lemma FallsAgainst(w: real, w': real, a: real, b: real)
    requires 0.0 < a <= b && w' > 0.0 && Times(w, a) == Times(w', b)
    ensures w' <= w
  {
    MulMonotone(a, b, w');
    if w < w' { MulStrictlyMonotone(w, w', a); }
  }

  function Weights(taps: seq<Tap>, cfg: Config, sqrt: real -> real): (w: seq<real>)
    requires SqrtLaw(sqrt)
    ensures |w| == |taps| && Positive(w)
  {
    if taps == [] then []
    else
      var t := taps[|taps| - 1];
      WeightPositive(t, cfg, sqrt);
      Weights(taps[..|taps| - 1], cfg, sqrt) + [Weight(t, cfg, sqrt)]
  }
}
