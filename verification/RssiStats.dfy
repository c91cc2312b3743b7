/**
 Signal-strength statistics of one transmitter: least-squares trend, plain and detrended
 standard deviation, the mobility score built on them, and the approach/departure
 hysteresis.
 */
module RssiStats {
  import opened RealMath
  import opened LeastSquares
  import opened Sequences

  // ---------------------------------------------------------------- sums

  function Sum(y: seq<real>): real {
    if y == [] then 0.0 else Sum(y[..|y| - 1]) + y[|y| - 1]
  }

  function Mean(y: seq<real>): real {
    if y == [] then 0.0 else Sum(y) / |y| as real
  }

  /** Sample positions 0, 1, ..., n - 1. */
  function Index(n: nat): (x: seq<real>)
    ensures |x| == n && forall i :: 0 <= i < n ==> x[i] == i as real
  {
    seq(n, i => i as real)
  }

  /** Sum of (f[i] - a) * (g[i] - b). */
  function Centred(f: seq<real>, g: seq<real>, a: real, b: real): real
    requires |f| == |g|
  {
    if f == [] then 0.0
    else
      var n := |f| - 1;
      Centred(f[..n], g[..n], a, b) + Times(f[n] - a, g[n] - b)
  }

  function XMean(n: nat): real {
    (n as real - 1.0) / 2.0
  }

  function Sxx(n: nat): real {
    Centred(Index(n), Index(n), XMean(n), XMean(n))
  }

  function Sxy(y: seq<real>): real {
    Centred(Index(|y|), y, XMean(|y|), Mean(y))
  }

  function Slope(y: seq<real>): real {
    if |y| < 3 || Sxx(|y|) == 0.0 then 0.0 else Sxy(y) / Sxx(|y|)
  }

  function Intercept(y: seq<real>, slope: real): real {
    Mean(y) - Times(slope, XMean(|y|))
  }

  function Line(s: real, x: real, c: real): real {
    s * x + c
  }

  /** Squared error of the line s * i + c. */
  function LineError(y: seq<real>, s: real, c: real): real {
    Cost(Ones(|y|), Index(|y|), Ones(|y|), y, s, c)
  }

  // ---------------------------------------------------------------- the loops

  method ComputeMean(y: seq<real>) returns (m: real)
    ensures m == Mean(y) && (y == [] ==> m == 0.0)
  {
    if y == [] { return 0.0; }
    var sum := 0.0;
    for i := 0 to |y|
      invariant sum == Sum(y[..i])
    {
      assert y[..i + 1][..i] == y[..i];
      sum := sum + y[i];
    }
    assert y[..|y|] == y;
    m := sum / |y| as real;
  }

  ghost predicate Bounds(y: seq<real>, lo: real, hi: real) {
    lo in y && hi in y && forall i :: 0 <= i < |y| ==> lo <= y[i] <= hi
  }

  method MinMax(y: seq<real>) returns (lo: real, hi: real)
    ensures y == [] ==> lo == 0.0 && hi == 0.0
    ensures y != [] ==> Bounds(y, lo, hi)
  {
    if y == [] { return 0.0, 0.0; }
    lo, hi := y[0], y[0];
    for i := 1 to |y|
      invariant lo in y && hi in y && forall j :: 0 <= j < i ==> lo <= y[j] <= hi
    {
      if y[i] < lo { lo := y[i]; }
      if y[i] > hi { hi := y[i]; }
    }
  }

  method ComputeTrend(y: seq<real>) returns (slope: real)
    ensures slope == Slope(y) && (|y| < 3 ==> slope == 0.0)
  {
    hide Times;
    hide Mean;
    var n := |y|;
    if n < 3 { return 0.0; }
    var xMean := (n as real - 1.0) / 2.0;
    var yMean := ComputeMean(y);
    var numerator, denominator := 0.0, 0.0;
    for i := 0 to n
      invariant numerator == Centred(Index(n)[..i], y[..i], xMean, yMean)
      invariant denominator == Centred(Index(n)[..i], Index(n)[..i], xMean, xMean)
    {
      var dx := i as real - xMean;
      assert y[..i + 1][..i] == y[..i] && Index(n)[..i + 1][..i] == Index(n)[..i];
      numerator := numerator + Times(dx, y[i] - yMean);
      denominator := denominator + Times(dx, dx);
    }
    assert y[..n] == y && Index(n)[..n] == Index(n);
    if denominator == 0.0 { return 0.0; }
    slope := numerator / denominator;
  }

  /** Sum of squared residuals around the line through the means. */
  method ResidualEnergy(y: seq<real>, slope: real, intercept: real) returns (e: real)
    ensures e == LineError(y, slope, intercept)
  {
    hide WSquare;
    hide Residual;
    hide Line;
    e := 0.0;
    var n := |y|;
    for i := 0 to n
      invariant e == Cost(Ones(n)[..i], Index(n)[..i], Ones(n)[..i], y[..i], slope, intercept)
    {
      var predicted := Line(slope, i as real, intercept);
      var residual := y[i] - predicted;
      ResidualTerm(y[i], slope, i as real, intercept);
      assert y[..i + 1][..i] == y[..i] && Index(n)[..i + 1][..i] == Index(n)[..i]
          && Ones(n)[..i + 1][..i] == Ones(n)[..i];
      e := e + WSquare(1.0, residual);
    }
    assert y[..n] == y && Index(n)[..n] == Index(n) && Ones(n)[..n] == Ones(n);
  }

  lemma ResidualTerm(y: real, s: real, x: real, c: real)
    ensures y - Line(s, x, c) == Residual(y, x, 1.0, s, c)
  {
  }

  // ---------------------------------------------------------------- regression identities

  lemma {:induction false} CentredExpands(f: seq<real>, g: seq<real>, a: real, b: real)
    requires |f| == |g|
    ensures Centred(f, g, a, b)
         == Sum3(Ones(|f|), f, g) - Times(a, Sum(g)) - Times(b, Sum(f)) + Times(|f| as real, Times(a, b))
  {
    if f != [] {
      var n := |f| - 1;
      CentredExpands(f[..n], g[..n], a, b);
      assert Ones(n + 1)[..n] == Ones(n);
      CentredTerm(f[n], g[n], a, b, Sum(f[..n]), Sum(g[..n]), n as real);
    }
  }

  lemma CentredTerm(f: real, g: real, a: real, b: real, sf: real, sg: real, n: real)
    ensures Times(f - a, g - b)
         == Prod3(1.0, f, g) - (Times(a, sg + g) - Times(a, sg)) - (Times(b, sf + f) - Times(b, sf))
                                   + (Times(n + 1.0, Times(a, b)) - Times(n, Times(a, b)))
  {
  }

  lemma {:induction false} SumOfIndex(n: nat)
    ensures Sum(Index(n)) == Times(n as real, XMean(n))
  {
    if n > 0 {
      assert Index(n)[..n - 1] == Index(n - 1);
      SumOfIndex(n - 1);
      IndexStep(n as real);
    }
  }

  lemma IndexStep(n: real)
    ensures Times(n, (n - 1.0) / 2.0) == Times(n - 1.0, (n - 1.0 - 1.0) / 2.0) + (n - 1.0)
  {
  }

  lemma {:induction false} SumIsDot(y: seq<real>)
    ensures Sum3(Ones(|y|), Ones(|y|), y) == Sum(y) && Sum3(Ones(|y|), y, Ones(|y|)) == Sum(y)
  {
    if y != [] {
      SumIsDot(y[..|y| - 1]);
      assert Ones(|y|)[..|y| - 1] == Ones(|y| - 1);
    }
  }

  lemma {:induction false} SumOfOnes(n: nat)
    ensures Sum(Ones(n)) == n as real
  {
    if n > 0 {
      assert Ones(n)[..n - 1] == Ones(n - 1);
      SumOfOnes(n - 1);
    }
  }

  lemma MeanTimesCount(y: seq<real>)
    ensures Times(|y| as real, Mean(y)) == Sum(y)
  {
  }

  /** The sums of the regression problem. */
  lemma RegressionSums(y: seq<real>)
    ensures var n, w, x := |y| as real, Ones(|y|), Index(|y|);
            && Sum3(w, x, w) == Sum3(w, w, x) == Times(n, XMean(|y|))
            && Sum3(w, w, w) == n && Sum3(w, w, y) == Times(n, Mean(y))
            && Sum3(w, x, x) == Sxx(|y|) + Times(n, Times(XMean(|y|), XMean(|y|)))
            && Sum3(w, x, y) == Sxy(y) + Times(n, Times(XMean(|y|), Mean(y)))
  {
    var n, x := |y| as real, Index(|y|);
    var xm, ym := XMean(|y|), Mean(y);
    SumIsDot(x);
    SumIsDot(y);
    SumIsDot(Ones(|y|));
    SumOfOnes(|y|);
    SumOfIndex(|y|);
    MeanTimesCount(y);
    CentredExpands(x, x, xm, xm);
    CentredExpands(x, y, xm, ym);
    MoveFactor(xm, n, xm);
    MoveFactor(xm, n, ym);
    MoveFactor(ym, n, xm);
    TimesCommutes(xm, ym);
  }

  lemma MoveFactor(a: real, n: real, b: real)
    ensures Times(a, Times(n, b)) == Times(n, Times(a, b))
  {
  }

  lemma {:induction false} CentredSquareSign(f: seq<real>, a: real)
    ensures Centred(f, f, a, a) >= 0.0
    ensures f != [] && f[0] != a ==> Centred(f, f, a, a) > 0.0
  {
    if f != [] {
      var n := |f| - 1;
      CentredSquareSign(f[..n], a);
      SqSign(f[n] - a);
      assert Times(f[n] - a, f[n] - a) == Sq(f[n] - a);
    }
  }

  /** Three or more samples have a spread of positions: the zero-denominator branch is dead. */
  lemma SxxPositive(n: nat)
    requires n >= 3
    ensures Sxx(n) > 0.0
  {
    CentredSquareSign(Index(n), XMean(n));
  }

  /** Slope and intercept satisfy the normal equations of the line fit. */
  lemma SlopeSolves(y: seq<real>)
    requires |y| >= 3
    ensures var w, x := Ones(|y|), Index(|y|);
            NormalEquations(Sum3(w, x, x), Sum3(w, x, w), Sum3(w, w, w), Sum3(w, x, y), Sum3(w, w, y),
                            Slope(y), Intercept(y, Slope(y)))
  {
    hide Times;
    hide NormalEquations;
    hide Sxx;
    hide Sxy;
    hide Mean;
    hide XMean;
    SlopeTimes(y);
    RegressionSums(y);
    SlopeAlgebra(|y| as real, Slope(y), XMean(|y|), Mean(y), Sxx(|y|), Sxy(y));
  }

  lemma SlopeTimes(y: seq<real>)
    requires |y| >= 3
    ensures Times(Slope(y), Sxx(|y|)) == Sxy(y)
  {
    SxxPositive(|y|);
    DivCancel(Sxy(y), Sxx(|y|));
  }

  lemma SlopeAlgebra(n: real, s: real, xm: real, ym: real, sxx: real, sxy: real)
    requires Times(s, sxx) == sxy
    ensures NormalEquations(sxx + Times(n, Times(xm, xm)), Times(n, xm), n, sxy + Times(n, Times(xm, ym)), Times(n, ym),
                            s, ym - Times(s, xm))
  {
  }

  /** The fitted line is the best of all lines. */
  lemma FitIsOptimal(y: seq<real>, s: real, c: real)
    requires |y| >= 3
    ensures LineError(y, Slope(y), Intercept(y, Slope(y))) <= LineError(y, s, c)
  {
    SlopeSolves(y);
    SolutionIsLeastSquares(Ones(|y|), Index(|y|), Ones(|y|), y, Slope(y), Intercept(y, Slope(y)), s, c);
  }

  /** Total variation splits into the part the trend explains and the part around the trend. */
  lemma VarianceSplits(y: seq<real>)
    requires |y| >= 3
    ensures LineError(y, 0.0, Mean(y))
         == Times(Sq(Slope(y)), Sxx(|y|)) + LineError(y, Slope(y), Intercept(y, Slope(y)))
  {
    var w, x := Ones(|y|), Index(|y|);
    var s, c := Slope(y), Intercept(y, Slope(y));
    SlopeSolves(y);
    CostIsQuadratic(w, x, w, y, s, c);
    CostIsQuadratic(w, x, w, y, 0.0, Mean(y));
    QuadShift(Sum3(w, x, x), Sum3(w, x, w), Sum3(w, w, w), Sum3(w, x, y), Sum3(w, w, y), s, c, 0.0, Mean(y));
    RegressionSums(y);
    TrendShare(|y| as real, s, XMean(|y|), Sxx(|y|), 0.0 - s, Mean(y) - c);
  }

  lemma TrendShare(n: real, s: real, xm: real, sxx: real, u: real, v: real)
    requires u == -s && v == Times(s, xm)
    ensures Quad(sxx + Times(n, Times(xm, xm)), Times(n, xm), n, u, v) == Times(Sq(s), sxx)
  {
  }

  // ---------------------------------------------------------------- spread

  lemma {:induction false} VariationIsCentred(y: seq<real>, x: seq<real>, m: real)
    requires |x| == |y|
    ensures Cost(Ones(|y|), x, Ones(|y|), y, 0.0, m) == Centred(y, y, m, m)
  {
    if y != [] {
      var n := |y| - 1;
      assert Ones(n + 1)[..n] == Ones(n);
      VariationIsCentred(y[..n], x[..n], m);
      assert WSquare(1.0, Residual(y[n], x[n], 1.0, 0.0, m)) == Times(y[n] - m, y[n] - m);
    }
  }

  lemma {:induction false} InsideBounds(y: seq<real>, lo: real, hi: real)
    requires forall i :: 0 <= i < |y| ==> lo <= y[i] <= hi
    ensures Centred(y, y, lo, hi) <= 0.0
  {
    if y != [] {
      var n := |y| - 1;
      InsideBounds(y[..n], lo, hi);
      MulNonNegative(y[n] - lo, hi - y[n]);
    }
  }

  /** Samples inside [lo, hi] vary by at most half the range around their mean. */
  lemma SpreadBound(y: seq<real>, lo: real, hi: real)
    requires forall i :: 0 <= i < |y| ==> lo <= y[i] <= hi
    ensures LineError(y, 0.0, Mean(y)) <= Times(|y| as real, Sq((hi - lo) / 2.0))
  {
    var m := Mean(y);
    VariationIsCentred(y, Index(|y|), m);
    CentredExpands(y, y, m, m);
    CentredExpands(y, y, lo, hi);
    InsideBounds(y, lo, hi);
    MeanTimesCount(y);
    SpreadAlgebra(|y| as real, m, lo, hi, Sum3(Ones(|y|), y, y), Sum(y));
  }

  lemma SpreadAlgebra(n: real, m: real, lo: real, hi: real, yy: real, s: real)
    requires n >= 0.0 && Times(n, m) == s
    requires yy - Times(lo, s) - Times(hi, s) + Times(n, Times(lo, hi)) <= 0.0
    ensures yy - Times(m, s) - Times(m, s) + Times(n, Times(m, m)) <= Times(n, Sq((hi - lo) / 2.0))
  {
    var h, q := (hi - lo) / 2.0, m - (hi + lo) / 2.0;
    SqSign(q);
    TimesSign(n, Sq(q));
    assert Times(lo, s) + Times(hi, s) - Times(n, Times(lo, hi)) - Times(m, s) - Times(m, s) + Times(n, Times(m, m))
        == Times(n, Sq(h)) - Times(n, Sq(q)) by { SpreadIdentity(n, m, lo, hi, s); }
  }

  lemma SpreadIdentity(n: real, m: real, lo: real, hi: real, s: real)
    requires Times(n, m) == s
    ensures Times(lo, s) + Times(hi, s) - Times(n, Times(lo, hi)) - Times(m, s) - Times(m, s) + Times(n, Times(m, m))
         == Times(n, Sq((hi - lo) / 2.0)) - Times(n, Sq(m - (hi + lo) / 2.0))
  {
  }

  // ---------------------------------------------------------------- mobility

  const MOBILITY_THRESHOLD := 0.5

  function RangeScore(range: real): real {
    if range > 15.0 then 0.4 else if range > 10.0 then 0.3 else if range > 6.0 then 0.15
    else if range < 3.0 then -0.1 else 0.0
  }

  function TrendScore(slope: real): real {
    var t := Abs(slope);
    if t > 0.5 then 0.3 else if t > 0.3 then 0.2 else if t > 0.15 then 0.1 else 0.0
  }

  function DeviationScore(std: real): real {
    if std > 6.0 then 0.3 else if std > 4.0 then 0.2 else if std > 2.5 then 0.1
    else if std < 1.5 then -0.15 else 0.0
  }

  /** Combined score, clamped to [0, 1] and rounded to two decimals. */
  function MobilityScore(range: real, slope: real, std: real, jitter: real, detrended: real): real {
    var score := RangeScore(range) + TrendScore(slope) + DeviationScore(std)
                 + (if jitter > 3.0 then 0.1 else 0.0) + (if detrended > 3.0 then 0.1 else 0.0);
    Round(Clamp(score, 0.0, 1.0) * 100.0) / 100.0
  }

  /** The score as a flight of stairs, one per metric: each level that is reached adds its points to -0.25. */
  function Stairs(range: real, slope: real, std: real, jitter: real, detrended: real): real {
    var t := Abs(slope);
    -0.25
    + When(range >= 3.0, 0.1) + When(range > 6.0, 0.15) + When(range > 10.0, 0.15) + When(range > 15.0, 0.1)
    + When(t > 0.15, 0.1) + When(t > 0.3, 0.1) + When(t > 0.5, 0.1)
    + When(std >= 1.5, 0.15) + When(std > 2.5, 0.1) + When(std > 4.0, 0.1) + When(std > 6.0, 0.1)
    + When(jitter > 3.0, 0.1) + When(detrended > 3.0, 0.1)
  }

  lemma SameStairs(range: real, slope: real, std: real, jitter: real, detrended: real)
    ensures RangeScore(range) + TrendScore(slope) + DeviationScore(std)
            + (if jitter > 3.0 then 0.1 else 0.0) + (if detrended > 3.0 then 0.1 else 0.0)
         == Stairs(range, slope, std, jitter, detrended)
  {
  }

  /** A whole number of twentieths. */
  ghost predicate InTwentieths(x: real, k: int) {
    x == k as real / 20.0
  }

  lemma StairsInTwentieths(range: real, slope: real, std: real, jitter: real, detrended: real) returns (k: int)
    ensures InTwentieths(Stairs(range, slope, std, jitter, detrended), k)
  {
    var t := Abs(slope);
    k := -5 + (if range >= 3.0 then 2 else 0) + (if range > 6.0 then 3 else 0) + (if range > 10.0 then 3 else 0)
         + (if range > 15.0 then 2 else 0) + (if t > 0.15 then 2 else 0) + (if t > 0.3 then 2 else 0)
         + (if t > 0.5 then 2 else 0) + (if std >= 1.5 then 3 else 0) + (if std > 2.5 then 2 else 0)
         + (if std > 4.0 then 2 else 0) + (if std > 6.0 then 2 else 0) + (if jitter > 3.0 then 2 else 0)
         + (if detrended > 3.0 then 2 else 0);
  }

  lemma RoundingIsExact(x: real, k: int)
    requires InTwentieths(x, k) && x >= 0.0
    ensures Round(x * 100.0) / 100.0 == x
  {
    assert x * 100.0 == (5 * k) as real;
    assert (x * 100.0 + 0.5).Floor == 5 * k;
  }

  /** Rounding to two decimals never changes a score: it is the flight of stairs, cut off at 0 and 1. */
  lemma ScoreIsStairs(range: real, slope: real, std: real, jitter: real, detrended: real)
    ensures MobilityScore(range, slope, std, jitter, detrended)
         == Clamp(Stairs(range, slope, std, jitter, detrended), 0.0, 1.0)
  {
    hide Stairs;
    hide RangeScore;
    hide TrendScore;
    hide DeviationScore;
    var x := Stairs(range, slope, std, jitter, detrended);
    var k := StairsInTwentieths(range, slope, std, jitter, detrended);
    SameStairs(range, slope, std, jitter, detrended);
    if x < 0.0 {
      RoundingIsExact(0.0, 0);
    } else if x > 1.0 {
      RoundingIsExact(1.0, 20);
    } else {
      RoundingIsExact(x, k);
    }
  }

  /** More of every metric never lowers the score. */
  lemma ScoreIsMonotone(range: real, slope: real, std: real, jitter: real, detrended: real,
                        range': real, slope': real, std': real, jitter': real, detrended': real)
    requires range <= range' && Abs(slope) <= Abs(slope') && std <= std' && jitter <= jitter'
    requires detrended <= detrended'
    ensures MobilityScore(range, slope, std, jitter, detrended)
         <= MobilityScore(range', slope', std', jitter', detrended')
  {
    hide MobilityScore;
    ScoreIsStairs(range, slope, std, jitter, detrended);
    ScoreIsStairs(range', slope', std', jitter', detrended');
  }

  datatype Profile = Profile(variance: real, stdDev: real, range: real, jitter: real, detrended: real,
                             slope: real, score: real, mobile: bool, count: nat)

  /** Sum of absolute differences of neighbours. */
  function JitterSum(y: seq<real>): real {
    if |y| < 2 then 0.0 else JitterSum(y[..|y| - 1]) + Abs(y[|y| - 1] - y[|y| - 2])
  }

  lemma {:induction false} JitterCovers(y: seq<real>, i: nat)
    requires i < |y|
    ensures Abs(y[|y| - 1] - y[i]) <= JitterSum(y)
  {
    if i < |y| - 1 { JitterCovers(y[..|y| - 1], i); } else { JitterSign(y); }
  }

  lemma {:induction false} JitterSign(y: seq<real>)
    ensures JitterSum(y) >= 0.0
  {
    if |y| >= 2 { JitterSign(y[..|y| - 1]); }
  }

  lemma {:induction false} JitterGrows(y: seq<real>, n: nat)
    requires n <= |y|
    ensures JitterSum(y[..n]) <= JitterSum(y)
  {
    if n < |y| {
      JitterGrows(y[..|y| - 1], n);
      assert y[..|y| - 1][..n] == y[..n];
      if |y| < 2 { assert JitterSum(y[..n]) == 0.0; }
    } else {
      assert y[..n] == y;
    }
  }

  lemma {:induction false} JitterAbove(y: seq<real>, gap: real)
    requires y != [] && forall i, j :: 0 <= i < |y| && 0 <= j < |y| ==> y[i] - y[j] <= gap
    ensures JitterSum(y) <= Times((|y| - 1) as real, gap)
  {
    if |y| >= 2 {
      var n := |y| - 1;
      JitterAbove(y[..n], gap);
      assert y[n] - y[n - 1] <= gap && y[n - 1] - y[n] <= gap;
      assert Times(n as real, gap) == Times((n - 1) as real, gap) + gap;
    }
  }

  /** The total change lies between the range and the range once per step. */
  lemma JitterBounds(y: seq<real>, lo: real, hi: real)
    requires Bounds(y, lo, hi)
    ensures hi - lo <= JitterSum(y) <= Times((|y| - 1) as real, hi - lo)
  {
    hide JitterSum;
    var i :| 0 <= i < |y| && y[i] == lo;
    var j :| 0 <= j < |y| && y[j] == hi;
    var a, b := if i < j then i else j, if i < j then j else i;
    JitterCovers(y[..b + 1], a);
    JitterGrows(y, b + 1);
    JitterAbove(y, hi - lo);
  }

  function ProfileOf(y: seq<real>, lo: real, hi: real, sqrt: real -> real): Profile
    requires |y| >= 3
  {
    var variance := LineError(y, 0.0, Mean(y)) / |y| as real;
    var slope := Slope(y);
    var detrended := sqrt(LineError(y, slope, Intercept(y, slope)) / |y| as real);
    var jitter := JitterSum(y) / (|y| - 1) as real;
    var score := MobilityScore(hi - lo, slope, sqrt(variance), jitter, detrended);
    Profile(variance, sqrt(variance), hi - lo, jitter, detrended, slope, score, score > MOBILITY_THRESHOLD, |y|)
  }

  datatype Sample = Sample(time: real, rssi: real)

  function InWindow(samples: seq<Sample>, cutoff: real): seq<real> {
    if samples == [] then []
    else
      var s := samples[|samples| - 1];
      InWindow(samples[..|samples| - 1], cutoff) + (if s.time > cutoff then [s.rssi] else [])
  }

  /** The readings of a list of samples. */
  function Strengths(samples: seq<Sample>): (y: seq<real>)
    ensures |y| == |samples| && forall i :: 0 <= i < |y| ==> y[i] == samples[i].rssi
  {
    seq(|samples|, i requires 0 <= i < |samples| => samples[i].rssi)
  }

  function Newer(samples: seq<Sample>, cutoff: real): nat -> bool {
    i => 0 <= i < |samples| && samples[i].time > cutoff
  }

  lemma WindowSnoc(samples: seq<Sample>, cutoff: real, n: nat)
    requires n < |samples|
    ensures InWindow(samples[..n + 1], cutoff)
         == InWindow(samples[..n], cutoff) + (if Newer(samples, cutoff)(n) then [samples[n].rssi] else [])
  {
    assert samples[..n + 1][..n] == samples[..n];
  }

  lemma EmptyWindow(samples: seq<Sample>, cutoff: real)
    ensures InWindow(samples[..0], cutoff) == Strengths(Pick(samples, [])) && Lists([], 0, Newer(samples, cutoff))
  {
  }

  lemma StrengthsSnoc(samples: seq<Sample>, s: Sample)
    ensures Strengths(samples + [s]) == Strengths(samples) + [s.rssi]
  {
  }

  lemma {:induction false} WindowUpTo(samples: seq<Sample>, cutoff: real, n: nat) returns (ix: seq<nat>)
    requires n <= |samples|
    ensures Lists(ix, n, Newer(samples, cutoff)) && InWindow(samples[..n], cutoff) == Strengths(Pick(samples, ix))
  {
    hide InWindow;
    hide Lists;
    hide Strengths;
    if n == 0 {
      ix := [];
      EmptyWindow(samples, cutoff);
    } else {
      var before := WindowUpTo(samples, cutoff, n - 1);
      WindowSnoc(samples, cutoff, n - 1);
      ListsSnoc(before, n - 1, Newer(samples, cutoff));
      StrengthsSnoc(Pick(samples, before), samples[n - 1]);
      PickSnoc(samples, before, n - 1, Newer(samples, cutoff)(n - 1));
      ix := Listed(before, n - 1, Newer(samples, cutoff)(n - 1));
    }
  }

  /** The window holds, in order and one each, the readings of exactly the samples newer than the cutoff. */
  lemma WindowPicks(samples: seq<Sample>, cutoff: real) returns (ix: seq<nat>)
    ensures Lists(ix, |samples|, Newer(samples, cutoff)) && InWindow(samples, cutoff) == Strengths(Pick(samples, ix))
  {
    ix := WindowUpTo(samples, cutoff, |samples|);
    assert samples[..|samples|] == samples;
  }

  ghost predicate Chronological(samples: seq<Sample>) {
    forall i, j :: 0 <= i <= j < |samples| ==> samples[i].time <= samples[j].time
  }

  /** Of samples in the order of time the window is a suffix. */
  lemma {:induction false} WindowIsSuffix(samples: seq<Sample>, cutoff: real) returns (m: nat)
    requires Chronological(samples)
    ensures m <= |samples| && InWindow(samples, cutoff) == Strengths(samples[m..])
    ensures forall i :: 0 <= i < |samples| ==> (i >= m <==> samples[i].time > cutoff)
  {
    hide InWindow;
    hide Strengths;
    if samples == [] {
      m := 0;
      EmptyWindow(samples, cutoff);
      assert samples[..0] == Pick(samples, []) == samples;
    } else {
      var n := |samples| - 1;
      assert forall i :: 0 <= i < n ==> samples[i].time <= samples[n].time;
      m := WindowIsSuffix(samples[..n], cutoff);
      assert m < n ==> cutoff < samples[..n][m].time <= samples[n].time;
      WindowSnoc(samples, cutoff, n);
      assert samples[..n + 1] == samples;
      if samples[n].time > cutoff {
        StrengthsSnoc(samples[..n][m..], samples[n]);
        assert samples[m..] == samples[..n][m..] + [samples[n]];
      } else {
        assert m == n;
        assert samples[..n][m..] == samples[n + 1..];
        m := n + 1;
      }
    }
  }

  /** Every sample newer than the cutoff lies between lo and hi. */
  ghost predicate Confined(samples: seq<Sample>, cutoff: real, lo: real, hi: real) {
    forall i :: 0 <= i < |samples| && samples[i].time > cutoff ==> lo <= samples[i].rssi <= hi
  }

  /** What the profile of the samples newer than the cutoff is. */
  ghost predicate ProfileSince(p: Profile, samples: seq<Sample>, cutoff: real, sqrt: real -> real) {
    var y := InWindow(samples, cutoff);
    if |y| < 3 then p == Profile(0.0, 0.0, 0.0, 0.0, 0.0, 0.0, 0.0, false, |y|)
    else exists lo, hi :: Bounds(y, lo, hi) && p == ProfileOf(y, lo, hi, sqrt)
  }

  /** Samples that vary by at most 6 dB within the window are not mobile, whatever the older ones do. */
  lemma QuietIsNotMobile(p: Profile, samples: seq<Sample>, cutoff: real, lo: real, hi: real, sqrt: real -> real)
    requires SqrtLaw(sqrt) && ProfileSince(p, samples, cutoff, sqrt)
    requires Confined(samples, cutoff, lo, hi) && hi - lo <= 6.0
    ensures !p.mobile
  {
    hide ProfileOf;
    var y := InWindow(samples, cutoff);
    var ix := WindowPicks(samples, cutoff);
    forall k | 0 <= k < |y| ensures lo <= y[k] <= hi {
      assert Newer(samples, cutoff)(ix[k]) && y[k] == samples[ix[k]].rssi;
    }
    if |y| >= 3 {
      var a, b :| Bounds(y, a, b) && p == ProfileOf(y, a, b, sqrt);
      MobileNeedsRange(y, a, b, sqrt);
    }
  }

  /** Filters the samples to the window and computes every metric by its own loop. */
  method ComputeMobilityProfile(samples: seq<Sample>, windowSec: real, now: real, sqrt: real -> real)
    returns (p: Profile)
    ensures |samples| < 3 ==> p == Profile(0.0, 0.0, 0.0, 0.0, 0.0, 0.0, 0.0, false, 0)
    ensures var cutoff := now - (if windowSec == 0.0 then 30.0 else windowSec);
            |samples| >= 3 ==> ProfileSince(p, samples, cutoff, sqrt)
    ensures var cutoff := now - (if windowSec == 0.0 then 30.0 else windowSec);
            forall lo, hi :: SqrtLaw(sqrt) && Confined(samples, cutoff, lo, hi) && hi - lo <= 6.0 ==> !p.mobile
  {
    hide LineError;
    hide Mean;
    hide Slope;
    hide Intercept;
    hide JitterSum;
    hide MobilityScore;
    hide Confined;
    p := Profile(0.0, 0.0, 0.0, 0.0, 0.0, 0.0, 0.0, false, 0);
    if |samples| < 3 { return; }
    var cutoff := now - (if windowSec == 0.0 then 30.0 else windowSec);
    var y: seq<real> := [];
    for i := 0 to |samples|
      invariant y == InWindow(samples[..i], cutoff)
    {
      assert samples[..i + 1][..i] == samples[..i];
      if samples[i].time > cutoff { y := y + [samples[i].rssi]; }
    }
    assert samples[..|samples|] == samples;
    if |y| < 3 { return p.(count := |y|); }
    var lo, hi := MinMax(y);
    p := Measure(y, lo, hi, sqrt);
    assert ProfileSince(p, samples, cutoff, sqrt);
    forall a, b | SqrtLaw(sqrt) && Confined(samples, cutoff, a, b) && b - a <= 6.0 ensures !p.mobile {
      QuietIsNotMobile(p, samples, cutoff, a, b, sqrt);
    }
  }

  method Measure(y: seq<real>, lo: real, hi: real, sqrt: real -> real) returns (p: Profile)
    requires |y| >= 3
    ensures p == ProfileOf(y, lo, hi, sqrt)
  {
    hide LineError;
    hide Mean;
    hide Slope;
    hide JitterSum;
    hide MobilityScore;
    hide Times;
    var n := |y| as real;
    var mean := ComputeMean(y);
    var sumSqDiff := ResidualEnergy(y, 0.0, mean);
    var variance := sumSqDiff / n;
    var jitterSum := ComputeJitter(y);
    var slope := ComputeTrend(y);
    var intercept := mean - Times(slope, (n - 1.0) / 2.0);
    var sumSqResidual := ResidualEnergy(y, slope, intercept);
    var detrended := sqrt(sumSqResidual / n);
    var jitter := jitterSum / (|y| - 1) as real;
    var score := MobilityScore(hi - lo, slope, sqrt(variance), jitter, detrended);
    p := Profile(variance, sqrt(variance), hi - lo, jitter, detrended, slope, score, score > MOBILITY_THRESHOLD, |y|);
  }

  method ComputeJitter(y: seq<real>) returns (sum: real)
    requires |y| >= 2
    ensures sum == JitterSum(y)
  {
    sum := 0.0;
    assert JitterSum(y[..1]) == 0.0;
    for i := 1 to |y|
      invariant sum == JitterSum(y[..i])
    {
      assert y[..i + 1][..i] == y[..i];
      sum := sum + Abs(y[i] - y[i - 1]);
    }
    assert y[..|y|] == y;
  }

  lemma RootMonotone(a: real, b: real, sqrt: real -> real)
    requires SqrtLaw(sqrt) && 0.0 <= a <= b
    ensures 0.0 <= sqrt(a) <= sqrt(b)
  {
    assert IsSqrt(sqrt(a), a) && IsSqrt(sqrt(b), b);
    SqOrder(sqrt(a), sqrt(b));
  }

  lemma QuotientMonotone(a: real, b: real, n: real)
    requires n > 0.0 && a <= b
    ensures a / n <= b / n
  {
  }

  lemma VariationSign(y: seq<real>, s: real, c: real)
    ensures LineError(y, s, c) >= 0.0
  {
    CostSign(Ones(|y|), Index(|y|), Ones(|y|), y, s, c);
  }

  lemma {:induction false} CostSign(w: seq<real>, f: seq<real>, g: seq<real>, r: seq<real>, x: real, y: real)
    requires |w| == |f| == |g| == |r| && Positive(w)
    ensures Cost(w, f, g, r, x, y) >= 0.0
  {
    if w != [] {
      var n := |w| - 1;
      CostSign(w[..n], f[..n], g[..n], r[..n], x, y);
      WeightedSquare(w[n], Residual(r[n], f[n], g[n], x, y));
    }
  }

  /** Detrended deviation <= plain deviation <= half the range. */
  lemma DeviationChain(y: seq<real>, lo: real, hi: real, sqrt: real -> real)
    requires SqrtLaw(sqrt) && |y| >= 3 && Bounds(y, lo, hi)
    ensures var p := ProfileOf(y, lo, hi, sqrt);
            0.0 <= p.detrended <= p.stdDev <= p.range / 2.0
  {
    hide MobilityScore;
    hide JitterSum;
    hide LineError;
    hide Mean;
    hide Slope;
    var n, s := |y| as real, Slope(y);
    var fit, total := LineError(y, s, Intercept(y, s)), LineError(y, 0.0, Mean(y));
    FitIsOptimal(y, 0.0, Mean(y));
    VariationSign(y, s, Intercept(y, s));
    VariationSign(y, 0.0, Mean(y));
    QuotientMonotone(fit, total, n);
    DivPositive(fit, n);
    DivPositive(total, n);
    RootMonotone(fit / n, total / n, sqrt);
    SpreadBound(y, lo, hi);
    RootBelowHalf(total, n, (hi - lo) / 2.0, sqrt);
  }

  lemma RootBelowHalf(total: real, n: real, half: real, sqrt: real -> real)
    requires SqrtLaw(sqrt) && n > 0.0 && 0.0 <= total <= Times(n, Sq(half)) && half >= 0.0
    ensures sqrt(total / n) <= half
  {
    var v := total / n;
    DivPositive(total, n);
    assert IsSqrt(sqrt(v), v);
    assert v <= Sq(half) by {
      if v > Sq(half) {
        MulStrictlyMonotone(Sq(half), v, n);
        DivCancel(total, n);
      }
    }
    SqOrder(sqrt(v), half);
  }

  /** A transmitter is only called mobile when its signal strength spans more than 6 dB. */
  lemma MobileNeedsRange(y: seq<real>, lo: real, hi: real, sqrt: real -> real)
    requires SqrtLaw(sqrt) && |y| >= 3 && Bounds(y, lo, hi)
    ensures ProfileOf(y, lo, hi, sqrt).mobile ==> hi - lo > 6.0
  {
    hide LineError;
    hide Mean;
    hide Slope;
    hide JitterSum;
    DeviationChain(y, lo, hi, sqrt);
    var p := ProfileOf(y, lo, hi, sqrt);
    if hi - lo <= 6.0 { ScoreNeedsRange(p.range, p.slope, p.stdDev, p.jitter, p.detrended); }
  }

  lemma ScoreNeedsRange(range: real, slope: real, std: real, jitter: real, detrended: real)
    requires range <= 6.0 && std <= 3.0 && detrended <= 3.0
    ensures MobilityScore(range, slope, std, jitter, detrended) <= MOBILITY_THRESHOLD
  {
  }

  lemma Centred3(f: seq<real>, g: seq<real>, a: real, b: real)
    requires |f| == |g| == 3
    ensures Centred(f, g, a, b) == Times(f[0] - a, g[0] - b) + Times(f[1] - a, g[1] - b) + Times(f[2] - a, g[2] - b)
  {
    var f2, g2 := f[..2], g[..2];
    var f1, g1 := f2[..1], g2[..1];
    assert Centred(f1[..0], g1[..0], a, b) == 0.0;
    assert Centred(f1, g1, a, b) == Times(f[0] - a, g[0] - b);
    assert Centred(f2, g2, a, b) == Centred(f1, g1, a, b) + Times(f[1] - a, g[1] - b);
  }

  /** The statistics of a step of height v after two silent samples. */
  lemma StepStatistics(v: real)
    ensures var y := [0.0, 0.0, v];
            Mean(y) == v / 3.0 && Slope(y) == v / 2.0 && JitterSum(y) == Abs(v)
            && LineError(y, 0.0, Mean(y)) == Times(2.0 / 3.0, Sq(v))
  {
    var y := [0.0, 0.0, v];
    assert y[..2][..1][..0] == [] && y[..2][..1] == [0.0] && y[..2] == [0.0, 0.0];
    assert Sum(y[..2][..1]) == 0.0;
    assert Sum(y[..2]) == 0.0;
    assert Sum(y) == v;
    assert JitterSum(y[..2]) == JitterSum(y[..2][..1]) + Abs(0.0 - 0.0);
    Centred3(Index(3), Index(3), XMean(3), XMean(3));
    Centred3(Index(3), y, XMean(3), Mean(y));
    assert Sxx(3) == 2.0 && Sxy(y) == v;
    VariationIsCentred(y, Index(3), Mean(y));
    Centred3(y, y, Mean(y), Mean(y));
    assert Times(0.0 - v / 3.0, 0.0 - v / 3.0) == Times(1.0 / 9.0, Sq(v));
    assert Times(v - v / 3.0, v - v / 3.0) == Times(4.0 / 9.0, Sq(v));
  }

  /** 6 dB is the exact limit: any larger range, up to 7 dB, does occur in a window that is called mobile. */
  lemma RangeLimitIsExact(v: real, sqrt: real -> real)
    requires SqrtLaw(sqrt) && 6.0 < v <= 7.0
    ensures Bounds([0.0, 0.0, v], 0.0, v) && ProfileOf([0.0, 0.0, v], 0.0, v, sqrt).mobile
  {
    hide LineError;
    hide Mean;
    hide Slope;
    hide JitterSum;
    var y := [0.0, 0.0, v];
    assert y[0] == 0.0 && y[2] == v;
    StepStatistics(v);
    var p := ProfileOf(y, 0.0, v, sqrt);
    SqOrder(6.0, v);
    SqOrder(v, 7.0);
    assert Sq(6.0) == 36.0 && Sq(7.0) == 49.0 && Sq(2.5) == 6.25 && Sq(4.0) == 16.0;
    assert 8.0 <= p.variance <= 11.0;
    assert IsSqrt(p.stdDev, p.variance);
    SqOrder(2.5, p.stdDev);
    SqOrder(p.stdDev, 4.0);
    StepScore(v, p.slope, p.stdDev, p.jitter, p.detrended);
  }

  lemma StepScore(range: real, slope: real, std: real, jitter: real, detrended: real)
    requires 6.0 < range <= 7.0 && slope > 0.5 && 2.5 < std <= 4.0 && jitter > 3.0
    ensures MobilityScore(range, slope, std, jitter, detrended) > MOBILITY_THRESHOLD
  {
  }

  // ---------------------------------------------------------------- approach and departure

  datatype Movement = Approaching | Departing | Steady

  /** Thresholds to enter a state are wider than those to leave it. */
  function NextMovement(prev: Movement, trend: real): Movement {
    match prev
    case Approaching => if trend < 0.15 then (if trend < -0.5 then Departing else Steady) else Approaching
    case Departing => if trend > -0.15 then (if trend > 0.5 then Approaching else Steady) else Departing
    case Steady => if trend > 0.5 then Approaching else if trend < -0.5 then Departing else Steady
  }

  function MovementAfter(trends: seq<real>): Movement {
    if trends == [] then Steady else NextMovement(MovementAfter(trends[..|trends| - 1]), trends[|trends| - 1])
  }

  /** How often the state changed to the given one. */
  function Events(trends: seq<real>, to: Movement): nat {
    if trends == [] then 0
    else
      var before := trends[..|trends| - 1];
      Events(before, to) + (if MovementAfter(before) != to && MovementAfter(trends) == to then 1 else 0)
  }

  function CountBelow(trends: seq<real>, limit: real): nat {
    if trends == [] then 0
    else CountBelow(trends[..|trends| - 1], limit) + (if trends[|trends| - 1] < limit then 1 else 0)
  }

  function CountAbove(trends: seq<real>, limit: real): nat {
    if trends == [] then 0
    else CountAbove(trends[..|trends| - 1], limit) + (if trends[|trends| - 1] > limit then 1 else 0)
  }

  /** No chatter: every event after the first is paid for by a sample whose trend passed the release level. */
  lemma {:induction false} NoChatter(trends: seq<real>)
    ensures Events(trends, Approaching) <= CountBelow(trends, 0.15)
            + (if MovementAfter(trends) == Approaching then 1 else 0)
    ensures Events(trends, Departing) <= CountAbove(trends, -0.15)
            + (if MovementAfter(trends) == Departing then 1 else 0)
  {
    if trends != [] { NoChatter(trends[..|trends| - 1]); }
  }

  /** The trend rose above the threshold at i and has not fallen below the release level since. */
  ghost predicate RisingSince(trends: seq<real>, i: int) {
    0 <= i < |trends| && trends[i] > 0.5 && forall j :: i < j < |trends| ==> trends[j] >= 0.15
  }

  ghost predicate FallingSince(trends: seq<real>, i: int) {
    0 <= i < |trends| && trends[i] < -0.5 && forall j :: i < j < |trends| ==> trends[j] <= -0.15
  }

  ghost predicate Risen(trends: seq<real>) {
    exists i :: RisingSince(trends, i)
  }

  ghost predicate Fallen(trends: seq<real>) {
    exists i :: FallingSince(trends, i)
  }

  lemma RisingStep(trends: seq<real>, t: real)
    ensures Risen(trends + [t]) <==> t > 0.5 || (t >= 0.15 && Risen(trends))
  {
    var all := trends + [t];
    if t > 0.5 { assert RisingSince(all, |trends|); }
    if t >= 0.15 && Risen(trends) {
      var i :| RisingSince(trends, i);
      assert RisingSince(all, i);
    }
    if i :| RisingSince(all, i) && i < |trends| {
      assert all[|trends|] >= 0.15;
      assert forall j :: i < j < |trends| ==> trends[j] == all[j];
      assert RisingSince(trends, i);
    }
  }

  lemma FallingStep(trends: seq<real>, t: real)
    ensures Fallen(trends + [t]) <==> t < -0.5 || (t <= -0.15 && Fallen(trends))
  {
    var all := trends + [t];
    if t < -0.5 { assert FallingSince(all, |trends|); }
    if t <= -0.15 && Fallen(trends) {
      var i :| FallingSince(trends, i);
      assert FallingSince(all, i);
    }
    if i :| FallingSince(all, i) && i < |trends| {
      assert all[|trends|] <= -0.15;
      assert forall j :: i < j < |trends| ==> trends[j] == all[j];
      assert FallingSince(trends, i);
    }
  }

  /** The movement state, without the state: what the history of trends says. */
  lemma {:induction false} MovementIff(trends: seq<real>)
    ensures MovementAfter(trends) == Approaching <==> Risen(trends)
    ensures MovementAfter(trends) == Departing <==> Fallen(trends)
  {
    if trends != [] {
      hide Risen;
      hide Fallen;
      var n := |trends| - 1;
      assert trends[..n] + [trends[n]] == trends;
      MovementIff(trends[..n]);
      RisingStep(trends[..n], trends[n]);
      FallingStep(trends[..n], trends[n]);
    }
  }
}
