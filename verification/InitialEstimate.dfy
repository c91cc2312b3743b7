/**
 The initial estimate of the solver: the weighted centroid of the taps, pulled towards the
 measured ranges.
 */
module InitialEstimate {
  import opened RealMath
  import opened LeastSquares
  import opened Taps

  /** A weighted point. */
  datatype Mass = Mass(x: real, y: real, weight: real)

  function Total(ms: seq<Mass>): real {
    if ms == [] then 0.0 else Total(ms[..|ms| - 1]) + ms[|ms| - 1].weight
  }

  function MomentX(ms: seq<Mass>): real {
    if ms == [] then 0.0 else MomentX(ms[..|ms| - 1]) + Times(ms[|ms| - 1].weight, ms[|ms| - 1].x)
  }

  function MomentY(ms: seq<Mass>): real {
    if ms == [] then 0.0 else MomentY(ms[..|ms| - 1]) + Times(ms[|ms| - 1].weight, ms[|ms| - 1].y)
  }

  function Mean(ms: seq<Mass>): (real, real)
    requires Total(ms) != 0.0
  {
    (MomentX(ms) / Total(ms), MomentY(ms) / Total(ms))
  }

  /** The taps themselves, with their weights. */
  function Masses(taps: seq<Tap>, w: seq<real>): (ms: seq<Mass>)
    requires |w| == |taps|
    ensures |ms| == |taps| && forall i :: 0 <= i < |taps| ==> ms[i] == Mass(taps[i].x, taps[i].y, w[i])
  {
    seq(|taps|, i requires 0 <= i < |taps| => Mass(taps[i].x, taps[i].y, w[i]))
  }

  // ---------------------------------------------------------------- the pulled points

  function Away(t: Tap, cx: real, cy: real, sqrt: real -> real): real {
    sqrt(NormSq(cx - t.x, cy - t.y))
  }

  /** The point at the measured range from a tap, on the ray through the centroid. */
  function PullOf(t: Tap, w: real, cx: real, cy: real, sqrt: real -> real): Mass
    requires Away(t, cx, cy, sqrt) >= 1.0
  {
    var ratio := t.distance / Away(t, cx, cy, sqrt);
    Mass(t.x + Times(cx - t.x, ratio), t.y + Times(cy - t.y, ratio), w)
  }

  /** The pulled points of the taps that are not at the centroid. */
  function Pulls(taps: seq<Tap>, w: seq<real>, cx: real, cy: real, sqrt: real -> real): seq<Mass>
    requires |w| == |taps|
  {
    if taps == [] then []
    else
      var n := |taps| - 1;
      Pulls(taps[..n], w[..n], cx, cy, sqrt)
      + (if Away(taps[n], cx, cy, sqrt) < 1.0 then [] else [PullOf(taps[n], w[n], cx, cy, sqrt)])
  }

  /** The mean of the pulled points; the plain or the weighted mean of the taps when there is nothing to pull with. */
  function Estimate(taps: seq<Tap>, w: seq<real>, sqrt: real -> real): (real, real)
    requires |w| == |taps| && taps != []
  {
    var ms := Masses(taps, w);
    if Total(ms) <= 0.0 then
      var plain := Masses(taps, Ones(|taps|));
      (MomentX(plain) / |taps| as real, MomentY(plain) / |taps| as real)
    else
      var (cx, cy) := Mean(ms);
      var ps := Pulls(taps, w, cx, cy, sqrt);
      if Total(ps) > 0.0 then Mean(ps) else (cx, cy)
  }

  // ---------------------------------------------------------------- the loops

  lemma MassSnoc(ms: seq<Mass>, m: Mass)
    ensures Total(ms + [m]) == Total(ms) + m.weight
    ensures MomentX(ms + [m]) == MomentX(ms) + Times(m.weight, m.x)
    ensures MomentY(ms + [m]) == MomentY(ms) + Times(m.weight, m.y)
  {
    hide Times;
    assert (ms + [m])[..|ms|] == ms;
  }

  lemma NoMass()
    ensures Total([]) == MomentX([]) == MomentY([]) == 0.0
  {
  }

  method WeightedSums(taps: seq<Tap>, w: seq<real>) returns (total: real, sx: real, sy: real)
    requires |w| == |taps|
    ensures var ms := Masses(taps, w);
            total == Total(ms) && sx == MomentX(ms) && sy == MomentY(ms)
  {
    hide Times;
    hide Total;
    hide MomentX;
    hide MomentY;
    ghost var ms := Masses(taps, w);
    total, sx, sy := 0.0, 0.0, 0.0;
    NoMass();
    for i := 0 to |taps|
      invariant total == Total(ms[..i]) && sx == MomentX(ms[..i]) && sy == MomentY(ms[..i])
    {
      MassSnoc(ms[..i], ms[i]);
      assert ms[..i + 1] == ms[..i] + [ms[i]];
      total := total + w[i];
      sx := sx + Times(w[i], taps[i].x);
      sy := sy + Times(w[i], taps[i].y);
    }
    assert ms[..|taps|] == ms;
  }

  method PlainSums(taps: seq<Tap>) returns (sx: real, sy: real)
    ensures var ms := Masses(taps, Ones(|taps|));
            sx == MomentX(ms) && sy == MomentY(ms)
  {
    hide Total;
    hide MomentX;
    hide MomentY;
    ghost var ms := Masses(taps, Ones(|taps|));
    sx, sy := 0.0, 0.0;
    NoMass();
    for i := 0 to |taps|
      invariant sx == MomentX(ms[..i]) && sy == MomentY(ms[..i])
    {
      MassSnoc(ms[..i], ms[i]);
      assert ms[..i + 1] == ms[..i] + [ms[i]];
      sx := sx + taps[i].x;
      sy := sy + taps[i].y;
    }
    assert ms[..|taps|] == ms;
  }

  method PullSums(taps: seq<Tap>, w: seq<real>, cx: real, cy: real, sqrt: real -> real)
    returns (total: real, px: real, py: real)
    requires |w| == |taps|
    ensures var ps := Pulls(taps, w, cx, cy, sqrt);
            total == Total(ps) && px == MomentX(ps) && py == MomentY(ps)
  {
    hide Times;
    hide NormSq;
    hide Total;
    hide MomentX;
    hide MomentY;
    total, px, py := 0.0, 0.0, 0.0;
    NoMass();
    for i := 0 to |taps|
      invariant var ps := Pulls(taps[..i], w[..i], cx, cy, sqrt);
                total == Total(ps) && px == MomentX(ps) && py == MomentY(ps)
    {
      ghost var ps := Pulls(taps[..i], w[..i], cx, cy, sqrt);
      assert taps[..i + 1][..i] == taps[..i] && w[..i + 1][..i] == w[..i];
      assert ps + [] == ps;
      var dx, dy := cx - taps[i].x, cy - taps[i].y;
      var centroidDist := sqrt(NormSq(dx, dy));
      if centroidDist < 1.0 { continue; }
      var ratio := taps[i].distance / centroidDist;
      MassSnoc(ps, PullOf(taps[i], w[i], cx, cy, sqrt));
      px := px + Times(w[i], taps[i].x + Times(dx, ratio));
      py := py + Times(w[i], taps[i].y + Times(dy, ratio));
      total := total + w[i];
    }
    assert taps[..|taps|] == taps && w[..|taps|] == w;
  }

  /** Centroid first, then the weighted mean of the pulled points. */
  method WeightedCentroidEstimate(taps: seq<Tap>, w: seq<real>, sqrt: real -> real) returns (x: real, y: real)
    requires |w| == |taps| && taps != []
    ensures (x, y) == Estimate(taps, w, sqrt)
  {
    hide Total;
    hide MomentX;
    hide MomentY;
    hide Pulls;
    var total, sx, sy := WeightedSums(taps, w);
    if total <= 0.0 {
      sx, sy := PlainSums(taps);
      return sx / |taps| as real, sy / |taps| as real;
    }
    var cx, cy := sx / total, sy / total;
    var pullW, px, py := PullSums(taps, w, cx, cy, sqrt);
    if pullW > 0.0 { return px / pullW, py / pullW; }
    return cx, cy;
  }

  // ---------------------------------------------------------------- what the estimate is

  ghost predicate Heavy(ms: seq<Mass>) {
    forall i :: 0 <= i < |ms| ==> ms[i].weight > 0.0
  }

  lemma {:induction false} TotalPositive(ms: seq<Mass>)
    requires Heavy(ms)
    ensures Total(ms) >= 0.0 && (ms != [] ==> Total(ms) > 0.0)
  {
    if ms != [] { TotalPositive(ms[..|ms| - 1]); }
  }

  /** Every pulled point is at the measured range from its tap. */
  lemma PullOnCircle(t: Tap, w: real, cx: real, cy: real, sqrt: real -> real)
    requires SqrtLaw(sqrt) && Away(t, cx, cy, sqrt) >= 1.0
    ensures var p := PullOf(t, w, cx, cy, sqrt);
            NormSq(p.x - t.x, p.y - t.y) == Sq(t.distance)
  {
    var dx, dy, a := cx - t.x, cy - t.y, Away(t, cx, cy, sqrt);
    NormSqSign(dx, dy);
    DivCancel(t.distance, a);
    ScaledNorm(dx, dy, t.distance / a, a);
  }

  /** And on the ray from its tap through the centroid. */
  lemma PullOnRay(t: Tap, w: real, cx: real, cy: real, sqrt: real -> real)
    requires SqrtLaw(sqrt) && Away(t, cx, cy, sqrt) >= 1.0
    ensures var p, a := PullOf(t, w, cx, cy, sqrt), Away(t, cx, cy, sqrt);
            && Times(p.x - t.x, a) == Times(cx - t.x, t.distance) && Times(p.y - t.y, a) == Times(cy - t.y, t.distance)
            && p.weight == w
  {
    var a := Away(t, cx, cy, sqrt);
    DivCancel(t.distance, a);
    Rescaled(cx - t.x, t.distance / a, a);
    Rescaled(cy - t.y, t.distance / a, a);
  }

  lemma Rescaled(d: real, k: real, a: real)
    ensures Times(Times(d, k), a) == Times(d, k * a)
  {
  }

  lemma ScaledNorm(dx: real, dy: real, k: real, a: real)
    requires NormSq(dx, dy) == Sq(a)
    ensures NormSq(Times(dx, k), Times(dy, k)) == Sq(k * a)
  {
  }

  lemma {:induction false} PullsAreHeavy(taps: seq<Tap>, w: seq<real>, cx: real, cy: real, sqrt: real -> real)
    requires |w| == |taps| && Positive(w)
    ensures Heavy(Pulls(taps, w, cx, cy, sqrt))
  {
    hide NormSq;
    if taps != [] { PullsAreHeavy(taps[..|taps| - 1], w[..|w| - 1], cx, cy, sqrt); }
  }

  lemma {:induction false} NoPullMeansNear(taps: seq<Tap>, w: seq<real>, cx: real, cy: real, sqrt: real -> real)
    requires |w| == |taps| && Pulls(taps, w, cx, cy, sqrt) == []
    ensures forall i :: 0 <= i < |taps| ==> Away(taps[i], cx, cy, sqrt) < 1.0
  {
    hide NormSq;
    if taps != [] { NoPullMeansNear(taps[..|taps| - 1], w[..|w| - 1], cx, cy, sqrt); }
  }

  lemma NearMeansClose(dx: real, dy: real, sqrt: real -> real)
    requires SqrtLaw(sqrt) && sqrt(NormSq(dx, dy)) < 1.0
    ensures -1.0 < dx < 1.0 && -1.0 < dy < 1.0
  {
    NormSqSign(dx, dy);
    var r := sqrt(NormSq(dx, dy));
    assert Sq(r) == NormSq(dx, dy) && r >= 0.0;
    SquareBelowOne(r);
    assert dx * dx < 1.0 && dy * dy < 1.0 by {
      assert dx * dx >= 0.0 && dy * dy >= 0.0;
    }
    RootBelowOne(dx);
    RootBelowOne(dy);
  }

  lemma SquareBelowOne(r: real)
    requires 0.0 <= r < 1.0
    ensures Sq(r) < 1.0
  {
    MulMonotone(r, 1.0, r);
  }

  lemma RootBelowOne(x: real)
    requires x * x < 1.0
    ensures -1.0 < x < 1.0
  {
  }

  lemma SmallCross(f: real, g: real, p: real, q: real)
    requires -2.0 < f < 2.0 && -2.0 < g < 2.0 && -2.0 < p < 2.0 && -2.0 < q < 2.0
    ensures -8.0 < Cross(f, g, p, q) < 8.0
  {
    SmallProduct(f, q);
    SmallProduct(g, p);
  }

  lemma SmallProduct(x: real, y: real)
    requires -2.0 < x < 2.0 && -2.0 < y < 2.0
    ensures -4.0 < x * y < 4.0
  {
  }

  /** Three taps that span a triangle are not all at the centroid: some point is pulled. */
  lemma SpreadIsPulled(taps: seq<Tap>, w: seq<real>, cx: real, cy: real, sqrt: real -> real, i: nat)
    requires SqrtLaw(sqrt) && |w| == |taps| && 2 <= i < |taps|
    requires Abs(Cross(taps[1].x - taps[0].x, taps[1].y - taps[0].y, taps[i].x - taps[0].x,
                       taps[i].y - taps[0].y)) >= 200.0
    ensures Pulls(taps, w, cx, cy, sqrt) != []
  {
    hide NormSq;
    hide Cross;
    if Pulls(taps, w, cx, cy, sqrt) == [] {
      NoPullMeansNear(taps, w, cx, cy, sqrt);
      forall k | 0 <= k < |taps| ensures -1.0 < cx - taps[k].x < 1.0 && -1.0 < cy - taps[k].y < 1.0 {
        NearMeansClose(cx - taps[k].x, cy - taps[k].y, sqrt);
      }
      SmallCross(taps[1].x - taps[0].x, taps[1].y - taps[0].y, taps[i].x - taps[0].x, taps[i].y - taps[0].y);
    }
  }

  ghost predicate InHalfPlane(m: Mass, a: real, b: real, c: real) {
    Lin(a, b, m.x, m.y) <= c
  }

  lemma MomentOne(a: real, b: real, c: real, m: Mass, sx: real, sy: real, total: real)
    requires Lin(a, b, sx, sy) <= Times(c, total) && m.weight > 0.0 && InHalfPlane(m, a, b, c)
    ensures Lin(a, b, sx + Times(m.weight, m.x), sy + Times(m.weight, m.y)) <= Times(c, total + m.weight)
  {
    TimesMonotone(Lin(a, b, m.x, m.y), c, m.weight);
    ProjectOne(a, b, m, sx, sy);
  }

  lemma ProjectOne(a: real, b: real, m: Mass, sx: real, sy: real)
    ensures Lin(a, b, sx, sy) + Times(Lin(a, b, m.x, m.y), m.weight)
         == Lin(a, b, sx + Times(m.weight, m.x), sy + Times(m.weight, m.y))
  {
  }

  /** The moments of weighted points in a half-plane. */
  lemma {:induction false} MomentsBelow(ms: seq<Mass>, a: real, b: real, c: real)
    requires Heavy(ms) && forall i :: 0 <= i < |ms| ==> InHalfPlane(ms[i], a, b, c)
    ensures Lin(a, b, MomentX(ms), MomentY(ms)) <= Times(c, Total(ms))
  {
    if ms != [] {
      hide Lin;
      hide Times;
      hide InHalfPlane;
      var n := |ms| - 1;
      MomentsBelow(ms[..n], a, b, c);
      MomentOne(a, b, c, ms[n], MomentX(ms[..n]), MomentY(ms[..n]), Total(ms[..n]));
    }
  }

  /**
   With positive weights the fallback is dead, and unless every tap is within 1 m of the centroid the
   estimate lies in every half-plane that holds all points at the measured ranges.
   */
  lemma EstimateInHull(taps: seq<Tap>, w: seq<real>, sqrt: real -> real, a: real, b: real, c: real)
    requires |w| == |taps| && taps != [] && Positive(w)
    requires Total(Masses(taps, w)) > 0.0 ==>
               var (cx, cy) := Mean(Masses(taps, w));
               var ps := Pulls(taps, w, cx, cy, sqrt);
               ps != [] && forall i :: 0 <= i < |ps| ==> InHalfPlane(ps[i], a, b, c)
    ensures Total(Masses(taps, w)) > 0.0
    ensures var (x, y) := Estimate(taps, w, sqrt);
            Lin(a, b, x, y) <= c
  {
    hide NormSq;
    hide Pulls;
    hide Lin;
    hide InHalfPlane;
    hide MomentX;
    hide MomentY;
    hide Total;
    var ms := Masses(taps, w);
    TotalPositive(ms);
    var (cx, cy) := Mean(ms);
    var ps := Pulls(taps, w, cx, cy, sqrt);
    PullsAreHeavy(taps, w, cx, cy, sqrt);
    TotalPositive(ps);
    MomentsBelow(ps, a, b, c);
    MeanBelow(a, b, c, MomentX(ps), MomentY(ps), Total(ps));
  }

  lemma MeanBelow(a: real, b: real, c: real, sx: real, sy: real, total: real)
    requires total > 0.0 && Lin(a, b, sx, sy) <= Times(c, total)
    ensures Lin(a, b, sx / total, sy / total) <= c
  {
    var x, y := sx / total, sy / total;
    DivCancel(sx, total);
    DivCancel(sy, total);
    assert Lin(a, b, sx, sy) == Times(Lin(a, b, x, y), total) by { LinOfScaled(a, b, x, y, total, sx, sy); }
    if Lin(a, b, x, y) > c { MulStrictlyMonotone(c, Lin(a, b, x, y), total); }
  }

  lemma LinOfScaled(a: real, b: real, x: real, y: real, k: real, sx: real, sy: real)
    requires x * k == sx && y * k == sy
    ensures Lin(a, b, sx, sy) == Times(Lin(a, b, x, y), k)
  {
    assert a * sx == a * x * k && b * sy == b * y * k;
  }
}
