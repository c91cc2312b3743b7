/**
 Weighted least squares in two unknowns, for any number of measurements: the determinant
 of the normal matrix is a sum of weighted squared cross products, and the solution of the
 normal equations minimises the weighted squared error.
 */
module LeastSquares {
  import opened RealMath

  function Prod3(w: real, f: real, g: real): real {
    w * f * g
  }

  /** Sum of w[i] * f[i] * g[i]. */
  function Sum3(w: seq<real>, f: seq<real>, g: seq<real>): real
    requires |w| == |f| == |g|
  {
    if w == [] then 0.0
    else
      var n := |w| - 1;
      Sum3(w[..n], f[..n], g[..n]) + Prod3(w[n], f[n], g[n])
  }

  function Cross(a: real, b: real, p: real, q: real): real {
    a * q - b * p
  }

  /** The directions (a, b) and (p, q) lie on one line. */
  predicate Aligned(a: real, b: real, p: real, q: real) {
    Cross(a, b, p, q) == 0.0
  }

  /** Sum of w[i] * (f[i] * q - g[i] * p)^2: the weighted cross products with the direction (p, q). */
  function CrossWith(w: seq<real>, f: seq<real>, g: seq<real>, p: real, q: real): real
    requires |w| == |f| == |g|
  {
    if w == [] then 0.0
    else
      var n := |w| - 1;
      CrossWith(w[..n], f[..n], g[..n], p, q) + WSquare(w[n], Cross(f[n], g[n], p, q))
  }

  /** Sum over all pairs i < j of w[i] * w[j] * (f[i] * g[j] - g[i] * f[j])^2. */
  function CrossSum(w: seq<real>, f: seq<real>, g: seq<real>): real
    requires |w| == |f| == |g|
  {
    if w == [] then 0.0
    else
      var n := |w| - 1;
      CrossSum(w[..n], f[..n], g[..n]) + Times(w[n], CrossWith(w[..n], f[..n], g[..n], f[n], g[n]))
  }

  function Residual(r: real, f: real, g: real, x: real, y: real): real {
    r - f * x - g * y
  }

  /** Sum of w[i] * (r[i] - f[i] * x - g[i] * y)^2: the cost of the step (x, y) in the linearised problem. */
  function Cost(w: seq<real>, f: seq<real>, g: seq<real>, r: seq<real>, x: real, y: real): real
    requires |w| == |f| == |g| == |r|
  {
    if w == [] then 0.0
    else
      var n := |w| - 1;
      Cost(w[..n], f[..n], g[..n], r[..n], x, y) + WSquare(w[n], Residual(r[n], f[n], g[n], x, y))
  }

  /** Unit weights. */
  function Ones(n: nat): (w: seq<real>)
    ensures |w| == n && forall i :: 0 <= i < n ==> w[i] == 1.0
  {
    seq(n, i => 1.0)
  }

  ghost predicate Positive(w: seq<real>) {
    forall i :: 0 <= i < |w| ==> w[i] > 0.0
  }

  /** A weighted square. */
  function WSquare(w: real, c: real): real {
    w * (c * c)
  }

  function Lin(rx: real, ry: real, x: real, y: real): real {
    rx * x + ry * y
  }

  function Det2(xx: real, xy: real, yy: real): real {
    xx * yy - xy * xy
  }

  function Quad(xx: real, xy: real, yy: real, x: real, y: real): real {
    xx * x * x + 2.0 * xy * x * y + yy * y * y
  }

  // ---------------------------------------------------------------- the determinant

  lemma CrossTerm(w: real, f: real, g: real, p: real, q: real)
    ensures WSquare(w, Cross(f, g, p, q)) == Quad(Prod3(w, f, f), Prod3(w, f, g), Prod3(w, g, g), q, -p)
  {
  }

  lemma QuadAdds(a: real, b: real, c: real, a': real, b': real, c': real, x: real, y: real)
    ensures Quad(a + a', b + b', c + c', x, y) == Quad(a, b, c, x, y) + Quad(a', b', c', x, y)
  {
  }

  lemma {:induction false} CrossWithIsQuad(w: seq<real>, f: seq<real>, g: seq<real>, p: real, q: real)
    requires |w| == |f| == |g|
    ensures CrossWith(w, f, g, p, q) == Quad(Sum3(w, f, f), Sum3(w, f, g), Sum3(w, g, g), q, -p)
  {
    if w != [] {
      var n := |w| - 1;
      CrossWithIsQuad(w[..n], f[..n], g[..n], p, q);
      CrossTerm(w[n], f[n], g[n], p, q);
      QuadAdds(Sum3(w[..n], f[..n], f[..n]), Sum3(w[..n], f[..n], g[..n]), Sum3(w[..n], g[..n], g[..n]),
               Prod3(w[n], f[n], f[n]), Prod3(w[n], f[n], g[n]), Prod3(w[n], g[n], g[n]), q, -p);
    }
  }

  lemma DetStep(a: real, b: real, c: real, w: real, f: real, g: real)
    ensures Det2(a + Prod3(w, f, f), b + Prod3(w, f, g), c + Prod3(w, g, g))
         == Det2(a, b, c) + Times(w, Quad(a, b, c, g, -f))
  {
  }

  /** Lagrange's identity, weighted: the determinant of the normal matrix. */
  lemma {:induction false} DetIsCrossSum(w: seq<real>, f: seq<real>, g: seq<real>)
    requires |w| == |f| == |g|
    ensures Det2(Sum3(w, f, f), Sum3(w, f, g), Sum3(w, g, g)) == CrossSum(w, f, g)
  {
    if w != [] {
      var n := |w| - 1;
      DetIsCrossSum(w[..n], f[..n], g[..n]);
      CrossWithIsQuad(w[..n], f[..n], g[..n], f[n], g[n]);
      DetStep(Sum3(w[..n], f[..n], f[..n]), Sum3(w[..n], f[..n], g[..n]), Sum3(w[..n], g[..n], g[..n]), w[n], f[n],
              g[n]);
    }
  }

  lemma {:induction false} CrossWithSign(w: seq<real>, f: seq<real>, g: seq<real>, p: real, q: real)
    requires |w| == |f| == |g| && Positive(w)
    ensures CrossWith(w, f, g, p, q) >= 0.0
    ensures CrossWith(w, f, g, p, q) == 0.0 <==> forall i :: 0 <= i < |w| ==> Aligned(f[i], g[i], p, q)
  {
    if w != [] {
      var n := |w| - 1;
      CrossWithSign(w[..n], f[..n], g[..n], p, q);
      var c := Cross(f[n], g[n], p, q);
      WeightedSquare(w[n], c);
      if CrossWith(w, f, g, p, q) == 0.0 {
        forall i | 0 <= i < |w| ensures Aligned(f[i], g[i], p, q) {
          if i < n { assert Aligned(f[..n][i], g[..n][i], p, q); }
        }
      } else if c == 0.0 {
        var i :| 0 <= i < n && !Aligned(f[..n][i], g[..n][i], p, q);
        assert !Aligned(f[i], g[i], p, q);
      }
    }
  }

  lemma WeightedSquare(w: real, c: real)
    requires w > 0.0
    ensures WSquare(w, c) >= 0.0
    ensures WSquare(w, c) == 0.0 <==> c == 0.0
  {
    if c > 0.0 {
      WSquarePositive(w, c);
    } else if c < 0.0 {
      WSquarePositive(w, -c);
      assert WSquare(w, -c) == WSquare(w, c);
    }
  }

  lemma WSquarePositive(w: real, c: real)
    requires w > 0.0 && c > 0.0
    ensures WSquare(w, c) > 0.0
  {
    calc {
      WSquare(w, c);
      w * (c * c);
    > { ScaledSquarePositive(w, c); }
      0.0;
    }
  }

  lemma ScaledZero(w: real, c: real)
    requires w > 0.0 && c >= 0.0
    ensures Times(w, c) >= 0.0
    ensures Times(w, c) == 0.0 <==> c == 0.0
  {
  }

  ghost predicate Parallel(f: seq<real>, g: seq<real>, i: int, j: int)
    requires |f| == |g| && 0 <= i < |f| && 0 <= j < |f|
  {
    Aligned(f[i], g[i], f[j], g[j])
  }

  /** With positive weights the determinant is never negative, and zero exactly when all directions are parallel. */
  lemma {:induction false} DetSign(w: seq<real>, f: seq<real>, g: seq<real>)
    requires |w| == |f| == |g| && Positive(w)
    ensures CrossSum(w, f, g) >= 0.0
    ensures CrossSum(w, f, g) == 0.0 <==> forall i, j :: 0 <= i < j < |w| ==> Parallel(f, g, i, j)
  {
    if w != [] {
      var n := |w| - 1;
      var w', f', g' := w[..n], f[..n], g[..n];
      DetSign(w', f', g');
      var c := CrossWith(w', f', g', f[n], g[n]);
      CrossWithSign(w', f', g', f[n], g[n]);
      ScaledZero(w[n], c);
      if CrossSum(w, f, g) == 0.0 {
        forall i, j | 0 <= i < j < |w| ensures Parallel(f, g, i, j) {
          if j < n {
            assert Parallel(f', g', i, j);
          } else {
            assert Aligned(f'[i], g'[i], f[n], g[n]);
          }
        }
      } else if c == 0.0 {
        var i, j :| 0 <= i < j < n && !Parallel(f', g', i, j);
        assert !Parallel(f, g, i, j);
      } else {
        var i :| 0 <= i < n && !Aligned(f'[i], g'[i], f[n], g[n]);
        assert !Parallel(f, g, i, n);
      }
    }
  }

  // ---------------------------------------------------------------- the normal equations

  /** The six sums that the linearised cost depends on. */
  datatype Sums = Sums(rr: real, fr: real, gr: real, ff: real, fg: real, gg: real)

  function SumsOf(w: seq<real>, f: seq<real>, g: seq<real>, r: seq<real>): Sums
    requires |w| == |f| == |g| == |r|
  {
    Sums(Sum3(w, r, r), Sum3(w, f, r), Sum3(w, g, r), Sum3(w, f, f), Sum3(w, f, g), Sum3(w, g, g))
  }

  function TermOf(w: real, f: real, g: real, r: real): Sums {
    Sums(Prod3(w, r, r), Prod3(w, f, r), Prod3(w, g, r), Prod3(w, f, f), Prod3(w, f, g), Prod3(w, g, g))
  }

  function Plus(s: Sums, t: Sums): Sums {
    Sums(s.rr + t.rr, s.fr + t.fr, s.gr + t.gr, s.ff + t.ff, s.fg + t.fg, s.gg + t.gg)
  }

  /** The cost as a quadratic polynomial in the step. */
  function Model(s: Sums, x: real, y: real): real {
    s.rr - 2.0 * Lin(s.fr, s.gr, x, y) + Quad(s.ff, s.fg, s.gg, x, y)
  }

  lemma CostTerm(w: real, f: real, g: real, r: real, x: real, y: real)
    ensures WSquare(w, Residual(r, f, g, x, y)) == Model(TermOf(w, f, g, r), x, y)
  {
  }

  lemma ModelAdds(s: Sums, t: Sums, x: real, y: real)
    ensures Model(Plus(s, t), x, y) == Model(s, x, y) + Model(t, x, y)
  {
  }

  lemma SumsStep(w: seq<real>, f: seq<real>, g: seq<real>, r: seq<real>)
    requires |w| == |f| == |g| == |r| > 0
    ensures var n := |w| - 1;
            SumsOf(w, f, g, r) == Plus(SumsOf(w[..n], f[..n], g[..n], r[..n]), TermOf(w[n], f[n], g[n], r[n]))
  {
  }

  lemma {:induction false} CostIsQuadratic(w: seq<real>, f: seq<real>, g: seq<real>, r: seq<real>, x: real, y: real)
    requires |w| == |f| == |g| == |r|
    ensures Cost(w, f, g, r, x, y) == Model(SumsOf(w, f, g, r), x, y)
  {
    if w != [] {
      var n := |w| - 1;
      CostIsQuadratic(w[..n], f[..n], g[..n], r[..n], x, y);
      CostTerm(w[n], f[n], g[n], r[n], x, y);
      SumsStep(w, f, g, r);
      ModelAdds(SumsOf(w[..n], f[..n], g[..n], r[..n]), TermOf(w[n], f[n], g[n], r[n]), x, y);
    }
  }

  ghost predicate NormalEquations(xx: real, xy: real, yy: real, rx: real, ry: real, x: real, y: real) {
    xx * x + xy * y == rx && xy * x + yy * y == ry
  }

  /** Cramer's rule solves the normal equations exactly. */
  lemma CramerSolves(xx: real, xy: real, yy: real, rx: real, ry: real, x: real, y: real)
    requires Det2(xx, xy, yy) != 0.0
    requires x == (yy * rx - xy * ry) / Det2(xx, xy, yy)
    requires y == (xx * ry - xy * rx) / Det2(xx, xy, yy)
    ensures NormalEquations(xx, xy, yy, rx, ry, x, y)
  {
  }

  lemma QuadShift(xx: real, xy: real, yy: real, rx: real, ry: real, x: real, y: real, s: real, t: real)
    requires NormalEquations(xx, xy, yy, rx, ry, x, y)
    ensures Quad(xx, xy, yy, s, t) - 2.0 * Lin(rx, ry, s, t)
         == Quad(xx, xy, yy, x, y) - 2.0 * Lin(rx, ry, x, y) + Quad(xx, xy, yy, s - x, t - y)
  {
  }

  /** The quadratic form of the normal matrix is itself a cost, so it is never negative. */
  lemma QuadNonNegative(w: seq<real>, f: seq<real>, g: seq<real>, x: real, y: real)
    requires |w| == |f| == |g| && Positive(w)
    ensures Quad(Sum3(w, f, f), Sum3(w, f, g), Sum3(w, g, g), x, y) >= 0.0
  {
    CrossWithIsQuad(w, f, g, -y, x);
    CrossWithSign(w, f, g, -y, x);
  }

  /** The solution of the normal equations minimises the weighted squared error over all steps. */
  lemma SolutionIsLeastSquares(w: seq<real>, f: seq<real>, g: seq<real>, r: seq<real>,
                               x: real, y: real, s: real, t: real)
    requires |w| == |f| == |g| == |r| && Positive(w)
    requires NormalEquations(Sum3(w, f, f), Sum3(w, f, g), Sum3(w, g, g), Sum3(w, f, r), Sum3(w, g, r), x, y)
    ensures Cost(w, f, g, r, x, y) <= Cost(w, f, g, r, s, t)
  {
    var xx, xy, yy := Sum3(w, f, f), Sum3(w, f, g), Sum3(w, g, g);
    CostIsQuadratic(w, f, g, r, x, y);
    CostIsQuadratic(w, f, g, r, s, t);
    QuadShift(xx, xy, yy, Sum3(w, f, r), Sum3(w, g, r), x, y, s, t);
    QuadNonNegative(w, f, g, s - x, t - y);
  }

  /** A fraction of the step never raises the cost, and the step never points against J'Wr. */
  lemma FractionDescends(w: seq<real>, f: seq<real>, g: seq<real>, r: seq<real>, x: real, y: real, k: real)
    requires |w| == |f| == |g| == |r| && Positive(w) && 0.0 <= k <= 1.0
    requires NormalEquations(Sum3(w, f, f), Sum3(w, f, g), Sum3(w, g, g), Sum3(w, f, r), Sum3(w, g, r), x, y)
    ensures Cost(w, f, g, r, Times(k, x), Times(k, y)) <= Cost(w, f, g, r, 0.0, 0.0)
    ensures Lin(Sum3(w, f, r), Sum3(w, g, r), Times(k, x), Times(k, y)) >= 0.0
  {
    var xx, xy, yy := Sum3(w, f, f), Sum3(w, f, g), Sum3(w, g, g);
    var rx, ry := Sum3(w, f, r), Sum3(w, g, r);
    CostIsQuadratic(w, f, g, r, Times(k, x), Times(k, y));
    CostIsQuadratic(w, f, g, r, 0.0, 0.0);
    QuadNonNegative(w, f, g, x, y);
    FractionAlgebra(xx, xy, yy, rx, ry, x, y, k, Quad(xx, xy, yy, x, y));
  }

  lemma FractionAlgebra(xx: real, xy: real, yy: real, rx: real, ry: real, x: real, y: real, k: real, q: real)
    requires 0.0 <= k <= 1.0 && q == Quad(xx, xy, yy, x, y) && q >= 0.0
    requires NormalEquations(xx, xy, yy, rx, ry, x, y)
    ensures Quad(xx, xy, yy, Times(k, x), Times(k, y)) - 2.0 * Lin(rx, ry, Times(k, x), Times(k, y)) <= 0.0
    ensures Lin(rx, ry, Times(k, x), Times(k, y)) >= 0.0
  {
    assert Lin(rx, ry, x, y) == q;
    LinScales(rx, ry, x, y, k);
    QuadScales(xx, xy, yy, x, y, k);
    FractionBound(k, q);
  }

  lemma LinScales(rx: real, ry: real, x: real, y: real, k: real)
    ensures Lin(rx, ry, Times(k, x), Times(k, y)) == Times(k, Lin(rx, ry, x, y))
  {
  }

  lemma QuadScales(xx: real, xy: real, yy: real, x: real, y: real, k: real)
    ensures Quad(xx, xy, yy, Times(k, x), Times(k, y)) == Times(k, Times(k, Quad(xx, xy, yy, x, y)))
  {
  }

  lemma FractionBound(k: real, q: real)
    requires 0.0 <= k <= 1.0 && q >= 0.0
    ensures 0.0 <= Times(k, Times(k, q)) <= Times(k, q)
  {
    TimesFraction(k, q);
    TimesFraction(k, Times(k, q));
  }
}
