/**
 Residual-based outlier rejection: measurements whose absolute residual exceeds a multiple
 of the residual standard deviation are dropped. The multiple bounds how many can go.
 */
module Outliers {
  import opened RealMath

  const MIN_SIGMA := 10.0

  function SumSquares(r: seq<real>): (s: real)
    ensures s >= 0.0
  {
    if r == [] then 0.0
    else
      SqSign(r[|r| - 1]);
      SumSquares(r[..|r| - 1]) + Sq(r[|r| - 1])
  }

  /** Degrees of freedom of a two-parameter fit. */
  function Dof(n: nat): (d: real)
    ensures d >= 1.0 && (n >= 3 ==> d == n as real - 2.0) && (n < 3 ==> d == 1.0)
  {
    if n as real - 2.0 < 1.0 then 1.0 else n as real - 2.0
  }

  function Sigma(r: seq<real>, sqrt: real -> real): real {
    var s := sqrt(SumSquares(r) / Dof(|r|));
    if s < MIN_SIGMA then MIN_SIGMA else s
  }

  /** The largest residual that is kept, at t standard deviations. */
  function Threshold(r: seq<real>, t: real, sqrt: real -> real): real {
    Times(t, Sigma(r, sqrt))
  }

  lemma ThresholdSquare(r: seq<real>, t: real, sqrt: real -> real)
    requires t >= 0.0
    ensures Threshold(r, t, sqrt) >= 0.0
    ensures Sq(Threshold(r, t, sqrt)) == Times(Sq(t), Sq(Sigma(r, sqrt)))
  {
  }

  /** The items whose residual stays within the threshold, in order. */
  function Survivors<T>(items: seq<T>, r: seq<real>, threshold: real): (kept: seq<T>)
    requires |items| == |r|
    ensures |kept| + Dropped(r, threshold) == |items|
    ensures forall x :: x in kept ==> x in items
  {
    if r == [] then []
    else
      var n := |r| - 1;
      Survivors(items[..n], r[..n], threshold) + (if r[n] <= threshold then [items[n]] else [])
  }

  function Dropped(r: seq<real>, threshold: real): (k: nat)
    ensures k <= |r|
  {
    if r == [] then 0
    else Dropped(r[..|r| - 1], threshold) + (if r[|r| - 1] <= threshold then 0 else 1)
  }

  lemma TimesSucc(k: nat, q: real)
    ensures Times((k + 1) as real, q) == Times(k as real, q) + q
  {
  }

  /** Every dropped measurement carries more than threshold^2 of the residual energy. */
  lemma {:induction false} DroppedEnergy(r: seq<real>, threshold: real)
    requires threshold >= 0.0
    ensures SumSquares(r) >= Times(Dropped(r, threshold) as real, Sq(threshold))
    ensures Dropped(r, threshold) > 0 ==> SumSquares(r) > Times(Dropped(r, threshold) as real, Sq(threshold))
  {
    if r != [] {
      var n := |r| - 1;
      DroppedEnergy(r[..n], threshold);
      SqSign(r[n]);
      if r[n] > threshold {
        SqOrder(threshold, r[n]);
        TimesSucc(Dropped(r[..n], threshold), Sq(threshold));
      }
    }
  }

  lemma BudgetAlgebra(s: real, q: real, t2: real, k: real, m: real)
    requires k >= 0.0 && t2 >= 0.0 && m > 0.0 && q >= 0.0
    requires s > Times(k, Times(t2, q)) && Times(m, q) >= s
    ensures Times(k, t2) < m
  {
  }

  /** Dropping k > 0 of N >= 3 measurements at threshold T takes k * T^2 < N - 2. */
  lemma RejectionBudget(r: seq<real>, t: real, sqrt: real -> real)
    requires SqrtLaw(sqrt) && |r| >= 3 && t >= 0.0
    ensures var k := Dropped(r, Threshold(r, t, sqrt));
            k > 0 ==> Times(k as real, Sq(t)) < |r| as real - 2.0
  {
    var k := Dropped(r, Threshold(r, t, sqrt));
    if k > 0 {
      ThresholdSquare(r, t, sqrt);
      DroppedEnergy(r, Threshold(r, t, sqrt));
      SqSign(t);
      SqSign(Sigma(r, sqrt));
      SigmaCoversEnergy(r, sqrt);
      BudgetAlgebra(SumSquares(r), Sq(Sigma(r, sqrt)), Sq(t), k as real, |r| as real - 2.0);
    }
  }

  lemma SigmaCoversEnergy(r: seq<real>, sqrt: real -> real)
    requires SqrtLaw(sqrt) && |r| >= 3
    ensures Times(|r| as real - 2.0, Sq(Sigma(r, sqrt))) >= SumSquares(r)
  {
    var m, s := |r| as real - 2.0, SumSquares(r);
    var v := s / m;
    DivPositive(s, m);
    DivCancel(s, m);
    assert IsSqrt(sqrt(v), v);
    SqOrder(sqrt(v), Sigma(r, sqrt));
    TimesMonotone(v, Sq(Sigma(r, sqrt)), m);
    assert Times(v, m) == s;
  }

  /** At the default 2.5 sigma: nothing is dropped from up to 8 taps, and more than 3 taps stay more than 3. */
  lemma DefaultRejection(r: seq<real>, sqrt: real -> real)
    requires SqrtLaw(sqrt) && |r| >= 3
    ensures |r| <= 8 ==> Dropped(r, Threshold(r, 2.5, sqrt)) == 0
    ensures |r| > 3 ==> |r| - Dropped(r, Threshold(r, 2.5, sqrt)) > 3
  {
    RejectionBudget(r, 2.5, sqrt);
    assert Sq(2.5) == 6.25;
    var k := Dropped(r, Threshold(r, 2.5, sqrt));
    assert Times(k as real, 6.25) == 6.25 * k as real;
  }

  // ---------------------------------------------------------------- the budget is exact

  /** k residuals of size big, then zeros. */
  function Spikes(k: nat, n: nat, big: real): (r: seq<real>)
    requires k <= n
    ensures |r| == n
  {
    seq(n, i => if i < k then big else 0.0)
  }

  lemma {:induction false} SpikesEnergy(k: nat, n: nat, big: real)
    requires k <= n
    ensures SumSquares(Spikes(k, n, big)) == Times(k as real, Sq(big))
  {
    if n > 0 {
      var r := Spikes(k, n, big);
      if k == n {
        assert r[..n - 1] == Spikes(k - 1, n - 1, big);
        SpikesEnergy(k - 1, n - 1, big);
        TimesSucc(k - 1, Sq(big));
      } else {
        assert r[..n - 1] == Spikes(k, n - 1, big);
        SpikesEnergy(k, n - 1, big);
      }
    }
  }

  lemma {:induction false} SpikesDropped(k: nat, n: nat, big: real, threshold: real)
    requires k <= n && 0.0 <= threshold < big
    ensures Dropped(Spikes(k, n, big), threshold) == k
  {
    if n > 0 {
      var r := Spikes(k, n, big);
      if k == n {
        assert r[..n - 1] == Spikes(k - 1, n - 1, big);
        SpikesDropped(k - 1, n - 1, big, threshold);
      } else {
        assert r[..n - 1] == Spikes(k, n - 1, big);
        SpikesDropped(k, n - 1, big, threshold);
      }
    }
  }

  /** Any number of drops within the budget does occur. */
  lemma BudgetIsTight(k: nat, n: nat, t: real, sqrt: real -> real)
    requires SqrtLaw(sqrt) && n >= 3 && k <= n && t >= 0.0 && Times(k as real, Sq(t)) < n as real - 2.0
    ensures var r := Spikes(k, n, 10.0 * t + 1.0);
            Dropped(r, Threshold(r, t, sqrt)) == k
  {
    var big := 10.0 * t + 1.0;
    var r := Spikes(k, n, big);
    SpikeAboveSigma(k, n, t, big, sqrt);
    ThresholdSquare(r, t, sqrt);
    SpikesDropped(k, n, big, Threshold(r, t, sqrt));
  }

  lemma SpikeAboveSigma(k: nat, n: nat, t: real, big: real, sqrt: real -> real)
    requires SqrtLaw(sqrt) && n >= 3 && k <= n && t >= 0.0 && Times(k as real, Sq(t)) < n as real - 2.0
    requires big > 10.0 * t
    ensures Threshold(Spikes(k, n, big), t, sqrt) < big
  {
    var m, s := n as real - 2.0, SumSquares(Spikes(k, n, big));
    var v := s / m;
    SpikesEnergy(k, n, big);
    DivPositive(s, m);
    DivCancel(s, m);
    SqSign(big);
    TightAlgebra(t, v, k as real, Sq(big), m);
    assert IsSqrt(sqrt(v), v);
    RootBelow(t, sqrt(v), v, big);
  }

  lemma RootBelow(t: real, root: real, v: real, big: real)
    requires t >= 0.0 && IsSqrt(root, v) && big >= 0.0 && Times(Sq(t), v) < Sq(big)
    ensures t * root < big
  {
  }

  lemma TightAlgebra(t: real, v: real, k: real, b2: real, m: real)
    requires m > 0.0 && v * m == Times(k, b2) && b2 > 0.0 && Times(k, Sq(t)) < m
    ensures Times(Sq(t), v) < b2
  {
  }

  /** A negative threshold rejects every measurement. */
  lemma {:induction false} NegativeThreshold(r: seq<real>, threshold: real)
    requires threshold < 0.0 && forall i :: 0 <= i < |r| ==> r[i] >= 0.0
    ensures Dropped(r, threshold) == |r|
  {
    if r != [] { NegativeThreshold(r[..|r| - 1], threshold); }
  }
}
