/**
 The 4x4 covariance arithmetic of the filter, as the nested loops compute it, and its
 meaning: predicted covariance F*P*F' + Q, gain P*H'*S^-1, correction P - K*S*K'. On two
 decoupled axes each step stays decoupled and equals the per-axis step of KalmanSpec.
 */
module KalmanMatrix {
  import opened KalmanSpec

  // ---------------------------------------------------------------- matrices

  ghost predicate Is4x4(m: array2<real>) {
    m.Length0 == 4 && m.Length1 == 4
  }

  type Matrix = seq<seq<real>>

  ghost predicate Is4(m: Matrix) {
    |m| == 4 && forall i :: 0 <= i < 4 ==> |m[i]| == 4
  }

  ghost function Rows(p: array2<real>): (m: Matrix)
    requires Is4x4(p)
    reads p
    ensures Is4(m)
  {
    [[p[0, 0], p[0, 1], p[0, 2], p[0, 3]], [p[1, 0], p[1, 1], p[1, 2], p[1, 3]],
     [p[2, 0], p[2, 1], p[2, 2], p[2, 3]], [p[3, 0], p[3, 1], p[3, 2], p[3, 3]]]
  }

  function Dot4(u: seq<real>, v: seq<real>): real
    requires |u| == 4 && |v| == 4
  {
    u[0] * v[0] + u[1] * v[1] + u[2] * v[2] + u[3] * v[3]
  }

  function Column(m: Matrix, j: int): seq<real>
    requires Is4(m) && 0 <= j < 4
  {
    [m[0][j], m[1][j], m[2][j], m[3][j]]
  }

  /** m is the matrix product a * b. */
  ghost predicate IsProduct(m: Matrix, a: Matrix, b: Matrix)
    requires Is4(m) && Is4(a) && Is4(b)
  {
    forall i, j :: 0 <= i < 4 && 0 <= j < 4 ==> m[i][j] == Dot4(a[i], Column(b, j))
  }

  /** The constant-velocity transition matrix F and its transpose. */
  function F(dt: real): Matrix {
    [[1.0, 0.0, dt, 0.0], [0.0, 1.0, 0.0, dt], [0.0, 0.0, 1.0, 0.0], [0.0, 0.0, 0.0, 1.0]]
  }

  function FTransposed(dt: real): Matrix {
    [[1.0, 0.0, 0.0, 0.0], [0.0, 1.0, 0.0, 0.0], [dt, 0.0, 1.0, 0.0], [0.0, dt, 0.0, 1.0]]
  }

  /** The covariance of two decoupled axes with the same 2x2 block. */
  function BlockEntry(c: Cov, i: int, j: int): real {
    if i == j then (if i < 2 then c.a else c.d)
    else if j == i + 2 || i == j + 2 then c.b
    else 0.0
  }

  ghost predicate IsBlock(p: array2<real>, c: Cov)
    reads p
  {
    Is4x4(p) && forall i, j :: 0 <= i < 4 && 0 <= j < 4 ==> p[i, j] == BlockEntry(c, i, j)
  }

  function BlockOf(p: array2<real>): Cov
    requires Is4x4(p)
    reads p
  {
    Cov(p[0, 0], p[0, 2], p[2, 2])
  }

  /** What the row operations of the code leave at (i, j). */
  ghost function RowOp(p: array2<real>, dt: real, i: int, j: int): real
    requires Is4x4(p) && 0 <= i < 4 && 0 <= j < 4
    reads p
  {
    if i < 2 then p[i, j] + dt * p[i + 2, j] else p[i, j]
  }

  /** F * P * F', as row operations followed by column operations. */
  ghost function Transported(p: array2<real>, dt: real, i: int, j: int): real
    requires Is4x4(p) && 0 <= i < 4 && 0 <= j < 4
    reads p
  {
    if j < 2 then RowOp(p, dt, i, j) + dt * RowOp(p, dt, i, j + 2) else RowOp(p, dt, i, j)
  }

  ghost function WithColumns(fp: array2<real>, dt: real, i: int, j: int): real
    requires Is4x4(fp) && 0 <= i < 4 && 0 <= j < 4
    reads fp
  {
    if j < 2 then fp[i, j] + dt * fp[i, j + 2] else fp[i, j]
  }

  lemma RowsEntries(p: array2<real>, j: int)
    requires Is4x4(p) && 0 <= j < 4
    ensures Column(Rows(p), j) == [p[0, j], p[1, j], p[2, j], p[3, j]]
    ensures Rows(p)[j] == [p[j, 0], p[j, 1], p[j, 2], p[j, 3]]
  {
  }

  lemma RowOpIsProduct(p: array2<real>, dt: real, i: int, j: int)
    requires Is4x4(p) && 0 <= i < 4 && 0 <= j < 4
    ensures RowOp(p, dt, i, j) == Dot4(F(dt)[i], Column(Rows(p), j))
  {
  }

  lemma ColumnOpIsProduct(fp: array2<real>, dt: real, i: int, j: int)
    requires Is4x4(fp) && 0 <= i < 4 && 0 <= j < 4
    ensures WithColumns(fp, dt, i, j) == Dot4(Rows(fp)[i], Column(FTransposed(dt), j))
  {
  }

  lemma RowOpsAreProduct(p: array2<real>, fp: array2<real>, dt: real)
    requires Is4x4(p) && Is4x4(fp)
    requires forall i, j :: 0 <= i < 4 && 0 <= j < 4 ==> fp[i, j] == RowOp(p, dt, i, j)
    ensures IsProduct(Rows(fp), F(dt), Rows(p))
  {
    forall i, j | 0 <= i < 4 && 0 <= j < 4
      ensures Rows(fp)[i][j] == Dot4(F(dt)[i], Column(Rows(p), j))
    {
      RowOpIsProduct(p, dt, i, j);
      RowsEntries(fp, i);
    }
  }

  lemma ColumnOpsAreProduct(fp: array2<real>, q: array2<real>, dt: real)
    requires Is4x4(fp) && Is4x4(q)
    requires forall i, j :: 0 <= i < 4 && 0 <= j < 4 ==> q[i, j] == WithColumns(fp, dt, i, j)
    ensures IsProduct(Rows(q), Rows(fp), FTransposed(dt))
  {
    forall i, j | 0 <= i < 4 && 0 <= j < 4
      ensures Rows(q)[i][j] == Dot4(Rows(fp)[i], Column(FTransposed(dt), j))
    {
      ColumnOpIsProduct(fp, dt, i, j);
      RowsEntries(q, i);
    }
  }

  lemma TransportOfBlock(p: array2<real>, c: Cov, dt: real, i: int, j: int)
    requires IsBlock(p, c) && 0 <= i < 4 && 0 <= j < 4
    ensures Transported(p, dt, i, j) + BlockEntry(NoiseCov(dt), i, j) == BlockEntry(PredictCov(c, dt), i, j)
  {
    DriftOfBlock(p, c, dt, i, j);
  }

  lemma DriftOfBlock(p: array2<real>, c: Cov, dt: real, i: int, j: int)
    requires IsBlock(p, c) && 0 <= i < 4 && 0 <= j < 4
    ensures Transported(p, dt, i, j) == BlockEntry(Drift(c, dt), i, j)
  {
    assert RowOp(p, dt, i, j) == if i < 2 then BlockEntry(c, i, j) + dt * BlockEntry(c, i + 2, j)
        else BlockEntry(c, i, j);
    if j < 2 {
      assert RowOp(p, dt, i, j + 2)
          == if i < 2 then BlockEntry(c, i, j + 2) + dt * BlockEntry(c, i + 2, j + 2) else BlockEntry(c, i, j + 2);
    }
  }

  /** fpf is the product F * P * F'. */
  ghost predicate IsTransport(fpf: Matrix, p: Matrix, dt: real)
    requires Is4(fpf) && Is4(p)
  {
    exists fp :: Is4(fp) && IsProduct(fp, F(dt), p) && IsProduct(fpf, fp, FTransposed(dt))
  }

  /** m is the predicted covariance F * P * F' + Q. */
  ghost predicate IsPrediction(m: Matrix, p: Matrix, dt: real)
    requires Is4(m) && Is4(p)
  {
    exists fpf ::
      && Is4(fpf) && IsTransport(fpf, p, dt)
      && forall i, j :: 0 <= i < 4 && 0 <= j < 4 ==> m[i][j] == fpf[i][j] + BlockEntry(NoiseCov(dt), i, j)
  }

  lemma AllEntries(p: array2<real>)
    requires Is4x4(p)
    ensures forall i, j :: 0 <= i < 4 && 0 <= j < 4 ==> Rows(p)[i][j] == p[i, j]
  {
  }

  lemma NoiseAdded(m: Matrix, fpf: Matrix, p: Matrix, dt: real)
    requires Is4(m) && Is4(fpf) && Is4(p) && IsTransport(fpf, p, dt)
    requires forall i, j :: 0 <= i < 4 && 0 <= j < 4 ==> m[i][j] == fpf[i][j] + BlockEntry(NoiseCov(dt), i, j)
    ensures IsPrediction(m, p, dt)
  {
  }

  /** Predicted covariance F*P*F' + Q, by row operations, column operations and eight additions. */
  method PropagateCovariance(p: array2<real>, dt: real) returns (pPred: array2<real>)
    requires Is4x4(p)
    ensures fresh(pPred) && Is4x4(pPred) && IsPrediction(Rows(pPred), Rows(p), dt)
    ensures forall i, j :: 0 <= i < 4 && 0 <= j < 4 ==>
              pPred[i, j] == Transported(p, dt, i, j) + BlockEntry(NoiseCov(dt), i, j)
  {
    hide IsTransport;
    hide IsPrediction;
    hide Transported;
    hide Rows;
    var qa := Q_ACCEL * Q_ACCEL;
    var qPos := qa * dt * dt * dt / 3.0;
    var qVel := qa * dt;
    var qPosVel := qa * dt * dt / 2.0;

    pPred := Transport(p, dt);
    ghost var fpf := Rows(pPred);
    AllEntries(pPred);
    AddNoise(pPred, qPos, qVel, qPosVel);
    AllEntries(pPred);
    NoiseAdded(Rows(pPred), fpf, Rows(p), dt);
  }

  method Transport(p: array2<real>, dt: real) returns (q: array2<real>)
    requires Is4x4(p)
    ensures fresh(q) && Is4x4(q) && IsTransport(Rows(q), Rows(p), dt)
    ensures forall i, j :: 0 <= i < 4 && 0 <= j < 4 ==> q[i, j] == Transported(p, dt, i, j)
  {
    hide IsProduct;
    var fp := AddRows(p, dt);
    q := AddColumns(fp, dt);
    forall i, j | 0 <= i < 4 && 0 <= j < 4
      ensures q[i, j] == Transported(p, dt, i, j)
    {
      ColumnsOfRows(p, fp, dt, i, j);
    }
  }

  lemma ColumnsOfRows(p: array2<real>, fp: array2<real>, dt: real, i: int, j: int)
    requires Is4x4(p) && Is4x4(fp) && 0 <= i < 4 && 0 <= j < 4
    requires forall k, l :: 0 <= k < 4 && 0 <= l < 4 ==> fp[k, l] == RowOp(p, dt, k, l)
    ensures WithColumns(fp, dt, i, j) == Transported(p, dt, i, j)
  {
  }

  /** F*P: rows 0 and 1 get dt times rows 2 and 3. */
  method AddRows(p: array2<real>, dt: real) returns (fp: array2<real>)
    requires Is4x4(p)
    ensures fresh(fp) && Is4x4(fp)
    ensures forall i, j :: 0 <= i < 4 && 0 <= j < 4 ==> fp[i, j] == RowOp(p, dt, i, j)
    ensures IsProduct(Rows(fp), F(dt), Rows(p))
  {
    fp := Copy(p);
    for j := 0 to 4
      invariant forall i, l :: 0 <= i < 4 && 0 <= l < 4 ==>
                  fp[i, l] == if l < j then RowOp(p, dt, i, l) else p[i, l]
    {
      AddToColumn(fp, p, dt, j);
    }
    RowOpsAreProduct(p, fp, dt);
  }

  method AddToColumn(fp: array2<real>, p: array2<real>, dt: real, j: int)
    requires Is4x4(fp) && Is4x4(p) && fp != p && 0 <= j < 4
    requires forall i :: 0 <= i < 4 ==> fp[i, j] == p[i, j]
    modifies fp
    ensures forall i, l :: 0 <= i < 4 && 0 <= l < 4 ==>
              fp[i, l] == if l == j then RowOp(p, dt, i, l) else old(fp[i, l])
  {
    fp[0, j] := fp[0, j] + dt * p[2, j];
    fp[1, j] := fp[1, j] + dt * p[3, j];
  }

  /** (F*P)*F': columns 0 and 1 get dt times columns 2 and 3. */
  method AddColumns(fp: array2<real>, dt: real) returns (q: array2<real>)
    requires Is4x4(fp)
    ensures fresh(q) && Is4x4(q)
    ensures forall i, j :: 0 <= i < 4 && 0 <= j < 4 ==>
              q[i, j] == WithColumns(fp, dt, i, j)
    ensures IsProduct(Rows(q), Rows(fp), FTransposed(dt))
  {
    q := Copy(fp);
    for i := 0 to 4
      invariant forall k, l :: 0 <= k < 4 && 0 <= l < 4 ==>
                  q[k, l] == if k < i then WithColumns(fp, dt, k, l) else fp[k, l]
    {
      AddToRow(q, fp, dt, i);
    }
    ColumnOpsAreProduct(fp, q, dt);
  }

  method AddToRow(q: array2<real>, fp: array2<real>, dt: real, i: int)
    requires Is4x4(q) && Is4x4(fp) && q != fp && 0 <= i < 4
    requires forall j :: 0 <= j < 4 ==> q[i, j] == fp[i, j]
    modifies q
    ensures forall k, l :: 0 <= k < 4 && 0 <= l < 4 ==>
              q[k, l] == if k == i then WithColumns(fp, dt, k, l) else old(q[k, l])
  {
    q[i, 0] := q[i, 0] + dt * fp[i, 2];
    q[i, 1] := q[i, 1] + dt * fp[i, 3];
  }

  method Copy(p: array2<real>) returns (q: array2<real>)
    requires Is4x4(p)
    ensures fresh(q) && Is4x4(q)
    ensures forall i, j :: 0 <= i < 4 && 0 <= j < 4 ==> q[i, j] == p[i, j]
  {
    q := new real[4, 4];
    for i := 0 to 4
      invariant forall k, l :: 0 <= k < i && 0 <= l < 4 ==> q[k, l] == p[k, l]
    {
      for j := 0 to 4
        invariant forall k, l :: 0 <= k < i && 0 <= l < 4 ==> q[k, l] == p[k, l]
        invariant forall l :: 0 <= l < j ==> q[i, l] == p[i, l]
      {
        q[i, j] := p[i, j];
      }
    }
  }

  method AddNoise(p: array2<real>, qPos: real, qVel: real, qPosVel: real)
    requires Is4x4(p)
    modifies p
    ensures forall i, j :: 0 <= i < 4 && 0 <= j < 4 ==>
              p[i, j] == old(p[i, j]) + BlockEntry(Cov(qPos, qPosVel, qVel), i, j)
  {
    p[0, 0] := p[0, 0] + qPos;
    p[1, 1] := p[1, 1] + qPos;
    p[2, 2] := p[2, 2] + qVel;
    p[3, 3] := p[3, 3] + qVel;
    p[0, 2] := p[0, 2] + qPosVel;
    p[2, 0] := p[2, 0] + qPosVel;
    p[1, 3] := p[1, 3] + qPosVel;
    p[3, 1] := p[3, 1] + qPosVel;
  }

  // ---------------------------------------------------------------- gain and correction

  /** A symmetric-or-not 2x2 matrix: the innovation covariance S or its inverse. */
  datatype Mat2 = Mat2(m00: real, m01: real, m10: real, m11: real)

  function Dot2(u0: real, u1: real, v0: real, v1: real): real {
    u0 * v0 + u1 * v1
  }

  /** K = P * H' * S^-1, a 4x2 matrix. */
  method GainMatrix(pPred: array2<real>, si: Mat2) returns (k: array2<real>)
    requires Is4x4(pPred)
    ensures fresh(k) && k.Length0 == 4 && k.Length1 == 2
    ensures forall i :: 0 <= i < 4 ==>
              k[i, 0] == Dot2(pPred[i, 0], pPred[i, 1], si.m00, si.m10) &&
              k[i, 1] == Dot2(pPred[i, 0], pPred[i, 1], si.m01, si.m11)
  {
    k := new real[4, 2];
    for i := 0 to 4
      invariant forall l :: 0 <= l < i ==>
                  k[l, 0] == Dot2(pPred[l, 0], pPred[l, 1], si.m00, si.m10) &&
                  k[l, 1] == Dot2(pPred[l, 0], pPred[l, 1], si.m01, si.m11)
    {
      var ph0, ph1 := pPred[i, 0], pPred[i, 1];
      k[i, 0] := Dot2(ph0, ph1, si.m00, si.m10);
      k[i, 1] := Dot2(ph0, ph1, si.m01, si.m11);
    }
  }

  /** Entry (i, j) of K * S * K', from rows i and j of K. */
  function KskEntry(s: Mat2, ki0: real, ki1: real, kj0: real, kj1: real): real {
    ki0 * (s.m00 * kj0 + s.m01 * kj1) + ki1 * (s.m10 * kj0 + s.m11 * kj1)
  }

  /** The bracketing does not matter: the entry of (K * S) * K'. */
  lemma KskAssociates(s: Mat2, ki0: real, ki1: real, kj0: real, kj1: real)
    ensures KskEntry(s, ki0, ki1, kj0, kj1)
         == (ki0 * s.m00 + ki1 * s.m10) * kj0 + (ki0 * s.m01 + ki1 * s.m11) * kj1
  {
  }

  method Subtract(p: array2<real>, q: array2<real>) returns (d: array2<real>)
    requires Is4x4(p) && Is4x4(q)
    ensures fresh(d) && Is4x4(d)
    ensures forall i, j :: 0 <= i < 4 && 0 <= j < 4 ==> d[i, j] == p[i, j] - q[i, j]
  {
    d := new real[4, 4];
    for i := 0 to 4
      invariant forall a, b :: 0 <= a < i && 0 <= b < 4 ==> d[a, b] == p[a, b] - q[a, b]
    {
      for j := 0 to 4
        invariant forall a, b :: 0 <= a < i && 0 <= b < 4 ==> d[a, b] == p[a, b] - q[a, b]
        invariant forall b :: 0 <= b < j ==> d[i, b] == p[i, b] - q[i, b]
      {
        d[i, j] := p[i, j] - q[i, j];
      }
    }
  }

  method KskMatrix(k: array2<real>, s: Mat2) returns (ksk: array2<real>)
    requires k.Length0 == 4 && k.Length1 == 2
    ensures fresh(ksk) && Is4x4(ksk)
    ensures forall i, j :: 0 <= i < 4 && 0 <= j < 4 ==> ksk[i, j] == KskEntry(s, k[i, 0], k[i, 1], k[j, 0], k[j, 1])
  {
    ksk := new real[4, 4];
    for i := 0 to 4
      invariant forall a, b :: 0 <= a < i && 0 <= b < 4 ==>
                  ksk[a, b] == KskEntry(s, k[a, 0], k[a, 1], k[b, 0], k[b, 1])
    {
      for j := 0 to 4
        invariant forall a, b :: 0 <= a < i && 0 <= b < 4 ==>
                    ksk[a, b] == KskEntry(s, k[a, 0], k[a, 1], k[b, 0], k[b, 1])
        invariant forall b :: 0 <= b < j ==> ksk[i, b] == KskEntry(s, k[i, 0], k[i, 1], k[b, 0], k[b, 1])
      {
        ksk[i, j] := KskEntry(s, k[i, 0], k[i, 1], k[j, 0], k[j, 1]);
      }
    }
  }

  /** Averages the matrix with its transpose, in place. */
  method Symmetrise(p: array2<real>)
    requires Is4x4(p)
    modifies p
    ensures forall i, j :: 0 <= i < 4 && 0 <= j < 4 ==> p[i, j] == old((p[i, j] + p[j, i]) / 2.0)
  {
    for i := 0 to 4
      invariant forall a, b :: 0 <= a < 4 && 0 <= b < 4 ==>
                  p[a, b] == if a < i || b < i then old((p[a, b] + p[b, a]) / 2.0) else old(p[a, b])
    {
      for j := i + 1 to 4
        invariant forall a, b :: 0 <= a < 4 && 0 <= b < 4 ==>
                    p[a, b] == if a < i || b < i || (a == i && b < j) || (b == i && a < j)
                               then old((p[a, b] + p[b, a]) / 2.0) else old(p[a, b])
      {
        var avg := (p[i, j] + p[j, i]) / 2.0;
        p[i, j] := avg;
        p[j, i] := avg;
      }
    }
  }

  /** The gain of two decoupled axes. */
  function GainEntry(c: Cov, r: real, i: int, u: int): real
    requires c.a + r != 0.0
  {
    GainRow(PositionGain(c, r), VelocityGain(c, r), i, u)
  }

  function Isotropic(s: real): Mat2 {
    Mat2(s, 0.0, 0.0, s)
  }

  lemma InverseOfIsotropic(s: real)
    requires s > 0.0
    ensures s * s > 0.0
    ensures s / (s * s) * s == 1.0
    ensures -0.0 / (s * s) == 0.0
  {
  }

  lemma GainOfBlock(pPred: array2<real>, c: Cov, r: real, inv: real, i: int)
    requires IsBlock(pPred, c) && c.a + r != 0.0 && inv * (c.a + r) == 1.0 && 0 <= i < 4
    ensures Dot2(pPred[i, 0], pPred[i, 1], inv, 0.0) == GainEntry(c, r, i, 0)
    ensures Dot2(pPred[i, 0], pPred[i, 1], 0.0, inv) == GainEntry(c, r, i, 1)
  {
  }

  /** The correction in gain form. */
  lemma GainForm(c: Cov, r: real, k: real, g: real)
    requires PosDef(c) && r > 0.0 && k == c.a / (c.a + r) && g == c.b / (c.a + r)
    ensures c.a - (c.a + r) * k * k == CorrectCov(c, r).a
    ensures c.b - (c.a + r) * k * g == CorrectCov(c, r).b
    ensures c.d - (c.a + r) * g * g == CorrectCov(c, r).d
  {
  }

  function GainRow(k: real, g: real, i: int, u: int): real {
    if i == u then k else if i == u + 2 then g else 0.0
  }

  /** K*S*K' of two decoupled axes is again in block form. */
  lemma KskIsBlock(s: real, k: real, g: real, i: int, j: int)
    requires 0 <= i < 4 && 0 <= j < 4
    ensures KskEntry(Isotropic(s), GainRow(k, g, i, 0), GainRow(k, g, i, 1), GainRow(k, g, j, 0), GainRow(k, g, j, 1))
         == BlockEntry(Cov(s * k * k, s * k * g, s * g * g), i, j)
  {
  }

  /** Gain and corrected covariance for a decoupled prediction: the gain of each axis, and its corrected block. */
  method CorrectBlock(pPred: array2<real>, s: Mat2, si: Mat2, ghost c: Cov, ghost r: real)
    returns (k: array2<real>, p: array2<real>)
    requires IsBlock(pPred, c) && PosDef(c) && r > 0.0
    requires s == Isotropic(c.a + r) && si == Isotropic(si.m00) && si.m00 * (c.a + r) == 1.0
    ensures fresh(k) && k.Length0 == 4 && k.Length1 == 2
    ensures forall i, u :: 0 <= i < 4 && 0 <= u < 2 ==> k[i, u] == GainEntry(c, r, i, u)
    ensures fresh(p) && IsBlock(p, CorrectCov(c, r))
  {
    k := GainMatrix(pPred, si);
    forall i | 0 <= i < 4
      ensures k[i, 0] == GainEntry(c, r, i, 0) && k[i, 1] == GainEntry(c, r, i, 1)
    {
      GainOfBlock(pPred, c, r, si.m00, i);
    }
    p := CorrectedMatrix(pPred, k, s, c, r);
  }

  method CorrectedMatrix(pPred: array2<real>, k: array2<real>, s: Mat2, ghost c: Cov, ghost r: real)
    returns (p: array2<real>)
    requires IsBlock(pPred, c) && PosDef(c) && r > 0.0 && s == Isotropic(c.a + r)
    requires k.Length0 == 4 && k.Length1 == 2
    requires forall i :: 0 <= i < 4 ==> k[i, 0] == GainEntry(c, r, i, 0) && k[i, 1] == GainEntry(c, r, i, 1)
    ensures fresh(p) && IsBlock(p, CorrectCov(c, r))
  {
    ghost var kp, kv := PositionGain(c, r), VelocityGain(c, r);
    ghost var q := Cov(s.m00 * kp * kp, s.m00 * kp * kv, s.m00 * kv * kv);
    var ksk := KskBlock(k, s, kp, kv, q);
    GainForm(c, r, kp, kv);
    p := DifferenceOfBlocks(pPred, ksk, c, q, CorrectCov(c, r));
    Symmetrise(p);
  }

  method KskBlock(k: array2<real>, s: Mat2, ghost kp: real, ghost kv: real, ghost q: Cov) returns (ksk: array2<real>)
    requires k.Length0 == 4 && k.Length1 == 2 && s == Isotropic(s.m00)
    requires forall i :: 0 <= i < 4 ==> k[i, 0] == GainRow(kp, kv, i, 0) && k[i, 1] == GainRow(kp, kv, i, 1)
    requires q == Cov(s.m00 * kp * kp, s.m00 * kp * kv, s.m00 * kv * kv)
    ensures fresh(ksk) && IsBlock(ksk, q)
  {
    ksk := KskMatrix(k, s);
    forall i, j | 0 <= i < 4 && 0 <= j < 4
      ensures ksk[i, j] == BlockEntry(q, i, j)
    {
      KskIsBlock(s.m00, kp, kv, i, j);
    }
  }

  method DifferenceOfBlocks(p: array2<real>, q: array2<real>, ghost c: Cov, ghost cq: Cov, ghost n: Cov)
    returns (d: array2<real>)
    requires IsBlock(p, c) && IsBlock(q, cq) && n == Cov(c.a - cq.a, c.b - cq.b, c.d - cq.d)
    ensures fresh(d) && IsBlock(d, n)
  {
    d := Subtract(p, q);
  }
}
