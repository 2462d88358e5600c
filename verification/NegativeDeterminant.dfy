/**
 The fast path on a covariance with a negative determinant (src/gen/sinew_align.c:131-137), without its polar factors:
 what the thirtieth iterate X itself says. With h = X M and M psd, the score of the flipped answer is compared with what
 any rotation can score, when h stretches no direction less than the last axis.
 */
module NegativeDeterminant {
  import opened LinAlg
  import opened Forms
  import opened Commuting
  import opened NewtonSchulz
  import opened Convergence
  import opened FastPath
  import opened Optimality
  import opened PolarFactor
  import opened Reflection
  import opened MathLibrary
  import opened Kabsch
  import opened KabschNear
  import opened ShortestArc

  // ----- the trace of a nearly orthogonal, left-handed matrix against a rotation

  function ColumnsOf(x: Mat): Triple3<Vec> {
    var c := Transpose(x);
    Triple3(c.r0, c.r1, c.r2)
  }

  lemma ColumnsBack(x: Mat)
    ensures Columns(ColumnsOf(x)) == x
  {
  }

  lemma RotationColumns(q: Mat)
    requires Rotation(q)
    ensures Orthonormal(ColumnsOf(q)) && Det(Columns(ColumnsOf(q))) == 1.0
  {
    ProductEntries(q, q);
    hide Dot, Det, Mul;
    ColumnsBack(q);
  }

  /** Columns of length between 1 - e and 1, orthogonal up to e. */
  predicate NearColumns(f: Triple3<Vec>, e: real) {
    && 1.0 - e <= Dot(f.t0, f.t0) <= 1.0 && 1.0 - e <= Dot(f.t1, f.t1) <= 1.0 && 1.0 - e <= Dot(f.t2, f.t2) <= 1.0
    && Small(Dot(f.t0, f.t1), e) && Small(Dot(f.t0, f.t2), e) && Small(Dot(f.t1, f.t2), e)
  }

  lemma ResidualColumns(x: Mat, e: real)
    requires EntriesAtMost(Residual(x), e) && Contracts(x, 1.0)
    ensures NearColumns(ColumnsOf(x), e)
  {
    ProductEntries(x, x);
    hide Dot, Mul, Contracts;
    ColumnNorm(x, E0); ColumnNorm(x, E1); ColumnNorm(x, E2);
    ColumnImages(x);
  }

  lemma ColumnNorm(x: Mat, v: Vec)
    requires Contracts(x, 1.0) && (v == E0 || v == E1 || v == E2)
    ensures Dot(Apply(x, v), Apply(x, v)) <= 1.0
  {
    hide Dot, Apply;
    ContractsAt(x, 1.0, v);
    DotBasis(E0); DotBasis(E1); DotBasis(E2);
  }

  lemma ColumnImages(x: Mat)
    ensures var f := ColumnsOf(x); Apply(x, E0) == f.t0 && Apply(x, E1) == f.t1 && Apply(x, E2) == f.t2
  {
    hide Dot;
    DotBasis(x.r0); DotBasis(x.r1); DotBasis(x.r2);
  }

  /** The length of a column and the column scaled to length 1. */
  lemma UnitColumn(m: Libm, c: Vec, e: real) returns (l: real)
    requires m.Exact() && 0.0 < e <= 0.01 && 1.0 - e <= Dot(c, c) <= 1.0
    ensures 1.0 - e <= l <= 1.0
    ensures var u := VScale(1.0 / l, c); Dot(u, u) == 1.0 && c == VScale(l, u)
  {
    hide Dot, VScale, m.Exact;
    l := m.sqrt(Dot(c, c));
    m.SqrtSquare(Dot(c, c));
    RootRange(l, Dot(c, c));
    TimesNonNegative(l, 1.0 - l);
    assert Times(l, 1.0 - l) == l - Times(l, l);
    Normalised(l, c);
  }

  lemma UnitColumnDot(a: Vec, b: Vec, k: real, l: real, e: real)
    requires 0.0 < e <= 0.01 && 1.0 - e <= k <= 1.0 && 1.0 - e <= l <= 1.0 && Small(Dot(a, b), e)
    ensures Small(Dot(VScale(1.0 / k, a), VScale(1.0 / l, b)), 1.1 * e)
  {
    hide Dot, VScale, Times;
    DotScale(a, 1.0 / k, VScale(1.0 / l, b));
    DotScale(a, 1.0 / l, b);
    ShrunkSquare(e);
    ScaledDotScalar(k, l, 1.0 / k, 1.0 / l, Dot(a, b), e, 1.1 * e, 1.0 - e);
  }

  lemma ShrunkSquare(e: real)
    requires 0.0 < e <= 0.01
    ensures e <= Times(1.1 * e, Times(1.0 - e, 1.0 - e))
  {
    TimesMonotone(0.99, 1.0 - e, 0.99, 1.0 - e);
    assert Times(0.99, 0.99) == 0.9801;
    var k := Times(1.0 - e, 1.0 - e);
    TimesNonNegative(e, k - 0.98);
    assert Times(e, k - 0.98) == Times(e, k) - 0.98 * e;
    assert Times(1.1 * e, k) == 1.1 * Times(e, k);
  }

  /** Scaling the columns by positive factors keeps the handedness. */
  lemma ScaledHand(f: Triple3<Vec>, a: real, b: real, c: real)
    requires a > 0.0 && b > 0.0 && c > 0.0 && Det(Columns(f)) < 0.0
    ensures Det(Columns(Triple3(VScale(a, f.t0), VScale(b, f.t1), VScale(c, f.t2)))) < 0.0
  {
    hide Dot, Cross, VScale, Det, Columns, Times;
    var g := Triple3(VScale(a, f.t0), VScale(b, f.t1), VScale(c, f.t2));
    ColumnsDet(f);
    ColumnsDet(g);
    CrossScales(a, f.t0, b, f.t1);
    var w := Cross(f.t0, f.t1);
    DotScale(f.t2, c, VScale(Times(a, b), w));
    DotScale(f.t2, Times(a, b), w);
    TimesPositive(a, b);
    TimesRaw(Times(a, b), -Dot(f.t2, w));
    TimesPositive(Times(a, b), -Dot(f.t2, w));
    TimesRaw(c, Times(Times(a, b), -Dot(f.t2, w)));
    TimesPositive(c, Times(Times(a, b), -Dot(f.t2, w)));
  }

  /** l <u, p> <= <u, p> + 1 - l for unit vectors. */
  lemma ShrunkDot(c: Vec, u: Vec, p: Vec, l: real, e: real)
    requires c == VScale(l, u) && Dot(u, u) == 1.0 && Dot(p, p) == 1.0 && 1.0 - e <= l <= 1.0
    ensures Dot(c, p) <= Dot(u, p) + e
  {
    hide Dot, VScale;
    DotScale(u, l, p);
    UnitSquare();
    DotBound(u, p, 1.0);
    TimesNonNegative(1.0 - l, 1.0 + Dot(u, p));
    assert Times(1.0 - l, 1.0 + Dot(u, p)) == 1.0 - l + Dot(u, p) - l * Dot(u, p);
  }

  lemma NearTrace(m: Libm, x: Mat, q: Mat, e: real)
    requires m.Exact() && EntriesAtMost(Residual(x), e) && Contracts(x, 1.0) && 0.0 < e <= 0.01 && Det(x) < 0.0
    requires Rotation(q)
    ensures Trace(Mul(Transpose(x), q)) <= 1.0 + 8.0 * e
  {
    hide Dot, Det, Mul, Contracts, EntriesAtMost, Residual, m.Exact, VScale, Columns, Orthonormal, Rotation, Transpose,
         NearOrthonormal;
    var f, p := ColumnsOf(x), ColumnsOf(q);
    ResidualColumns(x, e);
    RotationColumns(q);
    ColumnsBack(x);
    var a := UnitColumn(m, f.t0, e);
    var b := UnitColumn(m, f.t1, e);
    var c := UnitColumn(m, f.t2, e);
    var u := Triple3(VScale(1.0 / a, f.t0), VScale(1.0 / b, f.t1), VScale(1.0 / c, f.t2));
    ScaledHand(f, 1.0 / a, 1.0 / b, 1.0 / c);
    UnitFrame(f, u, a, b, c, e);
    OppositeHands(m, u, p, 1.1 * e);
    OrthonormalUnits(p);
    ShrunkDot(f.t0, u.t0, p.t0, a, e);
    ShrunkDot(f.t1, u.t1, p.t1, b, e);
    ShrunkDot(f.t2, u.t2, p.t2, c, e);
    TraceOfColumns(x, q);
  }

  lemma UnitFrame(f: Triple3<Vec>, u: Triple3<Vec>, a: real, b: real, c: real, e: real)
    requires 0.0 < e <= 0.01 && 1.0 - e <= a <= 1.0 && 1.0 - e <= b <= 1.0 && 1.0 - e <= c <= 1.0
    requires u == Triple3(VScale(1.0 / a, f.t0), VScale(1.0 / b, f.t1), VScale(1.0 / c, f.t2)) && NearColumns(f, e)
    requires Dot(u.t0, u.t0) == 1.0 && Dot(u.t1, u.t1) == 1.0 && Dot(u.t2, u.t2) == 1.0
    ensures NearOrthonormal(u, 1.1 * e)
  {
    hide Dot, VScale;
    UnitColumnDot(f.t0, f.t1, a, b, e);
    UnitColumnDot(f.t0, f.t2, a, c, e);
    UnitColumnDot(f.t1, f.t2, b, c, e);
  }

  lemma OrthonormalUnits(p: Triple3<Vec>)
    requires Orthonormal(p)
    ensures Dot(p.t0, p.t0) == 1.0 && Dot(p.t1, p.t1) == 1.0 && Dot(p.t2, p.t2) == 1.0
  {
  }

  lemma TraceOfColumns(x: Mat, q: Mat)
    ensures var f, p := ColumnsOf(x), ColumnsOf(q);
            Trace(Mul(Transpose(x), q)) == Dot(f.t0, p.t0) + Dot(f.t1, p.t1) + Dot(f.t2, p.t2)
  {
    ProductEntries(x, q);
    hide Dot, Mul;
  }

  // ----- what a rotation can score, and what the answer does

  /** <Q, X M> <= tr M - 2z + 8 e z for every rotation Q, when M stretches every direction by at least z. */
  lemma RotationScore(m: Libm, x: Mat, a: Mat, h: Mat, q: Mat, e: real, z: real)
    requires m.Exact() && EntriesAtMost(Residual(x), e) && Contracts(x, 1.0) && 0.0 < e <= 0.01 && Det(x) < 0.0
    requires Rotation(q) && Psd(a) && h == Mul(x, a) && z >= 0.0 && forall v :: Quad(a, v) >= z * Dot(v, v)
    ensures Inner(q, h) <= Trace(a) - 2.0 * z + 8.0 * (e * z)
  {
    hide Dot, Det, Mul, Contracts, EntriesAtMost, Residual, m.Exact, Inner, Trace, Quad, Psd, MSub, MScale, Transpose,
         Orthogonal;
    var w := Mul(Transpose(x), q);
    NearTrace(m, x, q, e);
    InnerComm(q, h);
    InnerLeft(x, a, q);
    var t := MSub(a, MScale(z, ID));
    ShiftedPsd(a, z);
    forall v
      ensures Quad(w, v) <= Dot(v, v)
    {
      CrossContraction(x, q, v);
    }
    InnerTraceBound(w, t);
    InnerComm(t, w);
    InnerShift(a, z, w);
    TraceShift(a, z);
    LinearBound(z, Trace(w), 1.0 + 8.0 * e);
    assert z * (1.0 + 8.0 * e) == z + 8.0 * (e * z);
  }

  /** <v, E w> <= 3e |v|^2 for the residual E of a contraction and |w| = |v|. */
  lemma ResidualCross(x: Mat, e: real, v: Vec, w: Vec)
    requires EntriesAtMost(Residual(x), e) && Contracts(x, 1.0) && Dot(w, w) == Dot(v, v)
    ensures Dot(v, Apply(Residual(x), w)) <= 3.0 * e * Dot(v, v)
  {
    hide Dot, Apply, Residual, Contracts, EntriesAtMost, MaxRowSum, VAdd, VScale, Symmetric, Norm2;
    var r := Residual(x);
    ResidualSymmetric(x);
    EntriesRowSum(r, e);
    RowSumForm(r, v);
    RowSumForm(r, w);
    DotSelf(v);
    LinearBound(Dot(v, v), MaxRowSum(r), 3.0 * e);
    var y := VAdd(v, VScale(-1.0, w));
    QuadLine(r, v, -1.0, w);
    ResidualQuad(x, y);
    ContractsAt(x, 1.0, y);
  }

  /** <X F, X M> >= tr M - 2 M22 - 3 e tr M for the column flip F. */
  lemma FlippedScoreNear(x: Mat, a: Mat, h: Mat, e: real)
    requires EntriesAtMost(Residual(x), e) && Contracts(x, 1.0) && Psd(a) && h == Mul(x, a)
    ensures Inner(FlipColumn(x), h) >= Trace(a) - 2.0 * a.r2.z - 3.0 * e * Trace(a)
  {
    hide Mul, Inner, Trace, Psd, Contracts, EntriesAtMost, FlipColumn, Residual, Dot, Quad, Transpose;
    var b := Mul(Residual(x), FLIP);
    forall v
      ensures Quad(b, v) <= 3.0 * e * Dot(v, v)
    {
      FlippedForm(x, e, v);
    }
    InnerAtMost(b, a, 3.0 * e);
    FlippedInner(x, a, h);
    InnerFlip(a);
  }

  lemma FlippedForm(x: Mat, e: real, v: Vec)
    requires EntriesAtMost(Residual(x), e) && Contracts(x, 1.0)
    ensures Quad(Mul(Residual(x), FLIP), v) <= 3.0 * e * Dot(v, v)
  {
    hide Mul, Contracts, EntriesAtMost, Residual, Dot, Orthogonal, Apply;
    var w := Apply(FLIP, v);
    ApplyMul(Residual(x), FLIP, v);
    FlipFacts();
    OrthogonalDot(FLIP, v, v);
    ResidualCross(x, e, v, w);
  }

  /** <X F, X M> = <F, M> - <(I - X^T X) F, M>. */
  lemma FlippedInner(x: Mat, a: Mat, h: Mat)
    requires h == Mul(x, a)
    ensures Inner(FlipColumn(x), h) == Inner(FLIP, a) - Inner(Mul(Residual(x), FLIP), a)
  {
    hide Mul, Inner, FlipColumn, Transpose, MSub;
    var g := Gram(x);
    FlipIsProduct(x);
    InnerComm(FlipColumn(x), h);
    InnerLeft(x, a, Mul(x, FLIP));
    MulAssoc(Transpose(x), x, FLIP);
    MulSub(FLIP, ID, g);
    MulId(FLIP);
    InnerDifference(a, FLIP, Mul(g, FLIP));
    InnerDifference(a, FLIP, Mul(Residual(x), FLIP));
    InnerComm(a, FLIP);
    InnerComm(a, Mul(Residual(x), FLIP));
    DoubleDifference(FLIP, Mul(g, FLIP));
  }

  lemma DoubleDifference(a: Mat, b: Mat)
    ensures MSub(a, MSub(a, b)) == b
  {
  }

  /** If h = X M stretches no direction less than the last axis, M stretches each by at least (1 - 3e) M22. */
  lemma LeastFactor(x: Mat, a: Mat, h: Mat, e: real)
    requires EntriesAtMost(Residual(x), e) && Contracts(x, 1.0) && 0.0 < e <= 0.01
    requires Psd(a) && h == Mul(x, a) && LeastLast(h)
    ensures forall v :: Quad(a, v) >= (1.0 - 3.0 * e) * a.r2.z * Dot(v, v)
  {
    hide Mul, Psd, Contracts, EntriesAtMost, Residual, Dot, Quad, Norm2, Expands, Times;
    var b := a.r2.z;
    var z := (1.0 - 3.0 * e) * b;
    LastNonNegative(a);
    LastEntryBelow(a);
    SmallResidualExpands(x, e);
    ProductNorm(x, a, h, E2);
    ExpandsAt(x, 1.0 - 3.0 * e, Apply(a, E2));
    NormIs(a, E2);
    LeastFactorScalar(e, b, z, Norm2(a, E2), Norm2(h, E2));
    forall v
      ensures Norm2(a, v) >= z * z * Dot(v, v)
    {
      ProductNorm(x, a, h, v);
      ContractsAt(x, 1.0, Apply(a, v));
      NormIs(a, v);
      DotSelf(v);
      LinearBound(Dot(v, v), z * z, Norm2(h, E2));
    }
    forall v
      ensures Quad(a, v) >= z * Dot(v, v)
    {
      RootMonotone(a, z, v);
    }
  }

  lemma NormIs(a: Mat, v: Vec)
    ensures Dot(Apply(a, v), Apply(a, v)) == Norm2(a, v)
  {
  }

  lemma ProductNorm(x: Mat, a: Mat, h: Mat, v: Vec)
    requires h == Mul(x, a)
    ensures Norm2(h, v) == Norm2(x, Apply(a, v))
  {
    hide Mul, Dot, Apply;
    ApplyMul(x, a, v);
  }

  lemma LeastFactorScalar(e: real, b: real, z: real, n: real, k: real)
    requires 0.0 < e <= 0.01 && b >= 0.0 && z == (1.0 - 3.0 * e) * b && Times(b, b) <= n && k >= (1.0 - 3.0 * e) * n
    ensures z >= 0.0 && z * z <= k
  {
    var c := 1.0 - 3.0 * e;
    TimesNonNegative(c, b);
    assert Times(c, b) == z;
    TimesNonNegative(b, b);
    TimesMonotone(c, 1.0, Times(b, b), Times(b, b));
    TimesUp(c, Times(c, Times(b, b)), Times(1.0, Times(b, b)));
    assert Times(c, Times(c, Times(b, b))) == z * z;
    assert Times(1.0, Times(b, b)) == Times(b, b);
    TimesUp(c, Times(b, b), n);
  }

  /** Every covariance with a negative determinant that stretches no direction less than the last axis: with a final
      residual of at most e the answer scores within a factor 1 - 25e of every rotation. */
  lemma NegativeAnswer(m: Libm, h: Mat, q: Mat, e: real)
    requires m.Exact() && Det(h) < 0.0 && Ends(h, e) && 0.0 < e <= 0.01 && LeastLast(h) && Rotation(q)
    ensures (1.0 - 25.0 * e) * Inner(q, h) <= Inner(Ns30(h), h)
  {
    hide Det, Mul, Inner, Trace, Psd, Contracts, EntriesAtMost, Residual, FlipColumn, Iterate, Start, LeastLast,
         TowardsPolar, Quad, Dot, m.Exact, Rotation;
    var x := Iterate(Start(h), 30);
    DeterminantSign(h, 30);
    NeverDiverges(h, 30);
    AlwaysTowardsPolar(h, 30);
    var a := PsdQuotient(x, h);
    LeastFactor(x, a, h, e);
    LastNonNegative(a);
    var z := (1.0 - 3.0 * e) * a.r2.z;
    TimesNonNegative(1.0 - 3.0 * e, a.r2.z);
    TimesRaw(1.0 - 3.0 * e, a.r2.z);
    RotationScore(m, x, a, h, q, e, z);
    FlippedScoreNear(x, a, h, e);
    LeastDiagonal(a, z);
    NegativeScalar(e, Trace(a), a.r2.z, z, Inner(q, h), Inner(Ns30(h), h));
  }

  lemma LeastDiagonal(a: Mat, z: real)
    requires forall v :: Quad(a, v) >= z * Dot(v, v)
    ensures Trace(a) >= 2.0 * z + a.r2.z
  {
    hide Dot, Quad;
    assert Quad(a, E0) >= z * Dot(E0, E0) && Quad(a, E1) >= z * Dot(E1, E1);
    QuadBasis(a);
    DotBasis(E0); DotBasis(E1);
  }

  lemma NegativeScalar(e: real, t: real, b: real, z: real, q: real, r: real)
    requires 0.0 < e <= 0.01 && b >= 0.0 && z == (1.0 - 3.0 * e) * b && t >= 2.0 * z + b
    requires q <= t - 2.0 * z + 8.0 * (e * z) && r >= t - 2.0 * b - 3.0 * e * t
    ensures (1.0 - 25.0 * e) * q <= r
  {
    var f := t - 2.0 * b;
    var eb, ef, ee := Times(e, b), Times(e, f), Times(e, e);
    assert z == b - 3.0 * eb;
    TimesNonNegative(e, b);
    TimesNonNegative(0.01 - e, b);
    assert Times(0.01 - e, b) == 0.01 * b - eb;
    // f >= 0.94 b
    assert f >= 0.94 * b;
    TimesNonNegative(e, f - 0.94 * b);
    assert Times(e, f - 0.94 * b) == ef - 0.94 * eb;
    // q <= f + 15 e f
    TimesNonNegative(e, eb);
    assert e * z == eb - 3.0 * Times(e, eb);
    assert q <= f + 14.0 * eb;
    assert q <= f + 15.0 * ef;
    assert 3.0 * e * t == 3.0 * ef + 6.0 * eb;
    assert r >= f - 9.4 * ef;
    TimesUp(1.0 - 25.0 * e, q, f + 15.0 * ef);
    assert Times(1.0 - 25.0 * e, q) == (1.0 - 25.0 * e) * q;
    assert Times(1.0 - 25.0 * e, f + 15.0 * ef) == f + 15.0 * ef - 25.0 * ef - 375.0 * Times(e, ef);
    TimesNonNegative(e, f);
    TimesNonNegative(e, ef);
  }
}
