/**
 The SVD fallback `sinew_kabsch` (src/gen/sinew_align.c:216-281): eigenvectors of h^T h, sorted by
 decreasing eigenvalue, give the right singular vectors; h carries them to the left ones, a vanishing
 one is completed by a cross product, and the last is negated when the product would be a reflection.
 */
module Kabsch {
  import opened LinAlg
  import opened Forms
  import opened Rotations
  import opened NewtonSchulz
  import opened Optimality
  import opened MathLibrary
  import opened Jacobi

  const RANK_EPS := 0.000000000001

  /** An eigenvalue of h^T h with its eigenvector. */
  datatype Eigen = Eigen(w: real, v: Vec)

  datatype Triple3<T> = Triple3(t0: T, t1: T, t2: T)

  function Columns(f: Triple3<Vec>): Mat {
    Transpose(Mat(f.t0, f.t1, f.t2))
  }

  function EigenOf(d: Decomposition): Triple3<Eigen> {
    var c := Transpose(d.v);
    Triple3(Eigen(d.a.r0.x, c.r0), Eigen(d.a.r1.y, c.r1), Eigen(d.a.r2.z, c.r2))
  }

  /** The exchange sort: compare positions (0,1), (0,2), (1,2) and swap when the later one is larger. */
  function Sorted(e: Triple3<Eigen>): Triple3<Eigen> {
    var a := if e.t1.w > e.t0.w then Triple3(e.t1, e.t0, e.t2) else e;
    var b := if a.t2.w > a.t0.w then Triple3(a.t2, a.t1, a.t0) else a;
    if b.t2.w > b.t1.w then Triple3(b.t0, b.t2, b.t1) else b
  }

  function Sigma(m: Libm, e: Triple3<Eigen>): Vec {
    Vec(m.sqrt(Max(e.t0.w, 0.0)), m.sqrt(Max(e.t1.w, 0.0)), m.sqrt(Max(e.t2.w, 0.0)))
  }

  function Scaled(h: Mat, v: Vec, sigma: real): Vec {
    VScale(if sigma > RANK_EPS then 1.0 / sigma else 0.0, Apply(h, v))
  }

  /** The left vectors, completed one after the other in place. */
  function Completed(u: Triple3<Vec>, sigma: Vec): Triple3<Vec> {
    var a := if sigma.x <= RANK_EPS then u.(t0 := Cross(u.t1, u.t2)) else u;
    var b := if sigma.y <= RANK_EPS then a.(t1 := Cross(a.t2, a.t0)) else a;
    if sigma.z <= RANK_EPS then b.(t2 := Cross(b.t0, b.t1)) else b
  }

  function RightVectors(e: Triple3<Eigen>): Triple3<Vec> {
    Triple3(e.t0.v, e.t1.v, e.t2.v)
  }

  function LeftVectors(h: Mat, v: Triple3<Vec>, sigma: Vec): Triple3<Vec> {
    Completed(Triple3(Scaled(h, v.t0, sigma.x), Scaled(h, v.t1, sigma.y), Scaled(h, v.t2, sigma.z)), sigma)
  }

  /** U V^T, with the last column of U negated if that has a negative determinant. */
  function Assemble(u: Mat, v: Mat): Mat {
    var vt := Transpose(v);
    Mul(if Det(Mul(u, vt)) < 0.0 then FlipColumn(u) else u, vt)
  }

  function KabschFrom(m: Libm, h: Mat, e: Triple3<Eigen>): Mat {
    var v := RightVectors(e);
    Assemble(Columns(LeftVectors(h, v, Sigma(m, e))), Columns(v))
  }

  function SortedEigen(m: Libm, h: Mat): Triple3<Eigen> {
    Sorted(EigenOf(Jacobi9(m, Gram(h))))
  }

  function KabschFit(m: Libm, h: Mat): Mat {
    KabschFrom(m, h, SortedEigen(m, h))
  }

  // ----- exact eigenpairs

  /** Orthonormal vectors that h carries to orthogonal ones, with their squared lengths. */
  predicate EigenFrame(h: Mat, e: Triple3<Eigen>) {
    && Dot(e.t0.v, e.t0.v) == 1.0 && Dot(e.t1.v, e.t1.v) == 1.0 && Dot(e.t2.v, e.t2.v) == 1.0
    && Dot(e.t0.v, e.t1.v) == 0.0 && Dot(e.t0.v, e.t2.v) == 0.0 && Dot(e.t1.v, e.t2.v) == 0.0
    && Dot(e.t1.v, e.t0.v) == 0.0 && Dot(e.t2.v, e.t0.v) == 0.0 && Dot(e.t2.v, e.t1.v) == 0.0
    && Norm2(h, e.t0.v) == e.t0.w && Norm2(h, e.t1.v) == e.t1.w && Norm2(h, e.t2.v) == e.t2.w
    && Dot(Apply(h, e.t0.v), Apply(h, e.t1.v)) == 0.0 && Dot(Apply(h, e.t1.v), Apply(h, e.t0.v)) == 0.0
    && Dot(Apply(h, e.t0.v), Apply(h, e.t2.v)) == 0.0 && Dot(Apply(h, e.t2.v), Apply(h, e.t0.v)) == 0.0
    && Dot(Apply(h, e.t1.v), Apply(h, e.t2.v)) == 0.0 && Dot(Apply(h, e.t2.v), Apply(h, e.t1.v)) == 0.0
  }

  predicate Descending(e: Triple3<Eigen>) {
    e.t0.w >= e.t1.w >= e.t2.w
  }

  lemma SortedFrame(h: Mat, e: Triple3<Eigen>)
    requires EigenFrame(h, e)
    ensures EigenFrame(h, Sorted(e)) && Descending(Sorted(e))
    ensures multiset{e.t0, e.t1, e.t2} == multiset{Sorted(e).t0, Sorted(e).t1, Sorted(e).t2}
  {
    hide Dot, Apply, Norm2;
  }

  predicate IsDiagonal(a: Mat) {
    a.r0.y == 0.0 && a.r0.z == 0.0 && a.r1.x == 0.0 && a.r1.z == 0.0 && a.r2.x == 0.0 && a.r2.y == 0.0
  }

  /** Entry (i, j) of V^T b V, with b = h^T h, is <h v_i, h v_j>. */
  lemma JacobiFrame(d: Decomposition, h: Mat)
    requires Similar(d, Gram(h)) && IsDiagonal(d.a)
    ensures EigenFrame(h, EigenOf(d))
  {
    var c := Transpose(d.v);
    var e := EigenOf(d);
    assert Gram(d.v) == ID;
    ProductEntries(d.v, d.v);
    ProductEntries(d.v, Mul(Gram(h), d.v));
    hide Mul, Apply, Dot, Det;
    ColumnApply(Gram(h), d.v);
    GramDot(h, c.r0, c.r0); GramDot(h, c.r0, c.r1); GramDot(h, c.r0, c.r2);
    GramDot(h, c.r1, c.r0); GramDot(h, c.r1, c.r1); GramDot(h, c.r1, c.r2);
    GramDot(h, c.r2, c.r0); GramDot(h, c.r2, c.r1); GramDot(h, c.r2, c.r2);
  }

  /** Entry (i, j) of A^T B is the inner product of column i of A and column j of B. */
  lemma ProductEntries(a: Mat, b: Mat)
    ensures var p, c, d := Mul(Transpose(a), b), Transpose(a), Transpose(b);
            && p.r0 == Vec(Dot(c.r0, d.r0), Dot(c.r0, d.r1), Dot(c.r0, d.r2))
            && p.r1 == Vec(Dot(c.r1, d.r0), Dot(c.r1, d.r1), Dot(c.r1, d.r2))
            && p.r2 == Vec(Dot(c.r2, d.r0), Dot(c.r2, d.r1), Dot(c.r2, d.r2))
  {
    var c, d := Transpose(a), Transpose(b);
    hide Dot;
    DotComm(c.r0, d.r0); DotComm(c.r0, d.r1); DotComm(c.r0, d.r2);
    DotComm(c.r1, d.r0); DotComm(c.r1, d.r1); DotComm(c.r1, d.r2);
    DotComm(c.r2, d.r0); DotComm(c.r2, d.r1); DotComm(c.r2, d.r2);
  }

  /** The columns of A B are A applied to the columns of B. */
  lemma ColumnApply(a: Mat, b: Mat)
    ensures var c, d := Transpose(Mul(a, b)), Transpose(b);
            c.r0 == Apply(a, d.r0) && c.r1 == Apply(a, d.r1) && c.r2 == Apply(a, d.r2)
  {
    hide Apply;
    TransposeMul(a, b);
    TransposeTwice(a);
  }

  /** Columns of orthonormal vectors form an orthogonal matrix, and conversely. */
  predicate Orthonormal(f: Triple3<Vec>) {
    && Dot(f.t0, f.t0) == 1.0 && Dot(f.t1, f.t1) == 1.0 && Dot(f.t2, f.t2) == 1.0
    && Dot(f.t0, f.t1) == 0.0 && Dot(f.t0, f.t2) == 0.0 && Dot(f.t1, f.t2) == 0.0
  }

  lemma OrthonormalColumns(f: Triple3<Vec>)
    requires Orthonormal(f)
    ensures Orthogonal(Columns(f))
  {
    hide Dot, Mul;
    TransposeTwice(Mat(f.t0, f.t1, f.t2));
    ProductEntries(Columns(f), Columns(f));
    DotComm(f.t0, f.t1); DotComm(f.t0, f.t2); DotComm(f.t1, f.t2);
  }

  // ----- the singular value decomposition

  /** sigma_i^2 is the i-th eigenvalue, in decreasing order. */
  lemma SigmaFacts(m: Libm, h: Mat, e: Triple3<Eigen>)
    requires m.Exact() && EigenFrame(h, e) && Descending(e)
    ensures var s := Sigma(m, e);
            && s.x >= s.y >= s.z >= 0.0
            && Times(s.x, s.x) == e.t0.w && Times(s.y, s.y) == e.t1.w && Times(s.z, s.z) == e.t2.w
  {
    hide Dot, Apply, Times, m.Exact;
    DotSelf(Apply(h, e.t0.v)); DotSelf(Apply(h, e.t1.v)); DotSelf(Apply(h, e.t2.v));
    m.SqrtSquare(e.t0.w); m.SqrtSquare(e.t1.w); m.SqrtSquare(e.t2.w);
    var s := Sigma(m, e);
    SquareOrder(s.y, s.x);
    SquareOrder(s.z, s.y);
  }

  lemma ScaledUnit(h: Mat, v: Vec, sigma: real)
    requires sigma > RANK_EPS && Times(sigma, sigma) == Norm2(h, v)
    ensures Dot(Scaled(h, v, sigma), Scaled(h, v, sigma)) == 1.0
    ensures VScale(sigma, Scaled(h, v, sigma)) == Apply(h, v)
  {
    hide Dot, Apply;
    var c, p := 1.0 / sigma, Apply(h, v);
    DotScale(VScale(c, p), c, p);
    DotScale(p, c, p);
    UnitScalar(sigma, c, Dot(p, p));
    hide VScale;
    VScaleTwice(sigma, c, p);
    OneScale(p);
  }

  lemma UnitScalar(sigma: real, c: real, n: real)
    requires sigma > 0.0 && c == 1.0 / sigma && Times(sigma, sigma) == n
    ensures c * (c * n) == 1.0 && Times(sigma, c) == 1.0
  {
    assert c * sigma == 1.0;
    assert c * n == (c * sigma) * sigma == sigma;
  }

  lemma ScaledOrthogonal(h: Mat, v: Vec, s: real, x: Vec)
    requires Dot(Apply(h, v), x) == 0.0
    ensures Dot(Scaled(h, v, s), x) == 0.0
  {
    hide Dot, Apply, VScale;
    DotScale(Apply(h, v), if s > RANK_EPS then 1.0 / s else 0.0, x);
  }

  lemma UnitCross(a: Vec, b: Vec)
    requires Dot(a, a) == 1.0 && Dot(b, b) == 1.0 && Dot(a, b) == 0.0
    ensures Dot(Cross(a, b), Cross(a, b)) == 1.0 && Dot(a, Cross(a, b)) == 0.0 && Dot(b, Cross(a, b)) == 0.0
  {
    hide Dot, Cross;
    Lagrange(a, b, a, b);
    DotComm(a, b);
    Triple(a, a, b);
  }

  /** With two singular values above the threshold the left vectors are orthonormal and h v_i = d_i u_i. */
  lemma LeftFrame(m: Libm, h: Mat, e: Triple3<Eigen>) returns (t: real)
    requires m.Exact() && EigenFrame(h, e) && Descending(e) && Sigma(m, e).y > RANK_EPS
    ensures var s, u := Sigma(m, e), LeftVectors(h, RightVectors(e), Sigma(m, e));
            && Orthonormal(u)
            && Apply(h, e.t0.v) == VScale(s.x, u.t0) && Apply(h, e.t1.v) == VScale(s.y, u.t1)
            && Apply(h, e.t2.v) == VScale(t, u.t2)
            && s.x >= s.y && -s.y <= t <= s.y
  {
    hide Dot, Apply, VScale, Cross, Times, Scaled, Sigma, m.Exact;
    var s := Sigma(m, e);
    SigmaFacts(m, h, e);
    var p0, p1, p2 := Apply(h, e.t0.v), Apply(h, e.t1.v), Apply(h, e.t2.v);
    var u0, u1, q := Scaled(h, e.t0.v, s.x), Scaled(h, e.t1.v, s.y), Scaled(h, e.t2.v, s.z);
    ScaledUnit(h, e.t0.v, s.x);
    ScaledUnit(h, e.t1.v, s.y);
    DotComm(p0, u1);
    ScaledOrthogonal(h, e.t1.v, s.y, p0);
    ScaledOrthogonal(h, e.t0.v, s.x, u1);
    ScaledOrthogonal(h, e.t0.v, s.x, p2);
    ScaledOrthogonal(h, e.t1.v, s.y, p2);
    DotComm(p2, u0); DotComm(p2, u1);
    var u2;
    if s.z > RANK_EPS {
      u2 := q;
      ScaledUnit(h, e.t2.v, s.z);
      ScaledOrthogonal(h, e.t2.v, s.z, u0);
      ScaledOrthogonal(h, e.t2.v, s.z, u1);
      DotComm(u0, q); DotComm(u1, q);
    } else {
      u2 := Cross(u0, u1);
      UnitCross(u0, u1);
    }
    var u := Triple3(u0, u1, u2);
    t := Dot(u2, p2);
    AlongLast(u, p2);
    NormAlong(t, u2, p2);
    TimesMonotone(s.z, s.y, s.z, s.y);
    SquareOrder(t, s.y);
  }

  /** A vector orthogonal to the first two of an orthonormal triple is a multiple of the third. */
  lemma AlongLast(u: Triple3<Vec>, p: Vec)
    requires Orthonormal(u) && Dot(u.t0, p) == 0.0 && Dot(u.t1, p) == 0.0
    ensures p == VScale(Dot(u.t2, p), u.t2)
  {
    var o := Columns(u);
    var t := Dot(u.t2, p);
    OrthonormalColumns(u);
    assert Apply(Transpose(o), p) == Vec(0.0, 0.0, t);
    assert Apply(o, Vec(0.0, 0.0, t)) == VScale(t, u.t2) by {
      hide Dot;
      LastColumn(u.t0.x, u.t1.x, u.t2.x, t);
      LastColumn(u.t0.y, u.t1.y, u.t2.y, t);
      LastColumn(u.t0.z, u.t1.z, u.t2.z, t);
    }
    hide Mul, Apply, Dot, Columns, VScale;
    OrthogonalFacts(o);
    ApplyMul(o, Transpose(o), p);
    IdApply(p);
  }

  lemma LastColumn(a: real, b: real, c: real, t: real)
    ensures Dot(Vec(a, b, c), Vec(0.0, 0.0, t)) == Times(t, c)
  {
    assert Times(a, 0.0) == 0.0 && Times(b, 0.0) == 0.0;
  }

  lemma NormAlong(t: real, u: Vec, p: Vec)
    requires p == VScale(t, u) && Dot(u, u) == 1.0
    ensures Times(t, t) == Dot(p, p)
  {
    hide Dot, VScale;
    DotScale(p, t, u);
    DotScale(u, t, u);
    TimesRaw(t, t);
  }

  // ----- the assembled rotation

  lemma AssembleFacts(u: Mat, v: Mat)
    requires Orthogonal(u) && Orthogonal(v)
    ensures Rotation(Assemble(u, v))
    ensures Mul(Assemble(u, v), v) == u || Mul(Assemble(u, v), v) == FlipColumn(u)
  {
    hide Mul, Det, Transpose, Orthogonal, FlipColumn;
    var vt := Transpose(v);
    OrthogonalFacts(v);
    OrthogonalMul(u, vt);
    OrthogonalDet(Mul(u, vt));
    var r := Assemble(u, v);
    if Det(Mul(u, vt)) < 0.0 {
      FlipIsProduct(u);
      FlipFacts();
      OrthogonalMul(u, FLIP);
      OrthogonalMul(FlipColumn(u), vt);
      DetMul(u, vt);
      DetMul(FlipColumn(u), vt);
      CancelRight(FlipColumn(u), v);
    } else {
      CancelRight(u, v);
    }
  }

  lemma CancelRight(u: Mat, v: Mat)
    requires Orthogonal(v)
    ensures Mul(Mul(u, Transpose(v)), v) == u
  {
    hide Mul, Transpose;
    MulAssoc(u, Transpose(v), v);
    MulId(u);
  }

  /** The best rotation from a factorisation h V = (R V) diag(a, b, t) with a >= b >= |t|. */
  lemma BestFromFactors(r: Mat, v: Mat, h: Mat, a: real, b: real, t: real)
    requires Rotation(r) && Orthogonal(v) && Mul(h, v) == Mul(Mul(r, v), Diagonal(a, b, t))
    requires a >= b && -b <= t <= b
    ensures BestRotation(r, h)
  {
    hide Mul, Inner, Diagonal, Rotation;
    assert Inner(r, h) == a + b + t by {
      RotatedObjective(r, r, v, h, a, b, t);
      RotationIsOrthogonal(r);
      OrthogonalMul(r, v);
    }
    forall q | Rotation(q)
      ensures Inner(q, h) <= Inner(r, h)
    {
      var w := Mul(Transpose(Mul(r, v)), Mul(q, v));
      RotatedObjective(r, q, v, h, a, b, t);
      RelativeRotation(r, q, v);
      RotationSums(w);
      DiagonalBelowOne(w);
      WeightedSums(a, b, t, w.r0.x, w.r1.y, w.r2.z);
    }
  }

  lemma RotationIsOrthogonal(r: Mat)
    requires Rotation(r)
    ensures Orthogonal(r)
  {
  }

  /** <Q, h> is the diagonal of (R V)^T (Q V), weighted by (a, b, t). */
  lemma RotatedObjective(r: Mat, q: Mat, v: Mat, h: Mat, a: real, b: real, t: real)
    requires Orthogonal(v) && Mul(h, v) == Mul(Mul(r, v), Diagonal(a, b, t))
    ensures var w := Mul(Transpose(Mul(r, v)), Mul(q, v));
            Inner(q, h) == Times(a, w.r0.x) + Times(b, w.r1.y) + Times(t, w.r2.z)
  {
    hide Mul, Inner, Diagonal, Transpose, Orthogonal, Times;
    var u, qv := Mul(r, v), Mul(q, v);
    OrthogonalFacts(v);
    InnerMove(q, Mul(h, v), v);
    MulAssoc(h, v, Transpose(v));
    MulId(h);
    InnerComm(qv, Mul(h, v));
    InnerLeft(u, Diagonal(a, b, t), qv);
    InnerDiagonal(a, b, t, Mul(Transpose(u), qv));
  }

  lemma InnerDiagonal(a: real, b: real, c: real, w: Mat)
    ensures Inner(Diagonal(a, b, c), w) == Times(a, w.r0.x) + Times(b, w.r1.y) + Times(c, w.r2.z)
  {
    ZeroTimes(w.r0.y); ZeroTimes(w.r0.z); ZeroTimes(w.r1.x); ZeroTimes(w.r1.z); ZeroTimes(w.r2.x); ZeroTimes(w.r2.y);
    hide Times;
  }

  lemma RelativeRotation(r: Mat, q: Mat, v: Mat)
    requires Rotation(r) && Rotation(q) && Orthogonal(v)
    ensures Rotation(Mul(Transpose(Mul(r, v)), Mul(q, v)))
  {
    hide Mul, Transpose, Det, Orthogonal;
    OrthogonalMul(r, v);
    OrthogonalMul(q, v);
    OrthogonalFacts(Mul(r, v));
    DetTranspose(Mul(r, v));
    OrthogonalMul(Transpose(Mul(r, v)), Mul(q, v));
    OrthogonalDet(v);
  }

  lemma DiagonalBelowOne(w: Mat)
    requires Rotation(w)
    ensures w.r0.x <= 1.0 && w.r1.y <= 1.0 && w.r2.z <= 1.0
  {
    hide Dot, Apply;
    OrthogonalQuad(w, E0); OrthogonalQuad(w, E1); OrthogonalQuad(w, E2);
    DotBasis(E0); DotBasis(E1); DotBasis(E2);
    DotBasis(w.r0); DotBasis(w.r1); DotBasis(w.r2);
    DotBasis(Apply(w, E0)); DotBasis(Apply(w, E1)); DotBasis(Apply(w, E2));
    ApplyBasis(w);
  }

  lemma ApplyBasis(w: Mat)
    ensures Apply(w, E0).x == w.r0.x && Apply(w, E1).y == w.r1.y && Apply(w, E2).z == w.r2.z
  {
    hide Dot;
    DotBasis(w.r0); DotBasis(w.r1); DotBasis(w.r2);
  }

  lemma WeightedSums(a: real, b: real, t: real, x: real, y: real, z: real)
    requires a >= b && -b <= t <= b && x <= 1.0 && y <= 1.0 && z <= 1.0 && FourSums(x, y, z)
    ensures Times(a, x) + Times(b, y) + Times(t, z) <= a + b + t
  {
    if t >= 0.0 {
      TimesNonNegative(a, 1.0 - x);
      TimesNonNegative(b, 1.0 - y);
      TimesNonNegative(t, 1.0 - z);
      assert Times(a, 1.0 - x) + Times(b, 1.0 - y) + Times(t, 1.0 - z)
          == a + b + t - (Times(a, x) + Times(b, y) + Times(t, z));
    } else {
      var s := -t;
      TimesNonNegative(s, 1.0 - x - y + z);
      TimesNonNegative(b - s, 2.0 - x - y);
      TimesNonNegative(a - b, 1.0 - x);
      assert Times(s, 1.0 - x - y + z) + Times(b - s, 2.0 - x - y) + Times(a - b, 1.0 - x)
          == a + b - s - (Times(a, x) + Times(b, y) - Times(s, z));
      assert Times(t, z) == -Times(s, z);
    }
  }

  // ----- Kabsch is optimal exactly when it is a rotation

  lemma ColumnsScaled(u: Triple3<Vec>, a: real, b: real, c: real)
    ensures Mul(Columns(u), Diagonal(a, b, c)) == Columns(Triple3(VScale(a, u.t0), VScale(b, u.t1), VScale(c, u.t2)))
  {
    var d := Diagonal(a, b, c);
    assert Transpose(d) == d;
    hide Apply, Times;
    DiagonalApply(a, b, c, Columns(u).r0);
    DiagonalApply(a, b, c, Columns(u).r1);
    DiagonalApply(a, b, c, Columns(u).r2);
  }

  lemma ApplyColumns(h: Mat, v: Triple3<Vec>)
    ensures Mul(h, Columns(v)) == Columns(Triple3(Apply(h, v.t0), Apply(h, v.t1), Apply(h, v.t2)))
  {
    hide Apply, Mul;
    ColumnApply(h, Columns(v));
    TransposeTwice(Mat(v.t0, v.t1, v.t2));
    TransposeTwice(Mul(h, Columns(v)));
  }

  lemma FlippedScale(u: Mat, a: real, b: real, t: real)
    ensures Mul(u, Diagonal(a, b, t)) == Mul(FlipColumn(u), Diagonal(a, b, -t))
  {
    hide Mul;
    FlipIsProduct(u);
    assert FLIP == Diagonal(1.0, 1.0, -1.0);
    DiagonalMul(1.0, 1.0, -1.0, a, b, -t);
    assert Times(1.0, a) == a && Times(1.0, b) == b && Times(-1.0, -t) == t;
    MulAssoc(u, FLIP, Diagonal(a, b, -t));
  }

  /** Exact eigenpairs with two singular values above the threshold: the result is a best rotation. */
  lemma FrameBest(m: Libm, h: Mat, e: Triple3<Eigen>)
    requires m.Exact() && EigenFrame(h, e) && Descending(e) && Sigma(m, e).y > RANK_EPS
    ensures BestRotation(KabschFrom(m, h, e), h)
  {
    hide Mul, Columns, Diagonal, Assemble, FlipColumn, Sigma, LeftVectors, Rotation, Orthogonal, BestRotation, Dot,
      Apply, VScale, m.Exact;
    var t := LeftFrame(m, h, e);
    var s := Sigma(m, e);
    var v := RightVectors(e);
    var u := LeftVectors(h, v, s);
    OrthonormalColumns(u);
    OrthonormalColumns(v);
    var r := KabschFrom(m, h, e);
    AssembleFacts(Columns(u), Columns(v));
    ApplyColumns(h, v);
    ColumnsScaled(u, s.x, s.y, t);
    FlippedScale(Columns(u), s.x, s.y, t);
    if Mul(r, Columns(v)) == Columns(u) {
      BestFromFactors(r, Columns(v), h, s.x, s.y, t);
    } else {
      BestFromFactors(r, Columns(v), h, s.x, s.y, -t);
    }
  }

  lemma ZeroScaled(h: Mat, v: Vec, sigma: real)
    requires sigma <= RANK_EPS
    ensures Scaled(h, v, sigma) == ZERO
  {
    hide Apply;
    var p := Apply(h, v);
    ZeroTimes(p.x); ZeroTimes(p.y); ZeroTimes(p.z);
  }

  lemma ZeroCross(a: Vec)
    ensures Cross(ZERO, a) == ZERO
  {
    ZeroTimes(a.x); ZeroTimes(a.y); ZeroTimes(a.z);
  }

  /** With fewer than two singular values above the threshold a column of U is zero and the result is singular. */
  lemma DeficientFrame(m: Libm, h: Mat, e: Triple3<Eigen>)
    requires m.Exact() && EigenFrame(h, e) && Descending(e) && Sigma(m, e).y <= RANK_EPS
    ensures Det(KabschFrom(m, h, e)) == 0.0
  {
    hide EigenFrame, Descending, Sigma, KabschFrom, m.Exact;
    SigmaFacts(m, h, e);
    DeficientDet(m, h, e);
  }

  lemma DeficientDet(m: Libm, h: Mat, e: Triple3<Eigen>)
    requires Sigma(m, e).y <= RANK_EPS && Sigma(m, e).z <= RANK_EPS
    ensures Det(KabschFrom(m, h, e)) == 0.0
  {
    hide Mul, Det, Transpose, LeftVectors, Sigma, FlipColumn, RightVectors, Columns;
    var s := Sigma(m, e);
    var v := RightVectors(e);
    var u := LeftVectors(h, v, s);
    DeficientColumn(h, v, s);
    ZeroColumnDet(u);
    FlipDet(Columns(u));
    DetMul(Columns(u), Transpose(Columns(v)));
    DetMul(FlipColumn(Columns(u)), Transpose(Columns(v)));
  }

  lemma DeficientColumn(h: Mat, v: Triple3<Vec>, s: Vec)
    requires s.y <= RANK_EPS && s.z <= RANK_EPS
    ensures LeftVectors(h, v, s).t1 == ZERO
  {
    hide Cross, Scaled;
    ZeroScaled(h, v.t1, s.y);
    ZeroScaled(h, v.t2, s.z);
    ZeroCross(ZERO);
    ZeroCross(Scaled(h, v.t0, s.x));
  }

  lemma ZeroColumnDet(u: Triple3<Vec>)
    requires u.t1 == ZERO
    ensures Det(Columns(u)) == 0.0
  {
    hide Det;
    DetTranspose(Mat(u.t0, u.t1, u.t2));
    DetOf(u.t0.x, u.t0.y, u.t0.z, 0.0, 0.0, 0.0, u.t2.x, u.t2.y, u.t2.z);
  }

  /** The middle singular value that decides whether the fallback can produce a rotation. */
  function MiddleSigma(m: Libm, h: Mat): real {
    Sigma(m, SortedEigen(m, h)).y
  }

  lemma JacobiGivesFrame(m: Libm, h: Mat)
    requires m.Exact() && IsDiagonal(Jacobi9(m, Gram(h)).a)
    ensures EigenFrame(h, SortedEigen(m, h)) && Descending(SortedEigen(m, h))
  {
    hide EigenFrame, Sorted, Jacobi9, m.Exact, Descending, EigenOf;
    Jacobi9Similar(m, Gram(h));
    JacobiFrame(Jacobi9(m, Gram(h)), h);
    SortedFrame(h, EigenOf(Jacobi9(m, Gram(h))));
  }

  /** When the Jacobi stage has diagonalised h^T h exactly, Kabsch returns a rotation if and only if the middle
      singular value exceeds 1e-12, and then it is a best one over all rotations, reflections of h included. */
  lemma KabschBestIff(m: Libm, h: Mat)
    requires m.Exact() && IsDiagonal(Jacobi9(m, Gram(h)).a)
    ensures Rotation(KabschFit(m, h)) <==> MiddleSigma(m, h) > 0.000000000001
    ensures MiddleSigma(m, h) > 0.000000000001 ==> BestRotation(KabschFit(m, h), h)
    ensures MiddleSigma(m, h) <= 0.000000000001 ==> Det(KabschFit(m, h)) == 0.0
  {
    hide Det, Orthogonal, EigenFrame, Descending, Sigma, KabschFrom, Jacobi9, SortedEigen, m.Exact;
    var e := SortedEigen(m, h);
    JacobiGivesFrame(m, h);
    if MiddleSigma(m, h) > RANK_EPS {
      FrameBest(m, h, e);
    } else {
      DeficientFrame(m, h, e);
    }
  }

  // ----- exact recovery

  /** For h = R P with R a rotation and P psd, a unit eigenvector with sigma > 0 satisfies P v = sigma v. */
  lemma PolarEigenvector(r: Mat, p: Mat, h: Mat, v: Triple3<Vec>, sigma: real)
    requires Rotation(r) && Psd(p) && h == Mul(r, p) && Orthonormal(v)
    requires Dot(Apply(h, v.t0), Apply(h, v.t2)) == 0.0 && Dot(Apply(h, v.t1), Apply(h, v.t2)) == 0.0
    requires sigma > 0.0 && Norm2(h, v.t2) == Times(sigma, sigma)
    ensures Apply(h, v.t2) == VScale(sigma, Apply(r, v.t2))
  {
    hide Dot, Apply, Mul, Transpose, Det, VScale, VSub, Times;
    var x := v.t2;
    var px := Apply(p, x);
    var ppx := Apply(p, px);
    PolarDot(r, p, h, v.t0, x);
    PolarDot(r, p, h, v.t1, x);
    PolarDot(r, p, h, x, x);
    AlongLast(v, ppx);
    var y := VSub(px, VScale(sigma, x));
    // P y = -sigma y
    ApplySub(p, px, VScale(sigma, x));
    ApplyScale(p, sigma, x);
    EigenResidual(px, sigma, x);
    assert Apply(p, y) == VScale(-sigma, y);
    DotScale(y, -sigma, y);
    assert Quad(p, y) >= 0.0;
    DotSelf(y);
    if y != ZERO {
      MinusProduct(sigma, Dot(y, y));
    }
    SubZero(px, VScale(sigma, x));
    ApplyMul(r, p, x);
    ApplyScale(r, sigma, x);
  }

  lemma MinusProduct(s: real, n: real)
    requires s > 0.0 && n > 0.0
    ensures -s * n < 0.0
  {
    TimesPositive(s, n);
    assert -s * n == -Times(s, n);
  }

  lemma SubZero(a: Vec, b: Vec)
    requires VSub(a, b) == ZERO
    ensures a == b
  {
  }

  /** <v, P P x> = <h v, h x> */
  lemma PolarDot(r: Mat, p: Mat, h: Mat, v: Vec, x: Vec)
    requires Orthogonal(r) && Symmetric(p) && h == Mul(r, p)
    ensures Dot(v, Apply(p, Apply(p, x))) == Dot(Apply(h, v), Apply(h, x))
  {
    hide Dot, Apply, Mul, Symmetric, Orthogonal;
    SymmetricDot(p, v, Apply(p, x));
    ApplyMul(r, p, v);
    ApplyMul(r, p, x);
    OrthogonalDot(r, Apply(p, v), Apply(p, x));
  }

  lemma EigenResidual(px: Vec, s: real, x: Vec)
    ensures VSub(VScale(Times(s, s), x), VScale(s, px)) == VScale(-s, VSub(px, VScale(s, x)))
  {
    EigenResidualScalar(px.x, s, x.x);
    EigenResidualScalar(px.y, s, x.y);
    EigenResidualScalar(px.z, s, x.z);
    hide Times;
  }

  lemma EigenResidualScalar(p: real, s: real, x: real)
    ensures Times(Times(s, s), x) - Times(s, p) == Times(-s, p - Times(s, x))
  {
  }

  /** Two rotations that agree on two orthonormal vectors are equal. */
  lemma RotationsAgree(a: Mat, b: Mat, v0: Vec, v1: Vec)
    requires Rotation(a) && Rotation(b) && Dot(v0, v0) == 1.0 && Dot(v1, v1) == 1.0 && Dot(v0, v1) == 0.0
    requires Apply(a, v0) == Apply(b, v0) && Apply(a, v1) == Apply(b, v1)
    ensures a == b
  {
    hide Dot, Apply, Mul, Transpose, Cross, Det, Columns;
    var f := Triple3(v0, v1, Cross(v0, v1));
    UnitCross(v0, v1);
    RotationCross(a, v0, v1);
    RotationCross(b, v0, v1);
    OrthonormalColumns(f);
    ApplyColumns(a, f);
    ApplyColumns(b, f);
    var o := Columns(f);
    OrthogonalFacts(o);
    MulAssoc(a, o, Transpose(o));
    MulAssoc(b, o, Transpose(o));
    MulId(a);
    MulId(b);
  }

  lemma UnscaledLeft(h: Mat, r: Mat, v: Vec, sigma: real)
    requires sigma > RANK_EPS && Apply(h, v) == VScale(sigma, Apply(r, v))
    ensures Scaled(h, v, sigma) == Apply(r, v)
  {
    hide Apply, VScale, Times;
    VScaleTwice(1.0 / sigma, sigma, Apply(r, v));
    Reciprocal(sigma);
    OneScale(Apply(r, v));
  }

  /** Kabsch recovers R exactly from h = R P with P psd, whenever it returns a rotation at all. */
  lemma FrameRecovers(m: Libm, h: Mat, e: Triple3<Eigen>, r: Mat, p: Mat)
    requires m.Exact() && EigenFrame(h, e) && Descending(e) && Sigma(m, e).y > RANK_EPS
    requires Rotation(r) && Psd(p) && h == Mul(r, p)
    ensures KabschFrom(m, h, e) == r
  {
    hide Dot, Apply, Mul, Transpose, Det, Orthogonal, VScale, Psd, Sigma, Scaled, Columns, Cross, m.Exact, Times,
      Assemble, FlipColumn;
    var s := Sigma(m, e);
    var v := RightVectors(e);
    var u := LeftVectors(h, v, s);
    SigmaFacts(m, h, e);
    PolarEigenvector(r, p, h, Triple3(e.t1.v, e.t2.v, e.t0.v), s.x);
    PolarEigenvector(r, p, h, Triple3(e.t0.v, e.t2.v, e.t1.v), s.y);
    UnscaledLeft(h, r, e.t0.v, s.x);
    UnscaledLeft(h, r, e.t1.v, s.y);
    assert u.t0 == Apply(r, e.t0.v) && u.t1 == Apply(r, e.t1.v);
    var t := LeftFrame(m, h, e);
    OrthonormalColumns(u);
    OrthonormalColumns(v);
    var k := KabschFrom(m, h, e);
    AssembleFacts(Columns(u), Columns(v));
    FirstColumns(k, v, u);
    RotationsAgree(k, r, e.t0.v, e.t1.v);
  }

  lemma FirstColumns(k: Mat, v: Triple3<Vec>, u: Triple3<Vec>)
    requires Mul(k, Columns(v)) == Columns(u) || Mul(k, Columns(v)) == FlipColumn(Columns(u))
    ensures Apply(k, v.t0) == u.t0 && Apply(k, v.t1) == u.t1
  {
    hide Apply, Mul;
    ApplyColumns(k, v);
  }

  lemma KabschRecovers(m: Libm, h: Mat, r: Mat, p: Mat)
    requires m.Exact() && IsDiagonal(Jacobi9(m, Gram(h)).a) && MiddleSigma(m, h) > RANK_EPS
    requires Rotation(r) && Psd(p) && h == Mul(r, p)
    ensures KabschFit(m, h) == r
  {
    hide Rotation, EigenFrame, Descending, Sigma, KabschFrom, Jacobi9, SortedEigen, m.Exact, Psd;
    JacobiGivesFrame(m, h);
    FrameRecovers(m, h, SortedEigen(m, h), r, p);
  }
}
