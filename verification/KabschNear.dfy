/**
 The SVD fallback `sinew_kabsch` (src/gen/sinew_align.c:216-281) after a Jacobi stage that left small off-diagonal
 entries, as its fifty sweeps always do (module JacobiEnds). The answer is nearly orthogonal and nearly a best rotation.
 */
module KabschNear {
  import opened LinAlg
  import opened Forms
  import opened Rotations
  import opened NewtonSchulz
  import opened Convergence
  import opened FastPath
  import opened Optimality
  import opened Conditioning
  import opened MathLibrary
  import opened Jacobi
  import opened JacobiRate
  import opened JacobiEnds
  import opened Kabsch

  // ----- nearly eigenvectors

  predicate Small(x: real, c: real) {
    -c <= x <= c
  }

  /** Orthonormal vectors that h carries to vectors of the given squared lengths, orthogonal up to c. */
  predicate NearFrame(h: Mat, e: Triple3<Eigen>, c: real) {
    && Orthonormal(Triple3(e.t0.v, e.t1.v, e.t2.v))
    && Norm2(h, e.t0.v) == e.t0.w && Norm2(h, e.t1.v) == e.t1.w && Norm2(h, e.t2.v) == e.t2.w
    && Small(Dot(Apply(h, e.t0.v), Apply(h, e.t1.v)), c)
    && Small(Dot(Apply(h, e.t0.v), Apply(h, e.t2.v)), c)
    && Small(Dot(Apply(h, e.t1.v), Apply(h, e.t2.v)), c)
  }

  lemma SwapNear(h: Mat, e: Triple3<Eigen>, c: real)
    requires NearFrame(h, e, c)
    ensures NearFrame(h, Triple3(e.t1, e.t0, e.t2), c) && NearFrame(h, Triple3(e.t2, e.t1, e.t0), c)
    ensures NearFrame(h, Triple3(e.t0, e.t2, e.t1), c)
  {
    hide Dot, Apply, Norm2;
    DotComm(e.t0.v, e.t1.v); DotComm(e.t0.v, e.t2.v); DotComm(e.t1.v, e.t2.v);
    var p, q, r := Apply(h, e.t0.v), Apply(h, e.t1.v), Apply(h, e.t2.v);
    DotComm(p, q); DotComm(p, r); DotComm(q, r);
  }

  lemma SortedNear(h: Mat, e: Triple3<Eigen>, c: real)
    requires NearFrame(h, e, c)
    ensures NearFrame(h, Sorted(e), c) && Descending(Sorted(e))
  {
    hide NearFrame;
    SwapNear(h, e, c);
    var a := if e.t1.w > e.t0.w then Triple3(e.t1, e.t0, e.t2) else e;
    SwapNear(h, a, c);
    var b := if a.t2.w > a.t0.w then Triple3(a.t2, a.t1, a.t0) else a;
    SwapNear(h, b, c);
  }

  /** What the Jacobi stage leaves: its off-diagonal entries are the inner products of the images. */
  lemma JacobiNearFrame(m: Libm, h: Mat, c: real)
    requires m.Exact() && OffAtMost(Jacobi9(m, Gram(h)).a, c)
    ensures NearFrame(h, SortedEigen(m, h), c) && Descending(SortedEigen(m, h))
  {
    hide NearFrame, Sorted, Jacobi9, m.Exact, Descending, OffAtMost, EigenOf;
    var d := Jacobi9(m, Gram(h));
    Jacobi9Similar(m, Gram(h));
    DecompositionNear(d, h, c);
    SortedNear(h, EigenOf(d), c);
  }

  lemma DecompositionNear(d: Decomposition, h: Mat, c: real)
    requires Similar(d, Gram(h)) && OffAtMost(d.a, c)
    ensures NearFrame(h, EigenOf(d), c)
  {
    var t := Transpose(d.v);
    assert Gram(d.v) == ID;
    ProductEntries(d.v, d.v);
    ProductEntries(d.v, Mul(Gram(h), d.v));
    hide Mul, Apply, Dot, Det;
    ColumnApply(Gram(h), d.v);
    GramDot(h, t.r0, t.r0); GramDot(h, t.r1, t.r1); GramDot(h, t.r2, t.r2);
    GramDot(h, t.r0, t.r1); GramDot(h, t.r0, t.r2); GramDot(h, t.r1, t.r2);
  }

  // ----- the left vectors

  predicate NearOrthonormal(u: Triple3<Vec>, t: real) {
    && Dot(u.t0, u.t0) == 1.0 && Dot(u.t1, u.t1) == 1.0 && Dot(u.t2, u.t2) == 1.0
    && Small(Dot(u.t0, u.t1), t) && Small(Dot(u.t0, u.t2), t) && Small(Dot(u.t1, u.t2), t)
  }

  lemma NearSigma(m: Libm, h: Mat, e: Triple3<Eigen>, c: real)
    requires m.Exact() && NearFrame(h, e, c) && Descending(e)
    ensures var s := Sigma(m, e);
            && s.x >= s.y >= s.z >= 0.0
            && Times(s.x, s.x) == e.t0.w && Times(s.y, s.y) == e.t1.w && Times(s.z, s.z) == e.t2.w
  {
    hide Dot, Apply, Times, m.Exact;
    DotSelf(Apply(h, e.t0.v)); DotSelf(Apply(h, e.t1.v)); DotSelf(Apply(h, e.t2.v));
    m.SqrtSquare(e.t0.w); m.SqrtSquare(e.t1.w); m.SqrtSquare(e.t2.w);
    var s := Sigma(m, e);
    SquareOrder(s.y, s.x);
    SquareOrder(s.z, s.y);
  }

  /** <u, w> = <h v, h x> / (sigma rho). */
  lemma ScaledDot(h: Mat, v: Vec, x: Vec, sigma: real, rho: real, c: real, t: real, z: real)
    requires z > RANK_EPS && sigma >= z && rho >= z && t > 0.0 && c <= Times(t, Times(z, z)) && c >= 0.0
    requires Small(Dot(Apply(h, v), Apply(h, x)), c)
    ensures Small(Dot(Scaled(h, v, sigma), Scaled(h, x, rho)), t)
  {
    hide Dot, Apply, VScale, Times;
    var p, q := Apply(h, v), Apply(h, x);
    var a, b := 1.0 / sigma, 1.0 / rho;
    DotScale(p, a, VScale(b, q));
    DotComm(p, VScale(b, q));
    DotScale(q, b, p);
    DotComm(q, p);
    ScaledDotScalar(sigma, rho, a, b, Dot(p, q), c, t, z);
  }

  lemma ScaledDotScalar(sigma: real, rho: real, a: real, b: real, d: real, c: real, t: real, z: real)
    requires z > 0.0 && sigma >= z && rho >= z && t > 0.0 && 0.0 <= c <= Times(t, Times(z, z)) && Small(d, c)
    requires a == 1.0 / sigma && b == 1.0 / rho
    ensures Small(a * (b * d), t)
  {
    var k := Times(sigma, rho);
    var g := Times(a, b);
    Reciprocal(sigma);
    Reciprocal(rho);
    PairUp(a, b, sigma, rho, d);
    hide Times;
    TimesPositive(a, b);
    TimesMonotone(z, sigma, z, rho);
    TimesPositive(z, z);
    TimesUp(t, Times(z, z), k);
    TimesUp(g, d, Times(t, k));
    TimesUp(g, -d, Times(t, k));
    MoveOut(g, t, k);
    TimesNegate(g, d);
  }

  lemma PairUp(a: real, b: real, x: real, y: real, d: real)
    requires Times(a, x) == 1.0 && Times(b, y) == 1.0
    ensures Times(Times(a, b), Times(x, y)) == 1.0 && a * (b * d) == Times(Times(a, b), d)
  {
    assert Times(Times(a, b), Times(x, y)) == Times(Times(a, x), Times(b, y));
  }

  lemma MoveOut(g: real, t: real, k: real)
    ensures Times(g, Times(t, k)) == Times(t, Times(g, k)) && Times(t, 1.0) == t
  {
  }

  lemma TimesNegate(g: real, d: real)
    ensures Times(g, -d) == -Times(g, d)
  {
  }

  /** The left vectors are unit, orthogonal up to t, and h carries v_i to sigma_i u_i. */
  lemma NearLeft(m: Libm, h: Mat, e: Triple3<Eigen>, c: real, t: real)
    requires m.Exact() && NearFrame(h, e, c) && Descending(e) && c >= 0.0
    requires Sigma(m, e).z > RANK_EPS && t > 0.0 && c <= Times(t, Times(Sigma(m, e).z, Sigma(m, e).z))
    ensures var s, u := Sigma(m, e), LeftVectors(h, RightVectors(e), Sigma(m, e));
            && s.x >= s.y >= s.z > 0.0 && NearOrthonormal(u, t)
            && Apply(h, e.t0.v) == VScale(s.x, u.t0) && Apply(h, e.t1.v) == VScale(s.y, u.t1)
            && Apply(h, e.t2.v) == VScale(s.z, u.t2)
  {
    hide Dot, Apply, VScale, Cross, Times, Scaled, Sigma, m.Exact;
    var s := Sigma(m, e);
    NearSigma(m, h, e, c);
    ScaledUnit(h, e.t0.v, s.x);
    ScaledUnit(h, e.t1.v, s.y);
    ScaledUnit(h, e.t2.v, s.z);
    ScaledDot(h, e.t0.v, e.t1.v, s.x, s.y, c, t, s.z);
    ScaledDot(h, e.t0.v, e.t2.v, s.x, s.z, c, t, s.z);
    ScaledDot(h, e.t1.v, e.t2.v, s.y, s.z, c, t, s.z);
  }

  // ----- nearly orthogonal

  lemma NearGram(u: Triple3<Vec>, t: real)
    requires NearOrthonormal(u, t) && t > 0.0
    ensures MaxRowSum(Residual(Columns(u))) <= 2.0 * t && MaxRowSum(MScale(-1.0, Residual(Columns(u)))) <= 2.0 * t
  {
    hide Dot, MaxRowSum;
    TransposeTwice(Mat(u.t0, u.t1, u.t2));
    ProductEntries(Columns(u), Columns(u));
    DotComm(u.t0, u.t1); DotComm(u.t0, u.t2); DotComm(u.t1, u.t2);
    hide Mul;
    var a, b, c := Dot(u.t0, u.t1), Dot(u.t0, u.t2), Dot(u.t1, u.t2);
    var r := Residual(Columns(u));
    assert r == Mat(Vec(0.0, -a, -b), Vec(-a, 0.0, -c), Vec(-b, -c, 0.0));
    MaxOfThree(r, 2.0 * t);
    assert MScale(-1.0, r) == Mat(Vec(0.0, a, b), Vec(a, 0.0, c), Vec(b, c, 0.0));
    MaxOfThree(MScale(-1.0, r), 2.0 * t);
  }

  lemma NearNorm(x: Mat, t: real, y: Vec)
    requires MaxRowSum(Residual(x)) <= t && MaxRowSum(MScale(-1.0, Residual(x))) <= t
    ensures (1.0 - t) * Dot(y, y) <= Norm2(x, y) <= (1.0 + t) * Dot(y, y)
  {
    hide Dot, Norm2, Residual, MaxRowSum, MScale, Symmetric, Quad, Times;
    ResidualSymmetric(x);
    NegatedSymmetric(Residual(x));
    RowSumForm(Residual(x), y);
    RowSumForm(MScale(-1.0, Residual(x)), y);
    ResidualQuad(x, y);
    NegatedQuad(Residual(x), y);
    DotSelf(y);
    LinearBound(Dot(y, y), MaxRowSum(Residual(x)), t);
    LinearBound(Dot(y, y), MaxRowSum(MScale(-1.0, Residual(x))), t);
  }

  lemma NegatedSymmetric(e: Mat)
    requires Symmetric(e)
    ensures Symmetric(MScale(-1.0, e))
  {
  }

  lemma NegatedQuad(e: Mat, y: Vec)
    ensures Quad(MScale(-1.0, e), y) == -Quad(e, y)
  {
    hide Dot, Apply, MScale, VScale;
    ScaleApply(-1.0, e, y);
    DotScale(Apply(e, y), -1.0, y);
    DotScale(y, -1.0, Apply(e, y));
    DotComm(y, Apply(e, y));
    DotComm(y, VScale(-1.0, Apply(e, y)));
  }

  /** U V^T, flipped or not, carries x where U carries some vector of the same length. */
  lemma AssembledAs(u: Mat, v: Mat, x: Vec) returns (z: Vec)
    requires Orthogonal(v)
    ensures Norm2(Assemble(u, v), x) == Norm2(u, z) && Dot(z, z) == Dot(x, x)
  {
    hide Dot, Apply, Mul, Transpose, Orthogonal, FlipColumn, Mirror, Det;
    var vt := Transpose(v);
    var y := Apply(vt, x);
    OrthogonalFacts(v);
    OrthogonalDot(vt, x, x);
    ApplyMul(u, vt, x);
    ApplyMul(FlipColumn(u), vt, x);
    FlipApply(u, y);
    z := if Det(Mul(u, vt)) < 0.0 then Mirror(y) else y;
  }

  lemma AssembledNorm(u: Mat, v: Mat, t: real, x: Vec)
    requires Orthogonal(v) && MaxRowSum(Residual(u)) <= t && MaxRowSum(MScale(-1.0, Residual(u))) <= t
    ensures (1.0 - t) * Dot(x, x) <= Norm2(Assemble(u, v), x) <= (1.0 + t) * Dot(x, x)
  {
    hide Dot, Norm2, Assemble, Orthogonal, Residual, MaxRowSum, MScale;
    var z := AssembledAs(u, v, x);
    NearNorm(u, t, z);
  }

  // ----- the trace of a nearly improper frame

  /** Three inner products <o_i, p_i> of an orthonormal frame with determinant -1 and one with determinant 1. */
  lemma ImproperSum(o: Triple3<Vec>, p: Triple3<Vec>)
    requires Orthonormal(o) && Orthonormal(p) && Det(Columns(o)) == -1.0 && Det(Columns(p)) == 1.0
    ensures Dot(o.t0, p.t0) + Dot(o.t1, p.t1) + Dot(o.t2, p.t2) <= 1.0
  {
    ProductEntries(Columns(o), Columns(p));
    hide Dot, Mul, Det;
    TransposeTwice(Mat(o.t0, o.t1, o.t2));
    TransposeTwice(Mat(p.t0, p.t1, p.t2));
    var w := Mul(Transpose(Columns(o)), Columns(p));
    OrthonormalColumns(o);
    OrthonormalColumns(p);
    ImproperProduct(Columns(o), Columns(p));
    ImproperTrace(w);
  }

  lemma ImproperProduct(o: Mat, p: Mat)
    requires Orthogonal(o) && Orthogonal(p) && Det(o) == -1.0 && Det(p) == 1.0
    ensures Orthogonal(Mul(Transpose(o), p)) && Det(Mul(Transpose(o), p)) == -1.0
  {
    hide Mul, Transpose, Det, Orthogonal;
    OrthogonalFacts(o);
    DetTranspose(o);
    OrthogonalMul(Transpose(o), p);
  }

  /** Completing two orthonormal vectors by plus or minus their cross product. */
  lemma CrossFrame(a: Vec, b: Vec, s: real)
    requires Dot(a, a) == 1.0 && Dot(b, b) == 1.0 && Dot(a, b) == 0.0 && (s == 1.0 || s == -1.0)
    ensures var f := Triple3(a, b, VScale(s, Cross(a, b))); Orthonormal(f) && Det(Columns(f)) == s
  {
    hide Dot, Cross, VScale, Transpose;
    var c := Cross(a, b);
    UnitCross(a, b);
    DotScale(a, s, c); DotScale(b, s, c);
    DotScale(c, s, c); DotScale(VScale(s, c), s, c);
    DetTranspose(Mat(a, b, VScale(s, c)));
    Triple(a, b, VScale(s, c));
    Triple(b, VScale(s, c), a);
    DotComm(VScale(s, c), c);
  }

  /** <a, p> + <b, q> - <a x b, p x q> <= 1 for unit a, orthogonal b of length at most 1, and orthonormal p, q. */
  lemma PairBound(m: Libm, a: Vec, b: Vec, p: Vec, q: Vec)
    requires m.Exact() && Dot(a, a) == 1.0 && Dot(a, b) == 0.0 && Dot(b, b) <= 1.0
    requires Dot(p, p) == 1.0 && Dot(q, q) == 1.0 && Dot(p, q) == 0.0
    ensures Dot(a, p) + Dot(b, q) - Dot(Cross(a, b), Cross(p, q)) <= 1.0
  {
    hide Dot, Cross, VScale, m.Exact, Times;
    UnitSquare();
    DotBound(a, p, 1.0);
    DotSelf(b);
    if b == ZERO {
      DotZero(q);
      CrossZero(a);
      DotZero(Cross(p, q));
    } else {
      var l := m.sqrt(Dot(b, b));
      m.SqrtSquare(Dot(b, b));
      RootRange(l, Dot(b, b));
      var n := VScale(1.0 / l, b);
      Normalised(l, b);
      DotScale(a, 1.0 / l, b);
      CrossFrame(a, n, -1.0);
      CrossFrame(p, q, 1.0);
      OneScale(Cross(p, q));
      ImproperSum(Triple3(a, n, VScale(-1.0, Cross(a, n))), Triple3(p, q, Cross(p, q)));
      DotScale(Cross(a, n), -1.0, Cross(p, q));
      DotScale(n, l, q);
      CrossScaleRight(a, l, n);
      DotScale(Cross(a, n), l, Cross(p, q));
      Convex(l, Dot(a, p), Dot(n, q) - Dot(Cross(a, n), Cross(p, q)));
    }
  }

  lemma CrossZero(a: Vec)
    ensures Cross(a, ZERO) == ZERO
  {
    ZeroTimes(a.x); ZeroTimes(a.y); ZeroTimes(a.z);
  }

  lemma CrossScaleRight(a: Vec, l: real, n: Vec)
    ensures Cross(a, VScale(l, n)) == VScale(l, Cross(a, n))
  {
    MoveFactor(l, a.y, n.z); MoveFactor(l, a.z, n.y); MoveFactor(l, a.z, n.x); MoveFactor(l, a.x, n.z);
    MoveFactor(l, a.x, n.y); MoveFactor(l, a.y, n.x);
    TimesAdd(l, Times(a.y, n.z), Times(a.z, n.y));
    TimesAdd(l, Times(a.z, n.x), Times(a.x, n.z));
    TimesAdd(l, Times(a.x, n.y), Times(a.y, n.x));
    hide Times;
  }

  lemma MoveFactor(l: real, a: real, n: real)
    ensures Times(a, Times(l, n)) == Times(l, Times(a, n))
  {
  }

  lemma RootRange(l: real, n: real)
    requires l >= 0.0 && Times(l, l) == n && 0.0 < n <= 1.0
    ensures 0.0 < l <= 1.0
  {
    if l > 1.0 {
      TimesPositive(l - 1.0, l);
    }
  }

  lemma Normalised(l: real, b: Vec)
    requires l > 0.0 && Times(l, l) == Dot(b, b)
    ensures var n := VScale(1.0 / l, b); Dot(n, n) == 1.0 && b == VScale(l, n)
  {
    hide Dot, VScale;
    var c := 1.0 / l;
    DotScale(VScale(c, b), c, b);
    DotScale(b, c, b);
    UnitScalar(l, c, Dot(b, b));
    VScaleTwice(l, c, b);
    OneScale(b);
  }

  lemma Convex(l: real, a: real, g: real)
    requires 0.0 < l <= 1.0 && a <= 1.0 && a + g <= 1.0
    ensures a + l * g <= 1.0
  {
    TimesNonNegative(1.0 - l, 1.0 - a);
    TimesNonNegative(l, 1.0 - a - g);
    assert Times(1.0 - l, 1.0 - a) + Times(l, 1.0 - a - g) == 1.0 - a - l * g;
  }

  /** The volume of three unit vectors from their inner products. */
  lemma VolumeSquare(u: Triple3<Vec>, t: real)
    requires NearOrthonormal(u, t)
    ensures var a, b, c, d := Dot(u.t0, u.t1), Dot(u.t0, u.t2), Dot(u.t1, u.t2), Det(Columns(u));
            Times(d, d) == 1.0 - a * a - b * b - c * c + 2.0 * (a * b * c)
  {
    ProductEntries(Columns(u), Columns(u));
    hide Dot, Det, Mul, Times;
    TransposeTwice(Mat(u.t0, u.t1, u.t2));
    DotComm(u.t0, u.t1); DotComm(u.t0, u.t2); DotComm(u.t1, u.t2);
    var a, b, c := Dot(u.t0, u.t1), Dot(u.t0, u.t2), Dot(u.t1, u.t2);
    GramDet(Columns(u));
    assert Gram(Columns(u)) == Mat(Vec(1.0, a, b), Vec(a, 1.0, c), Vec(b, c, 1.0));
    DetOf(1.0, a, b, a, 1.0, c, b, c, 1.0);
    VolumeScalar(a, b, c);
  }

  lemma VolumeScalar(a: real, b: real, c: real)
    ensures 1.0 * (1.0 * 1.0 - c * c) - a * (a * 1.0 - c * b) + b * (a * c - 1.0 * b)
         == 1.0 - a * a - b * b - c * c + 2.0 * (a * b * c)
  {
  }

  lemma ColumnsDet(u: Triple3<Vec>)
    ensures Det(Columns(u)) == Dot(u.t2, Cross(u.t0, u.t1))
  {
    hide Dot, Cross, Transpose;
    DetTranspose(Mat(u.t0, u.t1, u.t2));
    Triple(u.t0, u.t1, u.t2);
    Triple(u.t1, u.t2, u.t0);
  }

  /** A left-handed, nearly orthonormal frame: the third vector is nearly minus the cross product of the others. */
  lemma ThirdNear(u: Triple3<Vec>, t: real)
    requires NearOrthonormal(u, t) && 0.0 < t <= 0.1 && Det(Columns(u)) < 0.0
    ensures var d := VAdd(u.t2, Cross(u.t0, u.t1)); Dot(d, d) <= Times(3.0 * t, 3.0 * t)
  {
    hide Dot, Cross, VAdd, Det, Times, Columns;
    VolumeSquare(u, t);
    ColumnsDet(u);
    var x := Cross(u.t0, u.t1);
    SumNorm(u.t2, x);
    UnitLagrange(u.t0, u.t1);
    CauchySchwarz(u.t2, x);
    ThirdScalar(Dot(u.t0, u.t1), Dot(u.t0, u.t2), Dot(u.t1, u.t2), Dot(u.t2, x), Dot(x, x), t);
  }

  lemma UnitLagrange(a: Vec, b: Vec)
    requires Dot(a, a) == 1.0 && Dot(b, b) == 1.0
    ensures Dot(Cross(a, b), Cross(a, b)) == 1.0 - Dot(a, b) * Dot(a, b)
  {
    hide Dot, Cross;
    Lagrange(a, b, a, b);
    DotComm(a, b);
  }

  lemma SumNorm(a: Vec, b: Vec)
    ensures Dot(VAdd(a, b), VAdd(a, b)) == Dot(a, a) + 2.0 * Dot(a, b) + Dot(b, b)
  {
    hide Dot, VAdd;
    DotAdd(VAdd(a, b), a, b);
    DotAdd(a, a, b);
    DotAdd(b, a, b);
    DotComm(a, b);
  }

  lemma ThirdScalar(a: real, b: real, c: real, d: real, n: real, t: real)
    requires Small(a, t) && Small(b, t) && Small(c, t) && 0.0 < t <= 0.1 && d < 0.0
    requires n == 1.0 - a * a && Times(d, d) <= Times(1.0, n)
    requires Times(d, d) == 1.0 - a * a - b * b - c * c + 2.0 * (a * b * c)
    ensures 1.0 + 2.0 * d + n <= Times(3.0 * t, 3.0 * t)
  {
    SmallSquareOf(a, t); SmallSquareOf(b, t); SmallSquareOf(c, t);
    SmallCube(a, b, c, t);
    assert Times(3.0 * t, 3.0 * t) == 9.0 * Times(t, t);
    assert Times(1.0, n) == n;
    // d^2 >= 1 - 4 t^2 and d^2 <= 1, so -d >= d^2
    hide Times;
    RootBelowOne(-d, d);
  }

  lemma SmallSquareOf(a: real, t: real)
    requires Small(a, t)
    ensures 0.0 <= a * a <= Times(t, t)
  {
    SquareRaw(a);
    TimesNonNegative(t - a, t + a);
    assert Times(t - a, t + a) == Times(t, t) - a * a;
  }

  lemma SmallCube(a: real, b: real, c: real, t: real)
    requires Small(a, t) && Small(b, t) && Small(c, t) && 0.0 < t <= 0.1
    ensures 2.0 * (a * b * c) >= -Times(t, t)
  {
    SmallProduct(a, b, t, t);
    SmallProduct(Times(a, b), c, Times(t, t), t);
    assert Times(Times(a, b), c) == a * b * c;
    TimesPositive(t, t);
    TimesMonotone(t, 0.1, Times(t, t), Times(t, t));
    assert Times(Times(t, t), t) == Times(t, Times(t, t));
    assert Times(0.1, Times(t, t)) == 0.1 * Times(t, t);
  }

  lemma SmallProduct(a: real, b: real, s: real, t: real)
    requires Small(a, s) && Small(b, t)
    ensures Small(Times(a, b), Times(s, t))
  {
    TimesNonNegative(s - a, t + b);
    TimesNonNegative(s + a, t - b);
    TimesNonNegative(s - a, t - b);
    TimesNonNegative(s + a, t + b);
    assert Times(s - a, t + b) + Times(s + a, t - b) == 2.0 * Times(s, t) - 2.0 * Times(a, b);
    assert Times(s - a, t - b) + Times(s + a, t + b) == 2.0 * Times(s, t) + 2.0 * Times(a, b);
  }

  lemma RootBelowOne(x: real, d: real)
    requires x == -d && x > 0.0 && Times(d, d) <= 1.0
    ensures x >= Times(d, d)
  {
    assert Times(x, x) == Times(d, d);
    if x > 1.0 {
      TimesMonotone(1.0, x, 1.0, x);
      TimesPositive(x, x - 1.0);
    } else {
      TimesNonNegative(x, 1.0 - x);
    }
  }

  /** A left-handed, nearly orthonormal frame against a rotation: the trace is at most 1 + 4t. */
  lemma NearImproper(m: Libm, u: Triple3<Vec>, p: Triple3<Vec>, t: real)
    requires m.Exact() && NearOrthonormal(u, t) && 0.0 < t <= 0.1 && Det(Columns(u)) < 0.0
    requires Orthonormal(p) && p.t2 == Cross(p.t0, p.t1)
    ensures Dot(u.t0, p.t0) + Dot(u.t1, p.t1) + Dot(u.t2, p.t2) <= 1.0 + 4.0 * t
  {
    hide Dot, Cross, VAdd, VSub, VScale, Det, m.Exact, Times, Columns;
    var e := Dot(u.t0, u.t1);
    var x := Cross(u.t0, u.t1);
    ThirdNear(u, t);
    DotBound(VAdd(u.t2, x), p.t2, 3.0 * t);
    DotAdd(p.t2, u.t2, x);
    var b := VSub(u.t1, VScale(e, u.t0));
    Straightened(u, t);
    PairBound(m, u.t0, b, p.t0, p.t1);
    DotSub(p.t1, u.t1, VScale(e, u.t0));
    DotScale(u.t0, e, p.t1);
    UnitSquare();
    DotBound(u.t0, p.t1, 1.0);
    SmallProduct(e, Dot(u.t0, p.t1), t, 1.0);
    TimesRaw(e, Dot(u.t0, p.t1));
    TimesOne(t);
  }

  lemma Straightened(u: Triple3<Vec>, t: real)
    requires NearOrthonormal(u, t)
    ensures var e := Dot(u.t0, u.t1);
            var b := VSub(u.t1, VScale(e, u.t0));
            Dot(u.t0, b) == 0.0 && Dot(b, b) <= 1.0 && Cross(u.t0, b) == Cross(u.t0, u.t1)
  {
    hide Dot, Cross, VSub, VScale, Times;
    var e := Dot(u.t0, u.t1);
    var w := VScale(e, u.t0);
    DotSub(u.t0, u.t1, w);
    DotScale(u.t0, e, u.t0);
    DotSub(VSub(u.t1, w), u.t1, w);
    DotSub(u.t1, u.t1, w);
    DotSub(w, u.t1, w);
    DotScale(u.t1, e, u.t0);
    DotScale(u.t0, e, u.t1);
    DotScale(w, e, u.t0);
    DotComm(u.t0, u.t1);
    DotComm(u.t1, w);
    SquareRaw(e);
    CrossShift(u.t0, e, u.t1);
  }

  lemma CrossShift(a: Vec, e: real, b: Vec)
    ensures Cross(a, VSub(b, VScale(e, a))) == Cross(a, b)
  {
    ShiftEntry(a.y, a.z, b.y, b.z, e);
    ShiftEntry(a.z, a.x, b.z, b.x, e);
    ShiftEntry(a.x, a.y, b.x, b.y, e);
    hide Times;
  }

  lemma ShiftEntry(p: real, q: real, x: real, y: real, e: real)
    ensures Times(p, y - Times(e, q)) - Times(q, x - Times(e, p)) == Times(p, y) - Times(q, x)
  {
  }

  // ----- the score

  /** <Q, h> = sum of sigma_i <u_i, Q v_i> for any Q, when h v_i = sigma_i u_i and the v_i are orthonormal. */
  lemma ScoreOf(h: Mat, q: Mat, u: Triple3<Vec>, v: Triple3<Vec>, a: real, b: real, c: real)
    requires Orthonormal(v)
    requires Apply(h, v.t0) == VScale(a, u.t0) && Apply(h, v.t1) == VScale(b, u.t1) && Apply(h, v.t2) == VScale(c, u.t2)
    ensures Inner(q, h) == Times(a, Dot(u.t0, Apply(q, v.t0))) + Times(b, Dot(u.t1, Apply(q, v.t1)))
                           + Times(c, Dot(u.t2, Apply(q, v.t2)))
  {
    hide Mul, Apply, VScale, Inner, Columns, Diagonal, Orthogonal, Times, Transpose, Dot;
    var cu, cv := Columns(u), Columns(v);
    var r := Mul(cu, Transpose(cv));
    OrthonormalColumns(v);
    CancelRight(cu, cv);
    ApplyColumns(h, v);
    ColumnsScaled(u, a, b, c);
    RotatedObjective(r, q, cv, h, a, b, c);
    ApplyColumns(q, v);
    FrameProducts(u, Triple3(Apply(q, v.t0), Apply(q, v.t1), Apply(q, v.t2)));
  }

  lemma FrameProducts(u: Triple3<Vec>, p: Triple3<Vec>)
    ensures var w := Mul(Transpose(Columns(u)), Columns(p));
            w.r0.x == Dot(u.t0, p.t0) && w.r1.y == Dot(u.t1, p.t1) && w.r2.z == Dot(u.t2, p.t2)
  {
    ProductEntries(Columns(u), Columns(p));
    hide Dot, Mul;
    TransposeTwice(Mat(u.t0, u.t1, u.t2));
    TransposeTwice(Mat(p.t0, p.t1, p.t2));
  }

  /** The images of the right vectors under the assembled matrix. */
  lemma AssembledImages(u: Triple3<Vec>, v: Triple3<Vec>)
    requires Orthonormal(v)
    ensures var r, s := Assemble(Columns(u), Columns(v)), if Det(Columns(u)) * Det(Columns(v)) < 0.0 then -1.0 else 1.0;
            Apply(r, v.t0) == u.t0 && Apply(r, v.t1) == u.t1 && Apply(r, v.t2) == VScale(s, u.t2)
  {
    hide Apply, Orthogonal, Det, FlipColumn, Mul, Columns, VScale;
    var cu, cv := Columns(u), Columns(v);
    var r := Assemble(cu, cv);
    OrthonormalColumns(v);
    OrthogonalFacts(cv);
    DetTranspose(cv);
    DetMul(cu, Transpose(cv));
    CancelRight(cu, cv);
    CancelRight(FlipColumn(cu), cv);
    ApplyColumns(r, v);
    FlippedColumns(u);
    SameColumns(Triple3(Apply(r, v.t0), Apply(r, v.t1), Apply(r, v.t2)));
    SameColumns(u);
    SameColumns(Triple3(u.t0, u.t1, VScale(-1.0, u.t2)));
    OneScale(u.t2);
  }

  /** The columns can be read back. */
  lemma SameColumns(u: Triple3<Vec>)
    ensures Transpose(Columns(u)) == Mat(u.t0, u.t1, u.t2)
  {
  }

  lemma FlippedColumns(u: Triple3<Vec>)
    ensures FlipColumn(Columns(u)) == Columns(Triple3(u.t0, u.t1, VScale(-1.0, u.t2)))
  {
  }

  lemma AssembledScore(h: Mat, u: Triple3<Vec>, v: Triple3<Vec>, a: real, b: real, c: real, t: real)
    requires Orthonormal(v) && NearOrthonormal(u, t)
    requires Apply(h, v.t0) == VScale(a, u.t0) && Apply(h, v.t1) == VScale(b, u.t1) && Apply(h, v.t2) == VScale(c, u.t2)
    ensures Inner(Assemble(Columns(u), Columns(v)), h)
         == a + b + (if Det(Columns(u)) * Det(Columns(v)) < 0.0 then -c else c)
  {
    hide Apply, VScale, Inner, Columns, Det, Assemble, Dot, Times, Orthonormal;
    var r := Assemble(Columns(u), Columns(v));
    AssembledImages(u, v);
    ScoreOf(h, r, u, v, a, b, c);
    DotScale(u.t2, -1.0, u.t2); DotScale(u.t2, 1.0, u.t2);
    TimesOne(a); TimesOne(b); TimesOne(c);
    TimesNegate(c, 1.0);
  }

  lemma ImageFrame(q: Mat, v: Triple3<Vec>)
    requires Rotation(q) && Orthonormal(v)
    ensures var p := Triple3(Apply(q, v.t0), Apply(q, v.t1), Apply(q, v.t2));
            Orthonormal(p) && Det(Columns(p)) == Det(Columns(v))
  {
    hide Apply, Dot, Det, Columns, Orthogonal, Mul;
    OrthogonalDot(q, v.t0, v.t0); OrthogonalDot(q, v.t1, v.t1); OrthogonalDot(q, v.t2, v.t2);
    OrthogonalDot(q, v.t0, v.t1); OrthogonalDot(q, v.t0, v.t2); OrthogonalDot(q, v.t1, v.t2);
    ApplyColumns(q, v);
    DetMul(q, Columns(v));
  }

  /** Unit vectors have inner products of at most 1. */
  lemma UnitBound(u: Vec, p: Vec)
    requires Dot(u, u) == 1.0 && Dot(p, p) == 1.0
    ensures Dot(u, p) <= 1.0
  {
    hide Dot, Times;
    UnitSquare();
    DotBound(u, p, 1.0);
  }

  /** The trace bound for frames of opposite handedness, whichever is which. */
  lemma OppositeHands(m: Libm, u: Triple3<Vec>, p: Triple3<Vec>, t: real)
    requires m.Exact() && NearOrthonormal(u, t) && 0.0 < t <= 0.1 && Orthonormal(p)
    requires Det(Columns(u)) * Det(Columns(p)) < 0.0
    ensures Dot(u.t0, p.t0) + Dot(u.t1, p.t1) + Dot(u.t2, p.t2) <= 1.0 + 4.0 * t
  {
    hide Dot, Det, m.Exact, Columns, VScale, Cross, FlipColumn;
    OrthonormalColumns(p);
    OrthogonalDet(Columns(p));
    if Det(Columns(p)) == 1.0 {
      RightHanded(p);
      NearImproper(m, u, p, t);
    } else {
      var u', p' := Triple3(u.t0, u.t1, VScale(-1.0, u.t2)), Triple3(p.t0, p.t1, VScale(-1.0, p.t2));
      FlippedColumns(u); FlipDet(Columns(u));
      FlippedColumns(p); FlipDet(Columns(p));
      NegatedThird(u.t0, u.t1, u.t2, u.t2);
      NegatedThird(p.t0, p.t1, p.t2, p.t2);
      NegatedThird(p.t0, p.t1, u.t2, p.t2);
      RightHanded(p');
      NearImproper(m, u', p', t);
    }
  }

  lemma NegatedThird(a: Vec, b: Vec, x: Vec, y: Vec)
    ensures Dot(VScale(-1.0, x), VScale(-1.0, y)) == Dot(x, y)
    ensures Dot(a, VScale(-1.0, y)) == -Dot(a, y) && Dot(b, VScale(-1.0, y)) == -Dot(b, y)
  {
    hide Dot, VScale;
    DotScale(VScale(-1.0, x), -1.0, y);
    DotScale(x, -1.0, y);
    DotScale(a, -1.0, y);
    DotScale(b, -1.0, y);
  }

  /** A right-handed orthonormal frame ends in its cross product. */
  lemma RightHanded(p: Triple3<Vec>)
    requires Orthonormal(p) && Det(Columns(p)) == 1.0
    ensures p.t2 == Cross(p.t0, p.t1)
  {
    hide Dot, Det, Mul, Cross, VScale, Columns;
    OrthonormalColumns(p);
    OrthogonalFacts(Columns(p));
    SameColumns(p);
    OrthogonalFacts(Transpose(Columns(p)));
    DetTranspose(Columns(p));
    ScaleByOne(Mat(p.t0, p.t1, p.t2));
    assert Cof(Mat(p.t0, p.t1, p.t2)).r2 == Cross(p.t0, p.t1);
  }

  /** What a rotation can score against h. */
  lemma NearScore(m: Libm, h: Mat, q: Mat, u: Triple3<Vec>, v: Triple3<Vec>, s: Vec, t: real)
    requires m.Exact() && Rotation(q) && Orthonormal(v) && NearOrthonormal(u, t) && 0.0 < t <= 0.1
    requires s.x >= s.y >= s.z > 0.0
    requires Apply(h, v.t0) == VScale(s.x, u.t0) && Apply(h, v.t1) == VScale(s.y, u.t1)
            && Apply(h, v.t2) == VScale(s.z, u.t2)
    ensures Inner(q, h) <= Inner(Assemble(Columns(u), Columns(v)), h) + 4.0 * (t * s.z)
  {
    hide Apply, VScale, Inner, Columns, Det, Assemble, Dot, Times, m.Exact, Rotation;
    var p := Triple3(Apply(q, v.t0), Apply(q, v.t1), Apply(q, v.t2));
    AssembledScore(h, u, v, s.x, s.y, s.z, t);
    ScoreOf(h, q, u, v, s.x, s.y, s.z);
    ImageFrame(q, v);
    var a, b, c := Dot(u.t0, p.t0), Dot(u.t1, p.t1), Dot(u.t2, p.t2);
    UnitBound(u.t0, p.t0); UnitBound(u.t1, p.t1); UnitBound(u.t2, p.t2);
    if Det(Columns(u)) * Det(Columns(v)) < 0.0 {
      OppositeHands(m, u, p, t);
      OppositeScalar(s.x, s.y, s.z, a, b, c, t);
    } else {
      SameScalar(s.x, s.y, s.z, a, b, c, t);
    }
  }

  lemma OppositeScalar(x: real, y: real, z: real, a: real, b: real, c: real, t: real)
    requires x >= y >= z > 0.0 && a <= 1.0 && b <= 1.0 && a + b + c <= 1.0 + 4.0 * t
    ensures Times(x, a) + Times(y, b) + Times(z, c) <= x + y - z + 4.0 * (t * z)
  {
    TimesNonNegative(x - z, 1.0 - a);
    TimesNonNegative(y - z, 1.0 - b);
    TimesNonNegative(z, 1.0 + 4.0 * t - a - b - c);
    assert Times(x - z, 1.0 - a) + Times(y - z, 1.0 - b) + Times(z, 1.0 + 4.0 * t - a - b - c)
        == x + y - z + 4.0 * (t * z) - (Times(x, a) + Times(y, b) + Times(z, c));
  }

  lemma SameScalar(x: real, y: real, z: real, a: real, b: real, c: real, t: real)
    requires x >= y >= z > 0.0 && a <= 1.0 && b <= 1.0 && c <= 1.0 && t > 0.0
    ensures Times(x, a) + Times(y, b) + Times(z, c) <= x + y + z + 4.0 * (t * z)
  {
    TimesNonNegative(x, 1.0 - a);
    TimesNonNegative(y, 1.0 - b);
    TimesNonNegative(z, 1.0 - c);
    TimesNonNegative(t, z);
    assert Times(x, 1.0 - a) + Times(y, 1.0 - b) + Times(z, 1.0 - c)
      == x + y + z - (Times(x, a) + Times(y, b) + Times(z, c));
  }

  /** The least singular value as the fallback computes it. */
  function LeastSigma(m: Libm, h: Mat): real {
    Sigma(m, SortedEigen(m, h)).z
  }

  /** The least singular value is above 1e-12, and what the Jacobi stage left off the diagonal is at most t times its
      square. */
  predicate Settled(m: Libm, h: Mat, t: real) {
    && LeastSigma(m, h) > RANK_EPS && 0.0 < t <= 0.1
    && OffAtMost(Jacobi9(m, Gram(h)).a, Times(t, Times(LeastSigma(m, h), LeastSigma(m, h))))
  }

  /** The early exit settles, for a least singular value whose square is at least 1e-20 / t. */
  lemma ConvergedSettles(m: Libm, h: Mat, t: real)
    requires Converged(Jacobi9(m, Gram(h)).a) && LeastSigma(m, h) > 0.000000000001 && 0.0 < t <= 0.1
    requires 0.00000000000000000001 <= Times(t, Times(LeastSigma(m, h), LeastSigma(m, h)))
    ensures Settled(m, h, t)
  {
    hide Jacobi9, LeastSigma, Gram, Times;
  }

  /** t times the square of sigma reaches what fifty sweeps can leave. */
  predicate Resolves(t: real, sigma: real) {
    0.0 < t <= 0.1 && 0.0000000000000000001 <= Times(t, Times(sigma, sigma))
  }

  /** So do the fifty sweeps for every finite h, for one whose square is at least 1e-19 / t. */
  lemma FiniteSettles(m: Libm, h: Mat, t: real)
    requires m.Exact() && Finite(h) && LeastSigma(m, h) > 0.000000000001 && Resolves(t, LeastSigma(m, h))
    ensures Settled(m, h, t)
  {
    hide Jacobi9, LeastSigma, Gram, Times, m.Exact, Finite;
    GramEnds(m, h);
  }

  /** With the least singular value above 1e-12 and off-diagonal entries of at most t times its square: the answer
      stretches no vector by more than a factor 1 +- 2t in squared length, and no rotation scores more than 4t times
      that singular value above it, reflections of h included. */
  lemma KabschNearBest(m: Libm, h: Mat, t: real)
    requires m.Exact() && Settled(m, h, t)
    ensures forall x :: (1.0 - 2.0 * t) * Dot(x, x) <= Norm2(KabschFit(m, h), x) <= (1.0 + 2.0 * t) * Dot(x, x)
    ensures forall q :: Rotation(q) ==> Inner(q, h) <= Inner(KabschFit(m, h), h) + 4.0 * (t * LeastSigma(m, h))
  {
    hide NearFrame, Descending, Sigma, Jacobi9, SortedEigen, m.Exact, OffAtMost, Rotation, Inner, Dot, Norm2, Times,
         LeftVectors, Assemble, Columns, Apply, VScale, NearOrthonormal, Gram, Residual, MaxRowSum, MScale;
    var e := SortedEigen(m, h);
    var c := Times(t, Times(LeastSigma(m, h), LeastSigma(m, h)));
    JacobiNearFrame(m, h, c);
    TimesSquare(LeastSigma(m, h));
    TimesNonNegative(t, Times(LeastSigma(m, h), LeastSigma(m, h)));
    NearLeft(m, h, e, c, t);
    RightOrthonormal(h, e, c);
    var s, v := Sigma(m, e), RightVectors(e);
    var u := LeftVectors(h, v, s);
    OrthonormalColumns(v);
    NearGram(u, t);
    forall x
      ensures (1.0 - 2.0 * t) * Dot(x, x) <= Norm2(KabschFit(m, h), x) <= (1.0 + 2.0 * t) * Dot(x, x)
    {
      AssembledNorm(Columns(u), Columns(v), 2.0 * t, x);
    }
    forall q | Rotation(q)
      ensures Inner(q, h) <= Inner(KabschFit(m, h), h) + 4.0 * (t * s.z)
    {
      NearScore(m, h, q, u, v, s, t);
    }
  }

  lemma RightOrthonormal(h: Mat, e: Triple3<Eigen>, c: real)
    requires NearFrame(h, e, c)
    ensures Orthonormal(RightVectors(e))
  {
    hide Dot, Apply, Norm2;
  }

  // ----- a least singular value below the threshold

  /** The least singular value is at most 1e-12, the middle one is above it, and what the Jacobi stage left off the
      diagonal is at most t times the square of the middle one. */
  predicate SettledFlat(m: Libm, h: Mat, t: real) {
    && LeastSigma(m, h) <= RANK_EPS < MiddleSigma(m, h) && 0.0 < t <= 0.1
    && OffAtMost(Jacobi9(m, Gram(h)).a, Times(t, Times(MiddleSigma(m, h), MiddleSigma(m, h))))
  }

  lemma FiniteSettlesFlat(m: Libm, h: Mat, t: real)
    requires m.Exact() && Finite(h) && Resolves(t, MiddleSigma(m, h))
    requires LeastSigma(m, h) <= 0.000000000001 < MiddleSigma(m, h)
    ensures SettledFlat(m, h, t)
  {
    hide Jacobi9, LeastSigma, MiddleSigma, Gram, Times, m.Exact, Finite;
    GramEnds(m, h);
  }

  /** Two unit vectors orthogonal up to t, completed by their cross product. */
  predicate NearCompleted(u: Triple3<Vec>, t: real) {
    && Dot(u.t0, u.t0) == 1.0 && Dot(u.t1, u.t1) == 1.0 && Small(Dot(u.t0, u.t1), t) && u.t2 == Cross(u.t0, u.t1)
  }

  lemma FlatLeft(m: Libm, h: Mat, e: Triple3<Eigen>, c: real, t: real)
    requires m.Exact() && NearFrame(h, e, c) && Descending(e) && c >= 0.0
    requires Sigma(m, e).z <= RANK_EPS < Sigma(m, e).y && t > 0.0
    requires c <= Times(t, Times(Sigma(m, e).y, Sigma(m, e).y))
    ensures var s, u := Sigma(m, e), LeftVectors(h, RightVectors(e), Sigma(m, e));
            && s.x >= s.y > 0.0 && 0.0 <= s.z && Times(s.z, s.z) == Norm2(h, e.t2.v) && NearCompleted(u, t)
            && Apply(h, e.t0.v) == VScale(s.x, u.t0) && Apply(h, e.t1.v) == VScale(s.y, u.t1)
  {
    hide Dot, Apply, VScale, Cross, Times, Scaled, Sigma, m.Exact;
    var s := Sigma(m, e);
    NearSigma(m, h, e, c);
    ScaledUnit(h, e.t0.v, s.x);
    ScaledUnit(h, e.t1.v, s.y);
    ScaledDot(h, e.t0.v, e.t1.v, s.x, s.y, c, t, s.y);
  }

  lemma CompletedGram(u: Triple3<Vec>, t: real)
    requires NearCompleted(u, t) && 0.0 < t <= 0.1
    ensures MaxRowSum(Residual(Columns(u))) <= 2.0 * t && MaxRowSum(MScale(-1.0, Residual(Columns(u)))) <= 2.0 * t
  {
    hide Dot, MaxRowSum, Cross;
    TransposeTwice(Mat(u.t0, u.t1, u.t2));
    ProductEntries(Columns(u), Columns(u));
    DotComm(u.t0, u.t1); DotComm(u.t0, u.t2); DotComm(u.t1, u.t2);
    Triple(u.t0, u.t0, u.t1);
    UnitLagrange(u.t0, u.t1);
    hide Mul;
    var a := Dot(u.t0, u.t1);
    var b := a * a;
    SmallSquareOf(a, t);
    TimesUp(t, t, 1.0);
    TimesOne(t);
    var r := Residual(Columns(u));
    assert r == Mat(Vec(0.0, -a, 0.0), Vec(-a, 0.0, 0.0), Vec(0.0, 0.0, b));
    MaxOfThree(r, 2.0 * t);
    assert MScale(-1.0, r) == Mat(Vec(0.0, a, 0.0), Vec(a, 0.0, 0.0), Vec(0.0, 0.0, -b));
    MaxOfThree(MScale(-1.0, r), 2.0 * t);
  }

  /** A vector of length at most 1e-12 has inner products of at most 1e-12 with vectors of length at most 1. */
  lemma TinyDot(w: Vec, p: Vec, z: real)
    requires 0.0 <= z <= RANK_EPS && Times(z, z) == Dot(w, w) && Dot(p, p) <= 1.0
    ensures -RANK_EPS <= Dot(w, p) <= RANK_EPS
  {
    hide Dot, Times;
    DotBound(w, p, z);
  }

  lemma FlatScore(h: Mat, q: Mat, u: Triple3<Vec>, v: Triple3<Vec>, s: Vec, t: real)
    requires Rotation(q) && Orthonormal(v) && NearCompleted(u, t)
    requires s.x >= s.y > 0.0 && 0.0 <= s.z <= RANK_EPS && Times(s.z, s.z) == Norm2(h, v.t2)
    requires Apply(h, v.t0) == VScale(s.x, u.t0) && Apply(h, v.t1) == VScale(s.y, u.t1)
    ensures Inner(q, h) <= s.x + s.y + RANK_EPS
  {
    hide Apply, VScale, Inner, Dot, Times, Rotation, Columns, Det, Cross;
    var w := Apply(h, v.t2);
    var p := Triple3(Apply(q, v.t0), Apply(q, v.t1), Apply(q, v.t2));
    OneScale(w);
    ScoreOf(h, q, Triple3(u.t0, u.t1, w), v, s.x, s.y, 1.0);
    ImageFrame(q, v);
    UnitBound(u.t0, p.t0); UnitBound(u.t1, p.t1);
    TimesUp(s.x, Dot(u.t0, p.t0), 1.0);
    TimesUp(s.y, Dot(u.t1, p.t1), 1.0);
    TimesOne(s.x); TimesOne(s.y); TimesOne(Dot(w, p.t2));
    TinyDot(w, p.t2, s.z);
  }

  lemma FlatAnswerScore(h: Mat, u: Triple3<Vec>, v: Triple3<Vec>, s: Vec, t: real)
    requires Orthonormal(v) && NearCompleted(u, t)
    requires 0.0 <= s.z <= RANK_EPS && Times(s.z, s.z) == Norm2(h, v.t2)
    requires Apply(h, v.t0) == VScale(s.x, u.t0) && Apply(h, v.t1) == VScale(s.y, u.t1)
    ensures Inner(Assemble(Columns(u), Columns(v)), h) >= s.x + s.y - RANK_EPS
  {
    hide Apply, VScale, Inner, Dot, Times, Columns, Det, Assemble, Cross;
    var w := Apply(h, v.t2);
    var r := Assemble(Columns(u), Columns(v));
    OneScale(w);
    ScoreOf(h, r, Triple3(u.t0, u.t1, w), v, s.x, s.y, 1.0);
    AssembledImages(u, v);
    var k := if Det(Columns(u)) * Det(Columns(v)) < 0.0 then -1.0 else 1.0;
    ThirdLength(u, t, k);
    TimesOne(s.x); TimesOne(s.y); TimesOne(Dot(w, VScale(k, u.t2)));
    TinyDot(w, VScale(k, u.t2), s.z);
  }

  lemma ThirdLength(u: Triple3<Vec>, t: real, k: real)
    requires NearCompleted(u, t) && (k == 1.0 || k == -1.0)
    ensures Dot(VScale(k, u.t2), VScale(k, u.t2)) <= 1.0
  {
    hide Dot, VScale, Cross;
    UnitLagrange(u.t0, u.t1);
    SquareRaw(Dot(u.t0, u.t1));
    DotScale(VScale(k, u.t2), k, u.t2);
    DotScale(u.t2, k, u.t2);
  }

  /** The same for a covariance of rank two, where the third left vector is the cross product of the others: nearly
      orthogonal, and no rotation scores more than 2e-12 above the answer. */
  lemma KabschFlatBest(m: Libm, h: Mat, t: real)
    requires m.Exact() && SettledFlat(m, h, t)
    ensures forall x :: (1.0 - 2.0 * t) * Dot(x, x) <= Norm2(KabschFit(m, h), x) <= (1.0 + 2.0 * t) * Dot(x, x)
    ensures forall q :: Rotation(q) ==> Inner(q, h) <= Inner(KabschFit(m, h), h) + 2.0 * RANK_EPS
  {
    hide NearFrame, Descending, Sigma, Jacobi9, SortedEigen, m.Exact, OffAtMost, Rotation, Inner, Dot, Norm2, Times,
         LeftVectors, Assemble, Columns, Apply, VScale, NearCompleted, Gram, Residual, MaxRowSum, MScale;
    var e := SortedEigen(m, h);
    var c := Times(t, Times(MiddleSigma(m, h), MiddleSigma(m, h)));
    JacobiNearFrame(m, h, c);
    TimesSquare(MiddleSigma(m, h));
    TimesNonNegative(t, Times(MiddleSigma(m, h), MiddleSigma(m, h)));
    FlatLeft(m, h, e, c, t);
    RightOrthonormal(h, e, c);
    var s, v := Sigma(m, e), RightVectors(e);
    var u := LeftVectors(h, v, s);
    OrthonormalColumns(v);
    CompletedGram(u, t);
    FlatAnswerScore(h, u, v, s, t);
    forall x
      ensures (1.0 - 2.0 * t) * Dot(x, x) <= Norm2(KabschFit(m, h), x) <= (1.0 + 2.0 * t) * Dot(x, x)
    {
      AssembledNorm(Columns(u), Columns(v), 2.0 * t, x);
    }
    forall q | Rotation(q)
      ensures Inner(q, h) <= Inner(KabschFit(m, h), h) + 2.0 * RANK_EPS
    {
      FlatScore(h, q, u, v, s, t);
    }
  }

  /** And with fewer than two singular values above 1e-12 the answer is singular, whatever the Jacobi stage left. */
  lemma KabschDeficient(m: Libm, h: Mat)
    requires m.Exact() && MiddleSigma(m, h) <= 0.000000000001
    ensures Det(KabschFit(m, h)) == 0.0
  {
    hide NearFrame, Descending, Sigma, Jacobi9, SortedEigen, m.Exact, OffAtMost, KabschFrom, Det, Gram;
    var e := SortedEigen(m, h);
    var c := OffBound(Jacobi9(m, Gram(h)).a);
    JacobiNearFrame(m, h, c);
    NearSigma(m, h, e, c);
    DeficientDet(m, h, e);
  }

  lemma OffBound(a: Mat) returns (c: real)
    ensures OffAtMost(a, c)
  {
    c := Abs(a.r0.y) + Abs(a.r0.z) + Abs(a.r1.z);
  }
}
