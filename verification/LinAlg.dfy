/**
 Exact 3x3 linear algebra over `real`: the setting in which the rotation solver of
 src/gen/sinew_align.c is modelled. Matrices are row-major, as in the source.
 */
module LinAlg {

  datatype Vec = Vec(x: real, y: real, z: real)

  datatype Mat = Mat(r0: Vec, r1: Vec, r2: Vec)

  const ZERO := Vec(0.0, 0.0, 0.0)
  const E0 := Vec(1.0, 0.0, 0.0)
  const E1 := Vec(0.0, 1.0, 0.0)
  const E2 := Vec(0.0, 0.0, 1.0)
  const ID := Mat(E0, E1, E2)

  /** The product of two reals, named so that a proof about sums of products can hide it. */
  function Times(a: real, b: real): real {
    a * b
  }

  // ----- vectors

  function Dot(a: Vec, b: Vec): real {
    Times(a.x, b.x) + Times(a.y, b.y) + Times(a.z, b.z)
  }

  function Cross(a: Vec, b: Vec): Vec {
    Vec(Times(a.y, b.z) - Times(a.z, b.y), Times(a.z, b.x) - Times(a.x, b.z), Times(a.x, b.y) - Times(a.y, b.x))
  }

  function VAdd(a: Vec, b: Vec): Vec {
    Vec(a.x + b.x, a.y + b.y, a.z + b.z)
  }

  function VSub(a: Vec, b: Vec): Vec {
    Vec(a.x - b.x, a.y - b.y, a.z - b.z)
  }

  function VScale(s: real, a: Vec): Vec {
    Vec(Times(s, a.x), Times(s, a.y), Times(s, a.z))
  }

  // ----- matrices

  function Transpose(m: Mat): Mat {
    Mat(Vec(m.r0.x, m.r1.x, m.r2.x), Vec(m.r0.y, m.r1.y, m.r2.y), Vec(m.r0.z, m.r1.z, m.r2.z))
  }

  function Apply(m: Mat, v: Vec): Vec {
    Vec(Dot(m.r0, v), Dot(m.r1, v), Dot(m.r2, v))
  }

  function Mul(a: Mat, b: Mat): Mat {
    Mat(Apply(Transpose(b), a.r0), Apply(Transpose(b), a.r1), Apply(Transpose(b), a.r2))
  }

  function MAdd(a: Mat, b: Mat): Mat {
    Mat(VAdd(a.r0, b.r0), VAdd(a.r1, b.r1), VAdd(a.r2, b.r2))
  }

  function MSub(a: Mat, b: Mat): Mat {
    Mat(VSub(a.r0, b.r0), VSub(a.r1, b.r1), VSub(a.r2, b.r2))
  }

  function MScale(s: real, a: Mat): Mat {
    Mat(VScale(s, a.r0), VScale(s, a.r1), VScale(s, a.r2))
  }

  /** The outer product a b^T. */
  function Outer(a: Vec, b: Vec): Mat {
    Mat(VScale(a.x, b), VScale(a.y, b), VScale(a.z, b))
  }

  function Det(m: Mat): real {
    Dot(m.r0, Cross(m.r1, m.r2))
  }

  function Trace(m: Mat): real {
    m.r0.x + m.r1.y + m.r2.z
  }

  /** The cofactor matrix: rows are cross products of the other two rows. */
  function Cof(m: Mat): Mat {
    Mat(Cross(m.r1, m.r2), Cross(m.r2, m.r0), Cross(m.r0, m.r1))
  }

  function Gram(m: Mat): Mat {
    Mul(Transpose(m), m)
  }

  function Quad(m: Mat, v: Vec): real {
    Dot(v, Apply(m, v))
  }

  /** The inner product of two matrices as vectors of nine entries, trace(a^T b). */
  function Inner(a: Mat, b: Mat): real {
    Dot(a.r0, b.r0) + Dot(a.r1, b.r1) + Dot(a.r2, b.r2)
  }

  predicate Symmetric(m: Mat) {
    Transpose(m) == m
  }

  predicate Orthogonal(m: Mat) {
    Gram(m) == ID
  }

  predicate Rotation(m: Mat) {
    Orthogonal(m) && Det(m) == 1.0
  }

  // ----- vector identities

  lemma TimesComm(a: real, b: real)
    ensures Times(a, b) == Times(b, a)
  {
  }

  lemma TimesAdd(a: real, b: real, c: real)
    ensures Times(a, b + c) == Times(a, b) + Times(a, c)
    ensures Times(a, b - c) == Times(a, b) - Times(a, c)
    ensures Times(b + c, a) == Times(b, a) + Times(c, a)
    ensures Times(b - c, a) == Times(b, a) - Times(c, a)
  {
  }

  lemma TimesAssoc(a: real, b: real, c: real)
    ensures Times(a, Times(b, c)) == Times(Times(a, b), c)
  {
  }

  lemma ZeroTimes(x: real)
    ensures Times(0.0, x) == 0.0 && Times(x, 0.0) == 0.0
  {
  }

  lemma ScaledIdentity(t: real)
    ensures MScale(t, ID) == Mat(Vec(t, 0.0, 0.0), Vec(0.0, t, 0.0), Vec(0.0, 0.0, t))
  {
  }

  lemma Reciprocal(x: real)
    requires x > 0.0
    ensures Times(1.0 / x, x) == 1.0 && Times(x, 1.0 / x) == 1.0 && 1.0 / x > 0.0
  {
  }

  lemma DotComm(a: Vec, b: Vec)
    ensures Dot(a, b) == Dot(b, a)
  {
    TimesComm(a.x, b.x);
    TimesComm(a.y, b.y);
    TimesComm(a.z, b.z);
  }

  lemma DotScale(a: Vec, s: real, b: Vec)
    ensures Dot(a, VScale(s, b)) == s * Dot(a, b)
    ensures Dot(VScale(s, a), b) == s * Dot(a, b)
  {
    DotScaleScalar(s, a.x, a.y, a.z, b.x, b.y, b.z);
  }

  lemma DotScaleScalar(s: real, a: real, b: real, c: real, d: real, e: real, f: real)
    ensures a * (s * d) + b * (s * e) + c * (s * f) == s * (a * d + b * e + c * f)
    ensures (s * a) * d + (s * b) * e + (s * c) * f == s * (a * d + b * e + c * f)
  {
  }

  lemma DotAdd(a: Vec, b: Vec, c: Vec)
    ensures Dot(a, VAdd(b, c)) == Dot(a, b) + Dot(a, c)
    ensures Dot(VAdd(b, c), a) == Dot(b, a) + Dot(c, a)
  {
    hide Times;
    TimesAdd(a.x, b.x, c.x);
    TimesAdd(a.y, b.y, c.y);
    TimesAdd(a.z, b.z, c.z);
  }

  lemma DotSub(a: Vec, b: Vec, c: Vec)
    ensures Dot(a, VSub(b, c)) == Dot(a, b) - Dot(a, c)
    ensures Dot(VSub(b, c), a) == Dot(b, a) - Dot(c, a)
  {
    hide Times;
    TimesAdd(a.x, b.x, c.x);
    TimesAdd(a.y, b.y, c.y);
    TimesAdd(a.z, b.z, c.z);
  }

  lemma DotSelf(a: Vec)
    ensures Dot(a, a) >= 0.0
    ensures a != ZERO ==> Dot(a, a) > 0.0
  {
    hide Times;
    TimesSquare(a.x);
    TimesSquare(a.y);
    TimesSquare(a.z);
  }

  lemma TimesSquare(a: real)
    ensures Times(a, a) >= 0.0
    ensures a != 0.0 ==> Times(a, a) > 0.0
  {
    if a > 0.0 {
      TimesPositive(a, a);
    } else if a < 0.0 {
      TimesPositive(-a, -a);
      assert Times(-a, -a) == Times(a, a);
    }
  }

  lemma TimesPositive(a: real, b: real)
    requires a > 0.0 && b > 0.0
    ensures Times(a, b) > 0.0
  {
  }

  // ----- matrix action

  lemma Adjoint(m: Mat, u: Vec, v: Vec)
    ensures Dot(Apply(Transpose(m), u), v) == Dot(u, Apply(m, v))
  {
    hide Times;
    var t, s := Apply(Transpose(m), u), Apply(m, v);
    AdjointScalar(u.x, u.y, u.z, v.x, v.y, v.z,
                  m.r0.x, m.r1.x, m.r2.x, m.r0.y, m.r1.y, m.r2.y, m.r0.z, m.r1.z, m.r2.z,
                  t.x, t.y, t.z, s.x, s.y, s.z);
  }

  lemma AdjointScalar(ux: real, uy: real, uz: real, p: real, q: real, r: real,
                      a: real, b: real, c: real, d: real, e: real, f: real, g: real, h: real, i: real,
                      t1: real, t2: real, t3: real, s1: real, s2: real, s3: real)
    requires t1 == Times(a, ux) + Times(b, uy) + Times(c, uz)
    requires t2 == Times(d, ux) + Times(e, uy) + Times(f, uz)
    requires t3 == Times(g, ux) + Times(h, uy) + Times(i, uz)
    requires s1 == Times(a, p) + Times(d, q) + Times(g, r)
    requires s2 == Times(b, p) + Times(e, q) + Times(h, r)
    requires s3 == Times(c, p) + Times(f, q) + Times(i, r)
    ensures Times(t1, p) + Times(t2, q) + Times(t3, r) == Times(ux, s1) + Times(uy, s2) + Times(uz, s3)
  {
  }

  lemma ApplyMul(a: Mat, b: Mat, v: Vec)
    ensures Apply(Mul(a, b), v) == Apply(a, Apply(b, v))
  {
    hide Dot;
    Adjoint(b, a.r0, v);
    Adjoint(b, a.r1, v);
    Adjoint(b, a.r2, v);
  }

  lemma ApplyAdd(m: Mat, u: Vec, v: Vec)
    ensures Apply(m, VAdd(u, v)) == VAdd(Apply(m, u), Apply(m, v))
  {
    hide Dot;
    DotAdd(m.r0, u, v);
    DotAdd(m.r1, u, v);
    DotAdd(m.r2, u, v);
  }

  lemma ApplySub(m: Mat, u: Vec, v: Vec)
    ensures Apply(m, VSub(u, v)) == VSub(Apply(m, u), Apply(m, v))
  {
    hide Dot;
    DotSub(m.r0, u, v);
    DotSub(m.r1, u, v);
    DotSub(m.r2, u, v);
  }

  lemma ApplyScale(m: Mat, s: real, v: Vec)
    ensures Apply(m, VScale(s, v)) == VScale(s, Apply(m, v))
  {
    hide Dot;
    DotScale(m.r0, s, v);
    DotScale(m.r1, s, v);
    DotScale(m.r2, s, v);
  }

  lemma ScaleApply(s: real, m: Mat, v: Vec)
    ensures Apply(MScale(s, m), v) == VScale(s, Apply(m, v))
  {
    hide Dot;
    DotScale(m.r0, s, v);
    DotScale(m.r1, s, v);
    DotScale(m.r2, s, v);
  }

  lemma AddApply(a: Mat, b: Mat, v: Vec)
    ensures Apply(MAdd(a, b), v) == VAdd(Apply(a, v), Apply(b, v))
  {
    hide Dot;
    DotAdd(v, a.r0, b.r0);
    DotAdd(v, a.r1, b.r1);
    DotAdd(v, a.r2, b.r2);
  }

  lemma SubApply(a: Mat, b: Mat, v: Vec)
    ensures Apply(MSub(a, b), v) == VSub(Apply(a, v), Apply(b, v))
  {
    hide Dot;
    DotSub(v, a.r0, b.r0);
    DotSub(v, a.r1, b.r1);
    DotSub(v, a.r2, b.r2);
  }

  lemma IdApply(v: Vec)
    ensures Apply(ID, v) == v
  {
  }

  /** Two matrices that act alike on the three basis vectors are equal. */
  lemma MatExt(a: Mat, b: Mat)
    requires Apply(a, E0) == Apply(b, E0) && Apply(a, E1) == Apply(b, E1) && Apply(a, E2) == Apply(b, E2)
    ensures a == b
  {
  }

  lemma TransposeMul(a: Mat, b: Mat)
    ensures Transpose(Mul(a, b)) == Mul(Transpose(b), Transpose(a))
  {
    hide Dot;
    var c := Transpose(b);
    DotComm(c.r0, a.r0); DotComm(c.r0, a.r1); DotComm(c.r0, a.r2);
    DotComm(c.r1, a.r0); DotComm(c.r1, a.r1); DotComm(c.r1, a.r2);
    DotComm(c.r2, a.r0); DotComm(c.r2, a.r1); DotComm(c.r2, a.r2);
  }

  lemma MulAssoc(a: Mat, b: Mat, c: Mat)
    ensures Mul(Mul(a, b), c) == Mul(a, Mul(b, c))
  {
    hide Dot, Apply, Transpose;
    TransposeMul(b, c);
    ApplyMul(Transpose(c), Transpose(b), a.r0);
    ApplyMul(Transpose(c), Transpose(b), a.r1);
    ApplyMul(Transpose(c), Transpose(b), a.r2);
  }

  lemma MulId(a: Mat)
    ensures Mul(a, ID) == a && Mul(ID, a) == a
  {
  }

  lemma GramSymmetric(m: Mat)
    ensures Symmetric(Gram(m))
  {
    TransposeMul(Transpose(m), m);
  }

  /** <Mu, Mv> = <u, Gv> for the Gram matrix G of M. */
  lemma GramDot(m: Mat, u: Vec, v: Vec)
    ensures Dot(Apply(m, u), Apply(m, v)) == Dot(u, Apply(Gram(m), v))
  {
    hide Dot, Apply;
    ApplyMul(Transpose(m), m, v);
    Adjoint(Transpose(m), u, Apply(m, v));
  }

  lemma SymmetricDot(m: Mat, u: Vec, v: Vec)
    requires Symmetric(m)
    ensures Dot(Apply(m, u), v) == Dot(u, Apply(m, v))
  {
    Adjoint(m, u, v);
  }

  // ----- determinants

  /** The expansion of the determinant in the order src/gen/sinew_align.c computes it. */
  lemma DetOf(a: real, b: real, c: real, d: real, e: real, f: real, g: real, h: real, i: real)
    ensures Det(Mat(Vec(a, b, c), Vec(d, e, f), Vec(g, h, i)))
         == a * (e * i - f * h) - b * (d * i - f * g) + c * (d * h - e * g)
  {
    assert b * (f * g - d * i) == -(b * (d * i - f * g));
  }

  /** a . (b x c) is unchanged by rotating its arguments, and zero when two agree. */
  lemma Triple(a: Vec, b: Vec, c: Vec)
    ensures Dot(a, Cross(b, c)) == Dot(b, Cross(c, a))
    ensures Dot(b, Cross(b, c)) == 0.0
    ensures Dot(c, Cross(b, c)) == 0.0
  {
  }

  /** a x (u x v) = u (a.v) - v (a.u) */
  lemma BacCab(a: Vec, u: Vec, v: Vec)
    ensures Cross(a, Cross(u, v)) == VSub(VScale(Dot(a, v), u), VScale(Dot(a, u), v))
  {
    var w := Cross(u, v);
    var p, q := Dot(a, v), Dot(a, u);
    hide Times;
    BacCabScalar(a.x, a.y, a.z, u.x, u.y, u.z, v.x, v.y, v.z, w.y, w.z, p, q);
    BacCabScalar(a.y, a.z, a.x, u.y, u.z, u.x, v.y, v.z, v.x, w.z, w.x, p, q);
    BacCabScalar(a.z, a.x, a.y, u.z, u.x, u.y, v.z, v.x, v.y, w.x, w.y, p, q);
  }

  lemma BacCabScalar(ax: real, ay: real, az: real, ux: real, uy: real, uz: real, vx: real, vy: real, vz: real,
                     wy: real, wz: real, p: real, q: real)
    requires wy == Times(uz, vx) - Times(ux, vz) && wz == Times(ux, vy) - Times(uy, vx)
    requires p == Times(ax, vx) + Times(ay, vy) + Times(az, vz)
    requires q == Times(ax, ux) + Times(ay, uy) + Times(az, uz)
    ensures Times(ay, wz) - Times(az, wy) == Times(p, ux) - Times(q, vx)
  {
  }

  /** (a x b) . (u x v) = (a.u)(b.v) - (a.v)(b.u) */
  lemma Lagrange(a: Vec, b: Vec, u: Vec, v: Vec)
    ensures Dot(Cross(a, b), Cross(u, v)) == Dot(a, u) * Dot(b, v) - Dot(a, v) * Dot(b, u)
  {
    hide Dot, Cross, VScale, VSub;
    var w := Cross(u, v);
    Triple(a, b, w);
    Triple(b, w, a);
    DotComm(w, Cross(a, b));
    BacCab(b, u, v);
    DotSub(a, VScale(Dot(b, v), u), VScale(Dot(b, u), v));
    DotScale(a, Dot(b, v), u);
    DotScale(a, Dot(b, u), v);
  }

  /** (Mu) x (Mv) = cof(M) (u x v). */
  lemma CrossApply(m: Mat, u: Vec, v: Vec)
    ensures Cross(Apply(m, u), Apply(m, v)) == Apply(Cof(m), Cross(u, v))
  {
    hide Dot;
    Lagrange(m.r1, m.r2, u, v);
    Lagrange(m.r2, m.r0, u, v);
    Lagrange(m.r0, m.r1, u, v);
  }

  lemma DetTranspose(m: Mat)
    ensures Det(Transpose(m)) == Det(m)
  {
    hide Det;
    var Mat(Vec(a, b, c), Vec(d, e, f), Vec(g, h, i)) := m;
    DetOf(a, b, c, d, e, f, g, h, i);
    DetOf(a, d, g, b, e, h, c, f, i);
    DetTransposeScalar(a, b, c, d, e, f, g, h, i);
  }

  lemma DetTransposeScalar(a: real, b: real, c: real, d: real, e: real, f: real, g: real, h: real, i: real)
    ensures a * (e * i - f * h) - b * (d * i - f * g) + c * (d * h - e * g)
         == a * (e * i - h * f) - d * (b * i - h * c) + g * (b * f - e * c)
  {
  }

  /** Cramer: M cof(M)^T = det(M) I. */
  lemma Cramer(m: Mat)
    ensures Mul(m, Transpose(Cof(m))) == MScale(Det(m), ID)
  {
    hide Dot, Cross;
    Triple(m.r0, m.r1, m.r2);
    Triple(m.r1, m.r2, m.r0);
    Triple(m.r2, m.r0, m.r1);
    DotComm(m.r0, Cross(m.r1, m.r2)); DotComm(m.r1, Cross(m.r1, m.r2)); DotComm(m.r2, Cross(m.r1, m.r2));
    DotComm(m.r0, Cross(m.r2, m.r0)); DotComm(m.r1, Cross(m.r2, m.r0)); DotComm(m.r2, Cross(m.r2, m.r0));
    DotComm(m.r0, Cross(m.r0, m.r1)); DotComm(m.r1, Cross(m.r0, m.r1)); DotComm(m.r2, Cross(m.r0, m.r1));
  }

  lemma DetMul(a: Mat, b: Mat)
    ensures Det(Mul(a, b)) == Det(a) * Det(b)
  {
    hide Dot, Cross, Transpose;
    var t := Transpose(b);
    var c := Cross(a.r1, a.r2);
    CrossApply(t, a.r1, a.r2);
    assert Det(Mul(a, b)) == Dot(Apply(t, a.r0), Apply(Cof(t), c));
    CofDot(t, a.r0, c);
    DetTranspose(b);
  }

  /** <Mu, cof(M) w> = det(M) <u, w> */
  lemma CofDot(m: Mat, u: Vec, w: Vec)
    ensures Dot(Apply(m, u), Apply(Cof(m), w)) == Det(m) * Dot(u, w)
  {
    var c := Cof(m);
    CofTranspose(m);
    hide Dot, Cof, Transpose, Apply;
    Adjoint(Transpose(m), u, Apply(c, w));
    TransposeTwice(m);
    ApplyMul(Transpose(m), c, w);
    Cramer(Transpose(m));
    TransposeTwice(c);
    DetTranspose(m);
    ScaleApply(Det(m), ID, w);
    IdApply(w);
    DotScale(u, Det(m), w);
  }

  lemma CofTranspose(m: Mat)
    ensures Cof(Transpose(m)) == Transpose(Cof(m))
  {
    hide Times;
    CrossComm(m.r0, m.r1);
    CrossComm(m.r1, m.r2);
    CrossComm(m.r2, m.r0);
  }

  lemma CrossComm(a: Vec, b: Vec)
    ensures Times(a.x, b.y) == Times(b.y, a.x) && Times(a.x, b.z) == Times(b.z, a.x)
    ensures Times(a.y, b.x) == Times(b.x, a.y) && Times(a.y, b.z) == Times(b.z, a.y)
    ensures Times(a.z, b.x) == Times(b.x, a.z) && Times(a.z, b.y) == Times(b.y, a.z)
  {
  }

  lemma TransposeTwice(m: Mat)
    ensures Transpose(Transpose(m)) == m
  {
  }

  // ----- orthogonal matrices

  lemma DetId()
    ensures Det(ID) == 1.0
  {
  }

  lemma TransposeOfId()
    ensures Transpose(ID) == ID
  {
  }

  lemma IdIsRotation()
    ensures Rotation(ID) && Transpose(ID) == ID
  {
    hide Mul, Det, Transpose;
    TransposeOfId();
    DetId();
    MulId(ID);
  }

  lemma OrthogonalDet(r: Mat)
    requires Orthogonal(r)
    ensures Det(r) == 1.0 || Det(r) == -1.0
  {
    hide Det, Mul, Transpose;
    DetId();
    DetMul(Transpose(r), r);
    DetTranspose(r);
    PlusMinusOne(Det(r));
  }

  lemma OrthogonalCofTranspose(r: Mat)
    requires Orthogonal(r)
    ensures Transpose(Cof(r)) == MScale(Det(r), Transpose(r))
  {
    hide Det, Cof, Mul, Transpose, MScale;
    calc {
      Transpose(Cof(r));
      { MulId(Transpose(Cof(r))); }
      Mul(Gram(r), Transpose(Cof(r)));
      { MulAssoc(Transpose(r), r, Transpose(Cof(r))); Cramer(r); }
      Mul(Transpose(r), MScale(Det(r), ID));
      { MulScale(Transpose(r), Det(r), ID); MulId(Transpose(r)); }
      MScale(Det(r), Transpose(r));
    }
  }

  /** The inverse of an orthogonal matrix is its transpose on both sides, and cof(R) = det(R) R. */
  lemma OrthogonalFacts(r: Mat)
    requires Orthogonal(r)
    ensures Det(r) == 1.0 || Det(r) == -1.0
    ensures Cof(r) == MScale(Det(r), r)
    ensures Mul(r, Transpose(r)) == ID
    ensures Orthogonal(Transpose(r))
  {
    hide Det, Cof, Mul, Transpose, MScale;
    var d := Det(r);
    OrthogonalDet(r);
    OrthogonalCofTranspose(r);
    TransposeTwice(Cof(r));
    TransposeScale(d, Transpose(r));
    TransposeTwice(r);
    Cramer(r);
    MulScale(r, d, Transpose(r));
    ScaleCancel(d, Mul(r, Transpose(r)));
  }

  lemma PlusMinusOne(d: real)
    requires d * d == 1.0
    ensures d == 1.0 || d == -1.0
  {
    assert (d - 1.0) * (d + 1.0) == 0.0;
  }

  lemma ScaleCancel(d: real, m: Mat)
    requires d == 1.0 || d == -1.0
    requires MScale(d, m) == MScale(d, ID)
    ensures m == ID
  {
  }

  lemma TransposeScale(s: real, m: Mat)
    ensures Transpose(MScale(s, m)) == MScale(s, Transpose(m))
  {
    hide Times;
  }

  lemma MulScale(a: Mat, s: real, b: Mat)
    ensures Mul(a, MScale(s, b)) == MScale(s, Mul(a, b)) == Mul(MScale(s, a), b)
  {
    hide Dot, Apply;
    TransposeScale(s, b);
    ScaleApply(s, Transpose(b), a.r0); ApplyScale(Transpose(b), s, a.r0);
    ScaleApply(s, Transpose(b), a.r1); ApplyScale(Transpose(b), s, a.r1);
    ScaleApply(s, Transpose(b), a.r2); ApplyScale(Transpose(b), s, a.r2);
  }

  lemma DetScale(s: real, m: Mat)
    ensures Det(MScale(s, m)) == s * s * s * Det(m)
  {
    hide Dot, Cross, VScale;
    var c := Cross(m.r1, m.r2);
    CrossScale(s, m.r1, m.r2);
    DotScale(VScale(s, m.r0), s * s, c);
    DotScale(m.r0, s, c);
    assert (s * s) * (s * Dot(m.r0, c)) == s * s * s * Dot(m.r0, c);
  }

  lemma CrossScale(s: real, u: Vec, v: Vec)
    ensures Cross(VScale(s, u), VScale(s, v)) == VScale(s * s, Cross(u, v))
  {
    hide Times;
    CrossScaleScalar(s, u.y, v.z, u.z, v.y);
    CrossScaleScalar(s, u.z, v.x, u.x, v.z);
    CrossScaleScalar(s, u.x, v.y, u.y, v.x);
  }

  lemma CrossScaleScalar(s: real, a: real, b: real, c: real, d: real)
    ensures Times(Times(s, a), Times(s, b)) - Times(Times(s, c), Times(s, d)) == Times(s * s, Times(a, b) - Times(c, d))
  {
    assert (s * a) * (s * b) - (s * c) * (s * d) == (s * s) * (a * b - c * d);
  }

  /** A rotation preserves cross products. */
  lemma RotationCross(r: Mat, u: Vec, v: Vec)
    requires Rotation(r)
    ensures Cross(Apply(r, u), Apply(r, v)) == Apply(r, Cross(u, v))
  {
    CrossApply(r, u, v);
    OrthogonalFacts(r);
    assert MScale(1.0, r) == r;
  }

  lemma OrthogonalDot(r: Mat, u: Vec, v: Vec)
    requires Orthogonal(r)
    ensures Dot(Apply(r, u), Apply(r, v)) == Dot(u, v)
  {
    hide Dot, Apply;
    GramDot(r, u, v);
    IdApply(v);
  }

  lemma OrthogonalMul(a: Mat, b: Mat)
    requires Orthogonal(a) && Orthogonal(b)
    ensures Orthogonal(Mul(a, b)) && Det(Mul(a, b)) == Det(a) * Det(b)
  {
    hide Transpose, Mul, Det;
    DetMul(a, b);
    TransposeMul(a, b);
    calc {
      Gram(Mul(a, b));
      Mul(Mul(Transpose(b), Transpose(a)), Mul(a, b));
      { MulAssoc(Transpose(b), Transpose(a), Mul(a, b)); MulAssoc(Transpose(a), a, b); MulId(b); }
      Gram(b);
    }
  }

  // ----- the inner product of matrices

  lemma InnerTrace(a: Mat, b: Mat)
    ensures Inner(a, b) == Trace(Mul(Transpose(a), b))
  {
  }

  lemma InnerComm(a: Mat, b: Mat)
    ensures Inner(a, b) == Inner(b, a)
  {
  }

  /** <a m, b m'> moves a factor across: <a, b c^T> = <a c, b>. */
  lemma InnerMove(a: Mat, b: Mat, c: Mat)
    ensures Inner(Mul(a, c), b) == Inner(a, Mul(b, Transpose(c)))
  {
    hide Dot, Apply;
    TransposeTwice(c);
    Adjoint(c, a.r0, b.r0);
    Adjoint(c, a.r1, b.r1);
    Adjoint(c, a.r2, b.r2);
  }
}
