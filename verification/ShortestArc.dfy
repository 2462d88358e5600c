/**
 The shortest-arc rotation for one vector pair, `sinew_rodrigues` (src/gen/sinew_align.c:66-101).
 */
module ShortestArc {
  import opened LinAlg
  import opened Forms
  import opened Commuting
  import opened Rotations
  import opened NewtonSchulz
  import opened Convergence
  import opened FastPath
  import opened Optimality
  import opened MathLibrary

  const NEAR_ANTIPARALLEL := -1.0 + 0.000001

  function Norm(m: Libm, a: Vec): real {
    m.sqrt(Dot(a, a))
  }

  function Unit(m: Libm, a: Vec): Vec {
    VScale(1.0 / Max(Norm(m, a), EPS), a)
  }

  function Clamp(d: real): real {
    var e := if d < -1.0 then -1.0 else d;
    if e > 1.0 then 1.0 else e
  }

  function Skew(v: Vec): Mat {
    Mat(Vec(0.0, -v.z, v.y), Vec(v.z, 0.0, -v.x), Vec(-v.y, v.x, 0.0))
  }

  /** I + K + f K^2 */
  function Turned(v: Vec, f: real): Mat {
    MAdd(MAdd(ID, Skew(v)), MScale(f, Mul(Skew(v), Skew(v))))
  }

  function HalfTurnAxis(bu: Vec): Vec {
    Cross(bu, if Abs(bu.x) > 0.6 then E1 else E0)
  }

  /** 2 x x^T - I */
  function HalfTurn(x: Vec): Mat {
    MSub(MScale(2.0, Outer(x, x)), ID)
  }

  /** d, and whether the pair counts as antiparallel. */
  function Cosine(m: Libm, a: Vec, b: Vec): real {
    Clamp(Dot(Unit(m, a), Unit(m, b)))
  }

  predicate Antiparallel(m: Libm, a: Vec, b: Vec) {
    Cosine(m, a, b) < NEAR_ANTIPARALLEL
  }

  function Rodrigues(m: Libm, a: Vec, b: Vec): Mat
    requires m.Exact()
  {
    var au, bu := Unit(m, a), Unit(m, b);
    if Antiparallel(m, a, b) then
      var x0 := HalfTurnAxis(bu);
      AxisIsLong(m, a, b);
      HalfTurn(VScale(1.0 / Norm(m, x0), x0))
    else
      Turned(Cross(bu, au), 1.0 / (1.0 + Cosine(m, a, b)))
  }

  // ----- normalisation

  /** |a / max(|a|, EPS)|^2 is at most 1, and exactly 1 when |a| >= EPS. */
  lemma UnitNorm(m: Libm, a: Vec)
    requires m.Exact()
    ensures 0.0 <= Dot(Unit(m, a), Unit(m, a)) <= 1.0
    ensures Dot(Unit(m, a), Unit(m, a)) == 1.0 <==> Norm(m, a) >= EPS
  {
    hide Dot, VScale, m.Exact;
    DotSelf(a);
    m.SqrtSquare(Dot(a, a));
    var n := Norm(m, a);
    var s := 1.0 / Max(n, EPS);
    DotScale(VScale(s, a), s, a);
    DotScale(a, s, a);
    UnitNormScalar(n, Max(n, EPS), s, Dot(a, a));
  }

  lemma UnitNormScalar(n: real, k: real, s: real, q: real)
    requires n >= 0.0 && k == Max(n, EPS) && s == 1.0 / k && q == Times(n, n)
    ensures 0.0 <= s * (s * q) <= 1.0
    ensures s * (s * q) == 1.0 <==> n >= EPS
  {
    var t := Times(s, n);
    assert s * (s * q) == Times(t, t);
    assert s * k == 1.0;
    assert t == 1.0 - Times(s, k - n);
    hide Times;
    TimesSquare(t);
    TimesNonNegative(s, n);
    TimesNonNegative(s, k - n);
    TimesMonotone(t, t, t, 1.0);
    TimesOne(t);
    if n < EPS {
      TimesPositive(s, k - n);
    } else {
      ZeroRight(s, k - n);
    }
  }

  lemma ZeroRight(s: real, x: real)
    requires x == 0.0
    ensures Times(s, x) == 0.0
  {
  }

  /** The clamp never acts: the inner product of the two scaled vectors is already in [-1, 1]. */
  lemma ClampIsIdle(m: Libm, a: Vec, b: Vec)
    requires m.Exact()
    ensures Cosine(m, a, b) == Dot(Unit(m, a), Unit(m, b))
  {
    hide Dot, Unit, m.Exact, Times;
    UnitNorm(m, a);
    UnitNorm(m, b);
    UnitSquare();
    DotBound(Unit(m, a), Unit(m, b), 1.0);
  }

  // ----- the general branch

  lemma SkewApply(v: Vec, x: Vec)
    ensures Apply(Skew(v), x) == Cross(v, x)
  {
    assert Times(0.0, x.x) == 0.0 && Times(0.0, x.y) == 0.0 && Times(0.0, x.z) == 0.0;
    assert Times(-v.z, x.y) == -Times(v.z, x.y) && Times(-v.x, x.z) == -Times(v.x, x.z)
      && Times(-v.y, x.x) == -Times(v.y, x.x);
    hide Times;
  }

  lemma TurnedApply(v: Vec, f: real, x: Vec)
    ensures Apply(Turned(v, f), x) == VAdd(VAdd(x, Cross(v, x)), VScale(f, Cross(v, Cross(v, x))))
  {
    hide Dot, Apply, Skew, Mul, MAdd, MScale, Cross, VAdd, VScale;
    var k := Skew(v);
    AddApply(MAdd(ID, k), MScale(f, Mul(k, k)), x);
    AddApply(ID, k, x);
    IdApply(x);
    ScaleApply(f, Mul(k, k), x);
    ApplyMul(k, k, x);
    SkewApply(v, x);
    SkewApply(v, Cross(v, x));
  }

  /** How much |x|^2 changes per unit of |v x x|^2. */
  function Stretch(v: Vec, f: real): real {
    1.0 - 2.0 * f + f * f * Dot(v, v)
  }

  lemma CrossNorm(v: Vec, y: Vec)
    requires Dot(v, y) == 0.0
    ensures Dot(Cross(v, y), Cross(v, y)) == Times(Dot(v, v), Dot(y, y))
  {
    hide Dot, Cross;
    Lagrange(v, y, v, y);
    DotComm(v, y);
  }

  /** For y = v x x and z = v x y: <x, y> = <y, z> = 0, <x, z> = -|y|^2 and |z|^2 = |v|^2 |y|^2. */
  lemma TurnedProducts(v: Vec, x: Vec)
    ensures var y := Cross(v, x);
            var z := Cross(v, y);
            Dot(x, y) == 0.0 && Dot(y, z) == 0.0 && Dot(x, z) == -Dot(y, y) && Dot(z, z) == Times(Dot(v, v), Dot(y, y))
  {
    hide Dot, Cross, Times;
    var y := Cross(v, x);
    CrossSelf(v, x);
    CrossSelf(v, y);
    CrossNorm(v, y);
    Triple(y, x, v);
    AntiCross(x, v);
    DotNegate(y, y);
    Triple(x, v, y);
    DotComm(x, Cross(v, y));
  }

  /** |x + y + f z|^2 for y = v x x, z = v x y: only the squares and <x, z> survive. */
  lemma TurnedNorm(v: Vec, f: real, x: Vec)
    ensures var y := Cross(v, x);
            Norm2(Turned(v, f), x) == Dot(x, x) + Times(Stretch(v, f), Dot(y, y))
  {
    hide Dot, Apply, Turned, Cross, VAdd, VScale, Times, Stretch;
    var y := Cross(v, x);
    var z := Cross(v, y);
    StretchIs(v, f);
    TurnedApply(v, f, x);
    TurnedProducts(v, x);
    var xy := VAdd(x, y);
    NormLine(xy, f, z);
    SumProducts3(x, y, z);
    TurnedScalar(f, Dot(x, x), Dot(y, y), Dot(v, v), Dot(x, z), Dot(z, z), Norm2(Turned(v, f), x), Stretch(v, f));
  }

  lemma SumProducts3(x: Vec, y: Vec, z: Vec)
    ensures var xy := VAdd(x, y);
            Dot(xy, xy) == Dot(x, x) + 2.0 * Dot(x, y) + Dot(y, y) && Dot(xy, z) == Dot(x, z) + Dot(y, z)
  {
    hide Dot, VAdd;
    var xy := VAdd(x, y);
    DotAdd(xy, x, y); DotAdd(x, x, y); DotAdd(y, x, y); DotAdd(z, x, y);
    DotComm(xy, z); DotComm(x, z); DotComm(y, z); DotComm(x, y); DotComm(xy, x); DotComm(xy, y);
  }

  lemma CrossSelf(v: Vec, x: Vec)
    ensures Dot(x, Cross(v, x)) == 0.0 && Dot(v, Cross(v, x)) == 0.0
  {
    Triple(v, v, x);
  }

  lemma AntiCross(x: Vec, v: Vec)
    ensures Cross(x, v) == VScale(-1.0, Cross(v, x))
  {
    TimesComm(x.x, v.y); TimesComm(x.x, v.z); TimesComm(x.y, v.x); TimesComm(x.y, v.z); TimesComm(x.z, v.x);
    TimesComm(x.z, v.y);
  }

  lemma DotNegate(y: Vec, u: Vec)
    ensures Dot(y, VScale(-1.0, u)) == -Dot(y, u)
  {
    hide Dot;
    DotScale(y, -1.0, u);
  }

  lemma TurnedScalar(f: real, xx: real, yy: real, vv: real, xz: real, zz: real, n: real, st: real)
    requires xz == -yy && zz == Times(vv, yy) && st == 1.0 - 2.0 * f + f * f * vv
    requires n == xx + yy + 2.0 * f * xz + f * f * zz
    ensures n == xx + Times(st, yy)
  {
    assert f * f * (vv * yy) == (f * f * vv) * yy;
  }

  lemma TurnedTrace(v: Vec, f: real)
    ensures Trace(Turned(v, f)) == 3.0 - 2.0 * (f * Dot(v, v))
  {
    hide Mul, Dot, VScale;
    SkewSquareTrace(v);
    ScaledTrace(f, Mul(Skew(v), Skew(v)));
  }

  lemma ScaledTrace(f: real, m: Mat)
    ensures Trace(MScale(f, m)) == f * Trace(m)
  {
  }

  lemma SkewSquareTrace(v: Vec)
    ensures Trace(Mul(Skew(v), Skew(v))) == -2.0 * Dot(v, v)
  {
    assert Times(0.0, 0.0) == 0.0;
    assert Times(-v.x, v.x) == -Times(v.x, v.x) && Times(-v.y, v.y) == -Times(v.y, v.y)
      && Times(-v.z, v.z) == -Times(v.z, v.z);
    assert Times(v.x, -v.x) == -Times(v.x, v.x) && Times(v.y, -v.y) == -Times(v.y, v.y)
      && Times(v.z, -v.z) == -Times(v.z, v.z);
    hide Times;
  }

  lemma TurnedIsometry(v: Vec, f: real, x: Vec)
    requires Stretch(v, f) == 0.0
    ensures Norm2(Turned(v, f), x) == Dot(x, x)
  {
    hide Dot, Turned, Norm2, Cross, Stretch, Times;
    TurnedNorm(v, f, x);
    ZeroTimes(Dot(Cross(v, x), Cross(v, x)));
  }

  // ----- isometries

  lemma IsometryIsOrthogonal(r: Mat)
    requires forall x :: Norm2(r, x) == Dot(x, x)
    ensures Orthogonal(r)
  {
    hide Dot, Norm2, Quad, Residual;
    ResidualSymmetric(r);
    forall v
      ensures 0.0 <= Quad(Residual(r), v) <= 0.0 * Dot(v, v)
    {
      ResidualQuad(r, v);
      assert Norm2(r, v) == Dot(v, v);
    }
    FormEntries(Residual(r), 0.0);
    ZeroResidual(r);
  }

  lemma ZeroResidual(r: Mat)
    requires EntriesAtMost(Residual(r), 0.0)
    ensures Gram(r) == ID
  {
    hide Gram;
  }

  /** (1 - 2f + f^2 n)(1 + d)^2 = p - 1 for f = 1/(1+d) and n = p - d^2. */
  lemma StretchFactor(d: real, f: real, p: real, n: real, k: real)
    requires d > -1.0 && f == 1.0 / (1.0 + d) && n == p - d * d && k == 1.0 - 2.0 * f + f * f * n
    ensures k == 0.0 <==> p == 1.0
    ensures p == 1.0 ==> f * n == 1.0 - d
  {
    var e := 1.0 + d;
    assert f * e == 1.0;
    assert f * f * (e * e) == (f * e) * (f * e) == 1.0;
    assert k * (e * e) == e * e - 2.0 * (f * e) * e + (f * f * (e * e)) * n == p - 1.0;
    if p == 1.0 {
      assert f * n == f * (e * (1.0 - d)) == (f * e) * (1.0 - d);
      assert f * f * n == f * (1.0 - d);
      assert f * (1.0 - d) == 2.0 * f - f * e;
    } else {
      assert 0.0 * (e * e) == 0.0;
    }
  }

  /** What the general branch is built from. */
  ghost predicate General(m: Libm, a: Vec, b: Vec, au: Vec, bu: Vec, d: real, f: real, v: Vec) {
    && m.Exact() && !Antiparallel(m, a, b)
    && au == Unit(m, a) && bu == Unit(m, b) && d == Cosine(m, a, b) && f == 1.0 / (1.0 + d) && v == Cross(bu, au)
  }

  /** |v|^2 = |au|^2 |bu|^2 - d^2 */
  lemma GeneralFacts(m: Libm, a: Vec, b: Vec, au: Vec, bu: Vec, d: real, f: real, v: Vec)
    requires General(m, a, b, au, bu, d, f, v)
    ensures -1.0 < d && Dot(au, bu) == d && Dot(bu, au) == d
    ensures Dot(v, v) == Dot(bu, bu) * Dot(au, au) - d * d
    ensures Rodrigues(m, a, b) == Turned(v, f)
  {
    hide Dot, Unit, Cross, Turned, m.Exact;
    ClampIsIdle(m, a, b);
    DotComm(au, bu);
    Lagrange(bu, au, bu, au);
  }

  /** Unit vectors: the general branch is a rotation that carries b / |b| exactly onto a / |a|. */
  lemma GeneralRotation(m: Libm, a: Vec, b: Vec, au: Vec, bu: Vec, d: real, f: real, v: Vec)
    requires General(m, a, b, au, bu, d, f, v) && Dot(au, au) == 1.0 && Dot(bu, bu) == 1.0
    ensures Rotation(Rodrigues(m, a, b))
    ensures Apply(Rodrigues(m, a, b), bu) == au
    ensures Trace(Rodrigues(m, a, b)) == 1.0 + 2.0 * d
  {
    hide Dot, Apply, Turned, Cross, Rodrigues, General, Det, Trace, Norm2;
    var r := Turned(v, f);
    GeneralFacts(m, a, b, au, bu, d, f, v);
    GeneralIs(m, a, b, au, bu, d, f, v);
    StretchFactor(d, f, 1.0, Dot(v, v), Stretch(v, f));
    forall x
      ensures Norm2(r, x) == Dot(x, x)
    {
      TurnedIsometry(v, f, x);
    }
    IsometryIsOrthogonal(r);
    TurnedTrace(v, f);
    CarriesOver(au, bu, d, f, v);
    if v == ZERO {
      NoTurn(f);
      DetId();
    } else {
      CarriesBack(au, bu, d, f, v);
      ProperTurn(r, au, bu, d, v);
    }
  }

  lemma GeneralIs(m: Libm, a: Vec, b: Vec, au: Vec, bu: Vec, d: real, f: real, v: Vec)
    requires General(m, a, b, au, bu, d, f, v)
    ensures v == Cross(bu, au) && f == 1.0 / (1.0 + d)
  {
  }

  lemma NoTurn(f: real)
    ensures Turned(ZERO, f) == ID
  {
    hide Dot, Apply, Turned, Cross;
    forall x
      ensures Apply(Turned(ZERO, f), x) == x
    {
      TurnedApply(ZERO, f, x);
      NoTurnAt(f, x);
    }
    IdApply(E0); IdApply(E1); IdApply(E2);
    MatExt(Turned(ZERO, f), ID);
  }

  lemma NoTurnAt(f: real, x: Vec)
    ensures VAdd(VAdd(x, Cross(ZERO, x)), VScale(f, Cross(ZERO, Cross(ZERO, x)))) == x
  {
    assert Times(0.0, x.x) == 0.0 && Times(0.0, x.y) == 0.0 && Times(0.0, x.z) == 0.0 && Times(0.0, 0.0) == 0.0
      && Times(f, 0.0) == 0.0;
    hide Times;
  }

  /** The same turn takes a to its mirror image 2d a - b and leaves the axis alone. */
  lemma CarriesBack(au: Vec, bu: Vec, d: real, f: real, v: Vec)
    requires v == Cross(bu, au) && Dot(bu, au) == d && Dot(au, au) == 1.0 && f * Dot(v, v) == 1.0 - d
    ensures Apply(Turned(v, f), au) == VSub(VScale(2.0 * d, au), bu)
    ensures Apply(Turned(v, f), v) == v
  {
    hide Dot, Apply, Turned, Cross, VScale;
    TurnedApply(v, f, au);
    AntiCross(v, au);
    AntiCross(bu, au);
    BacCab(au, bu, au);
    DotComm(au, bu);
    BacCab(v, v, au);
    CrossSelf(bu, au);
    DotComm(v, au);
    MirrorSum(au, bu, d, f, v, Dot(v, v));
    TurnedApply(v, f, v);
    AxisStays(f, v);
  }

  lemma AxisStays(f: real, v: Vec)
    ensures VAdd(VAdd(v, Cross(v, v)), VScale(f, Cross(v, Cross(v, v)))) == v
  {
    TimesComm(v.x, v.y); TimesComm(v.x, v.z); TimesComm(v.y, v.z);
    assert Cross(v, v) == ZERO by { hide Times; }
    assert Times(v.x, 0.0) == 0.0 && Times(v.y, 0.0) == 0.0 && Times(v.z, 0.0) == 0.0 && Times(f, 0.0) == 0.0;
    hide Times;
  }

  lemma MirrorSum(au: Vec, bu: Vec, d: real, f: real, v: Vec, n: real)
    requires f * n == 1.0 - d
    ensures VAdd(VAdd(au, VScale(-1.0, VSub(VScale(1.0, bu), VScale(d, au)))),
            VScale(f, VSub(VScale(0.0, v), VScale(n, au))))
         == VSub(VScale(2.0 * d, au), bu)
  {
    MirrorSumScalar(au.x, bu.x, d, f, v.x, n);
    MirrorSumScalar(au.y, bu.y, d, f, v.y, n);
    MirrorSumScalar(au.z, bu.z, d, f, v.z, n);
    hide Times;
  }

  lemma MirrorSumScalar(a: real, b: real, d: real, f: real, v: real, n: real)
    requires f * n == 1.0 - d
    ensures a + Times(-1.0, Times(1.0, b) - Times(d, a)) + Times(f, Times(0.0, v) - Times(n, a))
         == Times(2.0 * d, a) - b
  {
    assert Times(f, Times(0.0, v) - Times(n, a)) == -((f * n) * a);
  }

  /** An orthogonal map that sends b to a, a to 2d a - b and fixes b x a != 0 preserves orientation. */
  lemma ProperTurn(r: Mat, au: Vec, bu: Vec, d: real, v: Vec)
    requires Orthogonal(r) && v == Cross(bu, au) && v != ZERO
    requires Apply(r, bu) == au && Apply(r, au) == VSub(VScale(2.0 * d, au), bu) && Apply(r, v) == v
    ensures Det(r) == 1.0
  {
    hide Dot, Apply, Cross, Det, Orthogonal, Cof, MScale;
    OrthogonalFacts(r);
    CrossApply(r, bu, au);
    ScaleApply(Det(r), r, v);
    MirrorCross(au, bu, d);
    NotOpposite(v);
  }

  lemma MirrorCross(a: Vec, b: Vec, d: real)
    ensures Cross(a, VSub(VScale(2.0 * d, a), b)) == Cross(b, a)
  {
    MirrorCrossScalar(a.y, a.z, b.y, b.z, d);
    MirrorCrossScalar(a.z, a.x, b.z, b.x, d);
    MirrorCrossScalar(a.x, a.y, b.x, b.y, d);
    hide Times;
  }

  lemma MirrorCrossScalar(p: real, q: real, r: real, s: real, d: real)
    ensures Times(p, Times(2.0 * d, q) - s) - Times(q, Times(2.0 * d, p) - r) == Times(r, q) - Times(s, p)
  {
    assert p * (2.0 * d * q - s) - q * (2.0 * d * p - r) == r * q - s * p;
  }

  lemma NotOpposite(v: Vec)
    requires v != ZERO
    ensures VScale(-1.0, v) != v
  {
  }

  /** b + (b x a) x b + f (b x a) x ((b x a) x b) = a for unit a, b. */
  lemma CarriesOver(au: Vec, bu: Vec, d: real, f: real, v: Vec)
    requires v == Cross(bu, au) && Dot(bu, au) == d && Dot(bu, bu) == 1.0 && f * Dot(v, v) == 1.0 - d
    ensures Apply(Turned(v, f), bu) == au
  {
    hide Dot, Apply, Turned, Cross, VScale;
    TurnedApply(v, f, bu);
    var y := Cross(v, bu);
    AntiCross(v, bu);
    BacCab(bu, bu, au);
    assert y == VScale(-1.0, VSub(VScale(d, bu), VScale(1.0, au)));
    BacCab(v, v, bu);
    CrossSelf(bu, au);
    Triple(bu, bu, au);
    DotComm(v, bu);
    assert Cross(v, y) == VSub(VScale(Dot(v, bu), v), VScale(Dot(v, v), bu));
    TurnedSum(au, bu, d, f, v, Dot(v, v));
  }

  lemma TurnedSum(au: Vec, bu: Vec, d: real, f: real, v: Vec, n: real)
    requires f * n == 1.0 - d
    ensures VAdd(VAdd(bu, VScale(-1.0, VSub(VScale(d, bu), VScale(1.0, au)))),
            VScale(f, VSub(VScale(0.0, v), VScale(n, bu)))) == au
  {
    TurnedSumScalar(au.x, bu.x, d, f, v.x, n);
    TurnedSumScalar(au.y, bu.y, d, f, v.y, n);
    TurnedSumScalar(au.z, bu.z, d, f, v.z, n);
    hide Times;
  }

  lemma TurnedSumScalar(a: real, b: real, d: real, f: real, v: real, n: real)
    requires f * n == 1.0 - d
    ensures b + Times(-1.0, Times(d, b) - Times(1.0, a)) + Times(f, Times(0.0, v) - Times(n, b)) == a
  {
    assert Times(f, Times(0.0, v) - Times(n, b)) == -((f * n) * b);
  }

  // ----- the antiparallel branch

  lemma AxisSquare(bu: Vec)
    ensures var x0 := HalfTurnAxis(bu);
            Dot(x0, x0) == if Abs(bu.x) > 0.6 then Times(bu.x, bu.x) + Times(bu.z, bu.z)
                           else Times(bu.y, bu.y) + Times(bu.z, bu.z)
    ensures Dot(HalfTurnAxis(bu), bu) == 0.0
  {
    CrossSelf(bu, if Abs(bu.x) > 0.6 then E1 else E0);
    DotComm(HalfTurnAxis(bu), bu);
    assert Times(bu.x, 0.0) == 0.0 && Times(bu.y, 0.0) == 0.0 && Times(bu.z, 0.0) == 0.0;
    assert Times(bu.x, 1.0) == bu.x && Times(bu.y, 1.0) == bu.y && Times(bu.z, 1.0) == bu.z;
    assert Times(-bu.z, -bu.z) == Times(bu.z, bu.z) && Times(-bu.y, -bu.y) == Times(bu.y, bu.y)
      && Times(0.0, 0.0) == 0.0;
    hide Times;
  }

  /** In the antiparallel branch |bu|^2 > (1 - 1e-6)^2, so the axis has norm at least 0.6. */
  lemma AxisIsLong(m: Libm, a: Vec, b: Vec)
    requires m.Exact() && Antiparallel(m, a, b)
    ensures Norm(m, HalfTurnAxis(Unit(m, b))) >= 0.6
  {
    hide Dot, Unit, HalfTurnAxis, Times, m.Exact;
    var au, bu := Unit(m, a), Unit(m, b);
    var x0 := HalfTurnAxis(bu);
    ClampIsIdle(m, a, b);
    UnitNorm(m, a);
    UnitNorm(m, b);
    CauchySchwarz(au, bu);
    LongEnough(Dot(au, bu), Dot(au, au), Dot(bu, bu));
    AxisSquare(bu);
    DotSquares(bu);
    TimesSquare(bu.y);
    TimesSquare(bu.z);
    LongAxis(bu.x, Times(bu.x, bu.x), Times(bu.y, bu.y), Times(bu.z, bu.z), Dot(x0, x0));
    DotSelf(x0);
    m.SqrtSquare(Dot(x0, x0));
    RootAbove(Norm(m, x0));
  }

  lemma DotSquares(v: Vec)
    ensures Dot(v, v) == Times(v.x, v.x) + Times(v.y, v.y) + Times(v.z, v.z)
  {
  }

  lemma LongEnough(d: real, p: real, q: real)
    requires d < NEAR_ANTIPARALLEL && 0.0 <= p <= 1.0 && 0.0 <= q && Times(d, d) <= Times(p, q)
    ensures q > 0.99
  {
    TimesMonotone(0.999999, -d, 0.999999, -d);
    assert Times(-d, -d) == Times(d, d);
    TimesMonotone(p, 1.0, q, q);
  }

  lemma LongAxis(x: real, xx: real, yy: real, zz: real, n: real)
    requires xx == Times(x, x) && yy >= 0.0 && zz >= 0.0 && xx + yy + zz > 0.99
    requires n == if Abs(x) > 0.6 then xx + zz else yy + zz
    ensures n >= 0.36
  {
    if Abs(x) > 0.6 {
      TimesMonotone(0.6, Abs(x), 0.6, Abs(x));
      assert Times(Abs(x), Abs(x)) == xx;
    } else {
      TimesMonotone(Abs(x), 0.6, Abs(x), 0.6);
      assert Times(Abs(x), Abs(x)) == xx;
    }
  }

  lemma RootAbove(n: real)
    requires n >= 0.0 && Times(n, n) >= 0.36
    ensures n >= 0.6
  {
    assert Times(0.6, 0.6) == 0.36;
    hide Times;
    SquareOrder(0.6, n);
  }

  lemma HalfTurnIsNegative(x: Vec)
    requires Dot(x, x) == 1.0
    ensures HalfTurn(x) == MScale(-1.0, Householder(x))
  {
    hide Dot, MScale;
    assert 2.0 / Dot(x, x) == 2.0;
    NegateDifference(ID, MScale(2.0, Outer(x, x)));
  }

  lemma NegateDifference(a: Mat, b: Mat)
    ensures MSub(b, a) == MScale(-1.0, MSub(a, b))
  {
  }

  lemma HalfTurnRotation(x: Vec)
    requires Dot(x, x) == 1.0
    ensures Rotation(HalfTurn(x))
  {
    hide Dot, HalfTurn, Householder, MScale, Det, Orthogonal;
    HalfTurnIsNegative(x);
    HouseholderFacts(x);
    Negate(Householder(x));
  }

  lemma HalfTurnApply(x: Vec, v: Vec)
    requires Dot(x, v) == 0.0
    ensures Apply(HalfTurn(x), v) == VScale(-1.0, v)
  {
    hide Dot, Apply, MSub, MScale, Outer;
    SubApply(MScale(2.0, Outer(x, x)), ID, v);
    ScaleApply(2.0, Outer(x, x), v);
    OuterApply(x, x, v);
    IdApply(v);
    assert Times(0.0, x.x) == 0.0 && Times(0.0, x.y) == 0.0 && Times(0.0, x.z) == 0.0 && Times(2.0, 0.0) == 0.0;
  }

  /** The antiparallel branch always yields a rotation; it sends bu to -bu, which misses au by less than 2e-6
      in squared length. It also reverses the second coordinate axis when the first component of bu exceeds 0.6 in
      magnitude, and the first one otherwise. */
  lemma AntiparallelRotation(m: Libm, a: Vec, b: Vec)
    requires m.Exact() && Antiparallel(m, a, b)
    ensures Rotation(Rodrigues(m, a, b))
    ensures Apply(Rodrigues(m, a, b), Unit(m, b)) == VScale(-1.0, Unit(m, b))
    ensures var e := if Abs(Unit(m, b).x) > 0.6 then E1 else E0; Apply(Rodrigues(m, a, b), e) == VScale(-1.0, e)
    ensures var miss := VSub(Apply(Rodrigues(m, a, b), Unit(m, b)), Unit(m, a)); Dot(miss, miss) < 0.000002
  {
    hide Dot, VScale, HalfTurn, HalfTurnAxis, Unit, Apply, m.Exact, Orthogonal, Det, Times, VSub, Cosine, Norm;
    var bu := Unit(m, b);
    var x0 := HalfTurnAxis(bu);
    var n := Norm(m, x0);
    AxisIsLong(m, a, b);
    var x := VScale(1.0 / n, x0);
    assert Rodrigues(m, a, b) == HalfTurn(x);
    AxisNormalised(m, x0);
    HalfTurnRotation(x);
    AxisSquare(bu);
    DotScale(x0, 1.0 / n, bu);
    HalfTurnApply(x, bu);
    var e := if Abs(bu.x) > 0.6 then E1 else E0;
    AxisOrthogonal(bu);
    DotScale(x0, 1.0 / n, e);
    HalfTurnApply(x, e);
    OppositeMiss(m, a, b);
  }

  lemma AxisOrthogonal(bu: Vec)
    ensures Dot(HalfTurnAxis(bu), if Abs(bu.x) > 0.6 then E1 else E0) == 0.0
  {
  }

  lemma AxisNormalised(m: Libm, x0: Vec)
    requires m.Exact() && Norm(m, x0) >= 0.6
    ensures var x := VScale(1.0 / Norm(m, x0), x0); Dot(x, x) == 1.0
  {
    hide Dot, VScale, m.Exact, Times;
    var n := Norm(m, x0);
    var x := VScale(1.0 / n, x0);
    DotSelf(x0);
    m.SqrtSquare(Dot(x0, x0));
    DotScale(x, 1.0 / n, x0);
    DotScale(x0, 1.0 / n, x0);
    AxisUnit(n, 1.0 / n, Dot(x0, x0));
  }

  /** |-bu - au|^2 = |bu|^2 + 2 d + |au|^2 */
  lemma OppositeMiss(m: Libm, a: Vec, b: Vec)
    requires m.Exact() && Antiparallel(m, a, b)
    ensures var miss := VSub(VScale(-1.0, Unit(m, b)), Unit(m, a)); Dot(miss, miss) < 0.000002
  {
    hide Dot, VScale, VSub, VAdd, Unit, m.Exact, Cosine, Norm;
    ClampIsIdle(m, a, b);
    UnitNorm(m, a);
    UnitNorm(m, b);
    NegatedSum(Unit(m, a), Unit(m, b));
    NormLine(Unit(m, a), 1.0, Unit(m, b));
  }

  lemma AxisUnit(n: real, c: real, q: real)
    requires n >= 0.6 && c == 1.0 / n && Times(n, n) == q
    ensures c * (c * q) == 1.0
  {
    assert c * n == 1.0;
    assert c * q == (c * n) * n == n;
  }

  lemma NegatedSum(a: Vec, b: Vec)
    ensures var s, t := VSub(VScale(-1.0, b), a), VAdd(a, VScale(1.0, b)); Dot(s, s) == Dot(t, t)
  {
    var s, t := VSub(VScale(-1.0, b), a), VAdd(a, VScale(1.0, b));
    assert s == VScale(-1.0, t);
    hide Dot, VScale, VSub, VAdd;
    DotScale(s, -1.0, t);
    DotScale(t, -1.0, t);
  }

  // ----- exactly when the result is a rotation

  lemma NormsAboveEps(m: Libm, a: Vec, b: Vec)
    requires m.Exact()
    ensures Dot(Unit(m, b), Unit(m, b)) * Dot(Unit(m, a), Unit(m, a)) == 1.0 <==> Norm(m, a) >= EPS && Norm(m, b) >= EPS
  {
    hide Dot, Unit, Norm, m.Exact;
    UnitNorm(m, a);
    UnitNorm(m, b);
    ProductOne(Dot(Unit(m, b), Unit(m, b)), Dot(Unit(m, a), Unit(m, a)));
  }

  lemma ProductOne(p: real, q: real)
    requires 0.0 <= p <= 1.0 && 0.0 <= q <= 1.0
    ensures p * q == 1.0 <==> p == 1.0 && q == 1.0
  {
    Shrink(p, q);
    Shrink(q, p);
  }

  /** Parallel inputs: the scaled cross product vanishes exactly when the cross product does. */
  lemma ParallelUnits(m: Libm, a: Vec, b: Vec)
    requires m.Exact()
    ensures Cross(Unit(m, b), Unit(m, a)) == ZERO <==> Cross(b, a) == ZERO
  {
    hide Cross, Times, m.Exact, Dot;
    var s, t := 1.0 / Max(Norm(m, b), EPS), 1.0 / Max(Norm(m, a), EPS);
    CrossScales(s, b, t, a);
    ScaleToZero(Times(s, t), Cross(b, a));
    TimesPositive(s, t);
  }

  lemma CrossScales(s: real, u: Vec, t: real, v: Vec)
    ensures Cross(VScale(s, u), VScale(t, v)) == VScale(Times(s, t), Cross(u, v))
  {
    CrossScalesScalar(s, t, u.y, v.z, u.z, v.y);
    CrossScalesScalar(s, t, u.z, v.x, u.x, v.z);
    CrossScalesScalar(s, t, u.x, v.y, u.y, v.x);
    hide Times;
  }

  lemma CrossScalesScalar(s: real, t: real, a: real, b: real, c: real, d: real)
    ensures Times(Times(s, a), Times(t, b)) - Times(Times(s, c), Times(t, d))
         == Times(Times(s, t), Times(a, b) - Times(c, d))
  {
    assert (s * a) * (t * b) - (s * c) * (t * d) == (s * t) * (a * b - c * d);
  }

  lemma ScaleToZero(s: real, v: Vec)
    ensures s > 0.0 ==> (VScale(s, v) == ZERO <==> v == ZERO)
  {
    if s > 0.0 {
      TimesZero(s, v.x); TimesZero(s, v.y); TimesZero(s, v.z);
    }
  }

  lemma TimesZero(s: real, x: real)
    requires s > 0.0
    ensures Times(s, x) == 0.0 <==> x == 0.0
  {
    if x > 0.0 {
      TimesPositive(s, x);
    } else if x < 0.0 {
      TimesPositive(s, -x);
      assert Times(s, -x) == -Times(s, x);
    }
  }

  lemma CrossAxes(v: Vec)
    ensures Cross(v, E0) == Vec(0.0, v.z, -v.y) && Cross(v, E1) == Vec(-v.z, 0.0, v.x)
  {
  }

  /** A turn about v != 0 that stretches some vector is not orthogonal. */
  lemma StretchedTurn(v: Vec, f: real)
    requires v != ZERO && Stretch(v, f) != 0.0
    ensures !Orthogonal(Turned(v, f))
  {
    var e := if v.x != 0.0 then E1 else E0;
    var y := Cross(v, e);
    CrossAxes(v);
    hide Dot, Cross, Turned, Norm2, Orthogonal, Times, Stretch;
    DotSelf(y);
    TurnedNorm(v, f, e);
    NonzeroProduct(Stretch(v, f), Dot(y, y));
    if Orthogonal(Turned(v, f)) {
      OrthogonalNorm(Turned(v, f), e);
    }
  }

  lemma OrthogonalNorm(r: Mat, v: Vec)
    requires Orthogonal(r)
    ensures Norm2(r, v) == Dot(v, v)
  {
    OrthogonalDot(r, v, v);
  }

  lemma NonzeroProduct(a: real, b: real)
    requires a != 0.0 && b > 0.0
    ensures Times(a, b) != 0.0
  {
    TimesComm(a, b);
    TimesZero(b, a);
  }

  /** The result is a rotation if and only if the pair takes the antiparallel branch, or both norms reach
      1e-8, or the two vectors are parallel (a zero vector included). */
  lemma RodriguesRotationIff(m: Libm, a: Vec, b: Vec)
    requires m.Exact()
    ensures Rotation(Rodrigues(m, a, b))
       <==> || Dot(Unit(m, a), Unit(m, b)) < -0.999999
            || (Norm(m, a) >= 0.00000001 && Norm(m, b) >= 0.00000001) || Cross(b, a) == ZERO
  {
    if Antiparallel(m, a, b) {
      AntiparallelRotation(m, a, b);
    } else {
      hide Rodrigues, Rotation, Norm, Cross, m.Exact, Unit;
      var au, bu, d := Unit(m, a), Unit(m, b), Cosine(m, a, b);
      GeneralRotationIff(m, a, b, au, bu, d, 1.0 / (1.0 + d), Cross(bu, au));
    }
  }

  lemma GeneralRotationIff(m: Libm, a: Vec, b: Vec, au: Vec, bu: Vec, d: real, f: real, v: Vec)
    requires General(m, a, b, au, bu, d, f, v)
    ensures Rotation(Rodrigues(m, a, b)) <==> (Norm(m, a) >= EPS && Norm(m, b) >= EPS) || Cross(b, a) == ZERO
  {
    hide Dot, Unit, Cross, Rodrigues, Norm, Turned, m.Exact, Cosine, Antiparallel, Orthogonal, Det, Stretch;
    GeneralFacts(m, a, b, au, bu, d, f, v);
    var p := Dot(bu, bu) * Dot(au, au);
    NormsAboveEps(m, a, b);
    ParallelUnits(m, a, b);
    StretchIs(v, f);
    StretchFactor(d, f, p, Dot(v, v), Stretch(v, f));
    if v == ZERO {
      NoTurn(f);
      IdIsRotation();
    } else if p == 1.0 {
      UnitNorm(m, a);
      UnitNorm(m, b);
      GeneralRotation(m, a, b, au, bu, d, f, v);
    } else {
      StretchedTurn(v, f);
    }
  }

  lemma StretchIs(v: Vec, f: real)
    ensures Stretch(v, f) == 1.0 - 2.0 * f + f * f * Dot(v, v)
  {
  }

  /** For norms of at least 1e-8 the source direction is carried exactly onto the target direction if and only if the
      cosine of their angle is at least -0.999999, or they are exactly opposite; below that it is carried onto its own
      opposite. */
  lemma RodriguesHitsIff(m: Libm, a: Vec, b: Vec)
    requires m.Exact() && Norm(m, a) >= 0.00000001 && Norm(m, b) >= 0.00000001
    ensures Apply(Rodrigues(m, a, b), Unit(m, b)) == Unit(m, a)
       <==> Dot(Unit(m, a), Unit(m, b)) >= -0.999999 || Unit(m, a) == VScale(-1.0, Unit(m, b))
    ensures Dot(Unit(m, a), Unit(m, b)) < -0.999999 ==>
              Apply(Rodrigues(m, a, b), Unit(m, b)) == VScale(-1.0, Unit(m, b))
  {
    hide Dot, Unit, Cross, Norm, m.Exact, Cosine, Rotation, Apply, Rodrigues, VScale;
    var au, bu, d := Unit(m, a), Unit(m, b), Cosine(m, a, b);
    ClampIsIdle(m, a, b);
    UnitNorm(m, a);
    UnitNorm(m, b);
    if Antiparallel(m, a, b) {
      AntiparallelRotation(m, a, b);
    } else {
      Nondegenerate(m, a, b);
      GeneralRotation(m, a, b, au, bu, d, 1.0 / (1.0 + d), Cross(bu, au));
    }
  }

  /** Shortest arc: for norms of at least 1e-8 outside the antiparallel branch, R carries b / |b| exactly onto
      a / |a|, and no other rotation that does so has a larger trace, that is, a smaller angle. */
  lemma RodriguesShortestArc(m: Libm, a: Vec, b: Vec, q: Mat)
    requires m.Exact() && Norm(m, a) >= EPS && Norm(m, b) >= EPS && !Antiparallel(m, a, b)
    requires Rotation(q) && Apply(q, Unit(m, b)) == Unit(m, a)
    ensures Apply(Rodrigues(m, a, b), Unit(m, b)) == Unit(m, a)
    ensures Trace(q) <= Trace(Rodrigues(m, a, b))
  {
    hide Dot, Unit, Cross, Rodrigues, Norm, m.Exact, Cosine, Antiparallel, Orthogonal, Det, Apply, Trace;
    var au, bu, d := Unit(m, a), Unit(m, b), Cosine(m, a, b);
    UnitNorm(m, a);
    UnitNorm(m, b);
    ClampIsIdle(m, a, b);
    DotComm(au, bu);
    Nondegenerate(m, a, b);
    GeneralRotation(m, a, b, au, bu, d, 1.0 / (1.0 + d), Cross(bu, au));
    TurnNonNegative(q, bu);
  }

  lemma Nondegenerate(m: Libm, a: Vec, b: Vec)
    requires !Antiparallel(m, a, b)
    ensures 1.0 + Cosine(m, a, b) > 0.0
  {
  }
}
