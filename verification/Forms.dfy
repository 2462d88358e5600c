/**
 Quadratic forms on 3-vectors without a spectral theorem: positive semidefinite matrices,
 their determinants and products, and the inequalities every rotation satisfies.
 */
module Forms {
  import opened LinAlg

  /** m represents a non-negative quadratic form; m need not be symmetric. */
  ghost predicate NonNegative(m: Mat) {
    forall v :: Quad(m, v) >= 0.0
  }

  ghost predicate Psd(m: Mat) {
    Symmetric(m) && NonNegative(m)
  }

  lemma PsdAt(t: Mat, v: Vec)
    requires Psd(t)
    ensures Quad(t, v) >= 0.0
  {
  }

  lemma PsdSymmetric(b: Mat)
    requires Psd(b)
    ensures Symmetric(b)
  {
  }

  // ----- Cauchy-Schwarz

  lemma CauchySchwarz(u: Vec, v: Vec)
    ensures Times(Dot(u, v), Dot(u, v)) <= Times(Dot(u, u), Dot(v, v))
  {
    hide Dot, Cross;
    Lagrange(u, v, u, v);
    DotSelf(Cross(u, v));
    DotComm(u, v);
  }

  /** |u|^2 <= c^2 and |v|^2 <= 1 bound the inner product by c. */
  lemma DotBound(u: Vec, v: Vec, c: real)
    requires c >= 0.0
    requires Dot(u, u) <= Times(c, c) && Dot(v, v) <= 1.0
    ensures -c <= Dot(u, v) <= c
  {
    hide Dot;
    CauchySchwarz(u, v);
    DotSelf(u);
    DotSelf(v);
    TimesMonotone(Dot(u, u), Times(c, c), Dot(v, v), 1.0);
    SquareOrder(Dot(u, v), c);
  }

  lemma TimesMonotone(a: real, b: real, c: real, d: real)
    requires 0.0 <= a <= b && 0.0 <= c <= d
    ensures Times(a, c) <= Times(b, d)
  {
    assert Times(b, d) - Times(a, c) == (b - a) * d + a * (d - c);
  }

  lemma SquareOrder(x: real, c: real)
    requires c >= 0.0 && Times(x, x) <= Times(c, c)
    ensures -c <= x <= c
  {
    assert Times(x - c, x + c) == Times(x, x) - Times(c, c);
    assert Times(-x - c, -x + c) == Times(x, x) - Times(c, c);
    if x > c {
      TimesPositive(x - c, x + c);
    } else if x < -c {
      TimesPositive(-x - c, -x + c);
    }
  }

  // ----- determinants of positive matrices

  /** A symmetric matrix with a positive quadratic form has a positive determinant. */
  lemma PositiveDefiniteDet(m: Mat)
    requires Symmetric(m)
    requires forall v :: v != ZERO ==> Quad(m, v) > 0.0
    ensures Det(m) > 0.0
  {
    var a, b, d := m.r0.x, m.r0.y, m.r1.y;
    var c3 := Cross(m.r0, m.r1);
    assert Quad(m, E0) == a;
    assert c3.z == Times(a, d) - Times(b, b);
    var w := Vec(-b, a, 0.0);
    assert Quad(m, w) == Times(a, c3.z) by { MinorQuad(m, a, b, d, c3.z); }
    assert c3.z > 0.0 by { TimesSign(a, c3.z); }
    assert Quad(m, c3) == Times(c3.z, Det(m)) by { AdjugateQuad(m); }
    TimesSign(c3.z, Det(m));
  }

  lemma MinorQuad(m: Mat, a: real, b: real, d: real, k: real)
    requires Symmetric(m) && m.r0.x == a && m.r0.y == b && m.r1.y == d && k == Times(a, d) - Times(b, b)
    ensures Quad(m, Vec(-b, a, 0.0)) == Times(a, k)
  {
    var w := Vec(-b, a, 0.0);
    assert m.r1.x == b;
    assert Apply(m, w).x == a * (-b) + b * a == 0.0;
    assert Apply(m, w).y == b * (-b) + d * a == k;
  }

  lemma AdjugateQuad(m: Mat)
    requires Symmetric(m)
    ensures Quad(m, Cross(m.r0, m.r1)) == Times(Cross(m.r0, m.r1).z, Det(m))
  {
    var c := Cross(m.r0, m.r1);
    hide Cross;
    Triple(m.r2, m.r0, m.r1);
    Triple(m.r0, m.r1, m.r2);
    assert Apply(m, c) == Vec(0.0, 0.0, Det(m)) by { hide Dot; }
  }

  lemma TimesSign(a: real, b: real)
    requires a > 0.0 && Times(a, b) > 0.0
    ensures b > 0.0
  {
    assert Times(a, -b) == -Times(a, b);
    if b < 0.0 {
      TimesPositive(a, -b);
    }
  }

  /** A positive semidefinite matrix has a determinant >= 0. */
  lemma PsdDet(m: Mat)
    requires Psd(m)
    ensures Det(m) >= 0.0
  {
    hide Det, Cof, Trace, Psd;
    var k := 1.0 + Abs(Trace(m)) + Abs(Trace(Cof(m)));
    if Det(m) < 0.0 {
      var d := -Det(m);
      var t := if d < k then d / k else 1.0;
      assert 0.0 < t <= 1.0 && t * k <= d by { SmallShift(d, k, t); }
      PsdDetShift(m, t);
    }
  }

  function Abs(x: real): real {
    if x < 0.0 then -x else x
  }

  lemma SmallShift(d: real, k: real, t: real)
    requires d > 0.0 && k >= 1.0 && t == if d < k then d / k else 1.0
    ensures 0.0 < t <= 1.0 && t * k <= d
  {
    if d < k {
      Quotient(d, k);
    }
  }

  lemma Quotient(d: real, k: real)
    requires 0.0 < d <= k
    ensures 0.0 < d / k <= 1.0 && (d / k) * k == d
  {
    var t := d / k;
    assert t * k == d;
    assert t > 0.0;
    assert (1.0 - t) * k == k - d;
  }

  lemma PsdDetShift(m: Mat, t: real)
    requires Psd(m) && 0.0 < t <= 1.0
    ensures t * (1.0 + Abs(Trace(m)) + Abs(Trace(Cof(m)))) + Det(m) > 0.0
  {
    hide Det, Cof, Trace, Quad, Symmetric, MAdd, MScale;
    ShiftPositive(m, t);
    PositiveDefiniteDet(MAdd(m, MScale(t, ID)));
    ShiftDet(m, t);
    ShiftBound(t, Trace(m), Trace(Cof(m)), Det(m), Det(MAdd(m, MScale(t, ID))));
  }

  lemma ShiftBound(t: real, p: real, q: real, d: real, shifted: real)
    requires 0.0 < t <= 1.0
    requires shifted > 0.0 && shifted == t * t * t + t * t * p + t * q + d
    ensures t * (1.0 + Abs(p) + Abs(q)) + d > 0.0
  {
    Shrink(t, t);
    Shrink(t, t * t);
    ShrinkBy(t, p);
    ShrinkBy(1.0, q);
    LinearBound(t, t * t + t * p + q, 1.0 + Abs(p) + Abs(q));
  }

  lemma Shrink(t: real, x: real)
    requires 0.0 <= t <= 1.0 && x >= 0.0
    ensures 0.0 <= t * x <= x
  {
    assert x - t * x == (1.0 - t) * x;
  }

  lemma ShrinkBy(t: real, p: real)
    requires 0.0 < t <= 1.0
    ensures t * p <= Abs(p)
  {
    if p >= 0.0 {
      Shrink(t, p);
    }
  }

  lemma LinearBound(t: real, x: real, y: real)
    requires 0.0 <= t && x <= y
    ensures t * x <= t * y
  {
    assert t * (y - x) >= 0.0;
  }

  lemma TimesUp(a: real, b: real, c: real)
    requires a >= 0.0 && b <= c
    ensures Times(a, b) <= Times(a, c)
  {
    LinearBound(a, b, c);
  }

  lemma ShiftPositive(m: Mat, t: real)
    requires Psd(m) && t > 0.0
    ensures Symmetric(MAdd(m, MScale(t, ID)))
    ensures forall v :: v != ZERO ==> Quad(MAdd(m, MScale(t, ID)), v) > 0.0
  {
    forall v | v != ZERO
      ensures Quad(MAdd(m, MScale(t, ID)), v) > 0.0
    {
      ShiftQuad(m, t, v);
      DotSelf(v);
      TimesPositive(t, Dot(v, v));
    }
  }

  lemma ShiftQuad(m: Mat, t: real, v: Vec)
    ensures Quad(MAdd(m, MScale(t, ID)), v) == Quad(m, v) + t * Dot(v, v)
  {
    hide Dot, Apply, MScale;
    AddApply(m, MScale(t, ID), v);
    ScaleApply(t, ID, v);
    IdApply(v);
    DotAdd(v, Apply(m, v), VScale(t, v));
    DotScale(v, t, v);
  }

  /** The characteristic polynomial. */
  lemma ShiftDet(m: Mat, t: real)
    ensures Det(MAdd(m, MScale(t, ID))) == t * t * t + t * t * Trace(m) + t * Trace(Cof(m)) + Det(m)
  {
    hide Det;
    var Mat(Vec(a, b, c), Vec(d, e, f), Vec(g, h, i)) := m;
    ShiftEntries(m, t);
    CofTrace(a, b, c, d, e, f, g, h, i);
    hide Cof, MAdd, MScale, Times;
    DetOf(a, b, c, d, e, f, g, h, i);
    DetOf(a + t, b, c, d, e + t, f, g, h, i + t);
    ShiftDetScalar(a, b, c, d, e, f, g, h, i, t, Trace(m), Trace(Cof(m)), Det(m), Det(MAdd(m, MScale(t, ID))));
  }

  lemma ShiftEntries(m: Mat, t: real)
    ensures MAdd(m, MScale(t, ID))
         == Mat(Vec(m.r0.x + t, m.r0.y, m.r0.z), Vec(m.r1.x, m.r1.y + t, m.r1.z), Vec(m.r2.x, m.r2.y, m.r2.z + t))
  {
  }

  lemma CofTrace(a: real, b: real, c: real, d: real, e: real, f: real, g: real, h: real, i: real)
    ensures Trace(Cof(Mat(Vec(a, b, c), Vec(d, e, f), Vec(g, h, i))))
         == (e * i - f * h) + (i * a - g * c) + (a * e - b * d)
  {
  }

  lemma ShiftDetScalar(a: real, b: real, c: real, d: real, e: real, f: real, g: real, h: real, i: real, t: real,
                       tr: real, co: real, d0: real, d1: real)
    requires tr == a + e + i && co == (e * i - f * h) + (i * a - g * c) + (a * e - b * d)
    requires d0 == a * (e * i - f * h) - b * (d * i - f * g) + c * (d * h - e * g)
    requires d1 == (a + t) * ((e + t) * (i + t) - f * h) - b * (d * (i + t) - f * g) + c * (d * h - (e + t) * g)
    ensures d1 == t * t * t + t * t * tr + t * co + d0
  {
  }

  // ----- rank-one deflation and the trace inequality

  /** Quad(S, u + t e) as a polynomial in t. */
  lemma QuadLine(s: Mat, u: Vec, t: real, e: Vec)
    requires Symmetric(s)
    ensures Quad(s, VAdd(u, VScale(t, e))) == Quad(s, u) + 2.0 * t * Dot(u, Apply(s, e)) + t * t * Quad(s, e)
  {
    hide Dot, Apply, VAdd, VScale, Symmetric;
    var te := VScale(t, e);
    ApplyAdd(s, u, te);
    ApplyScale(s, t, e);
    var su, se := Apply(s, u), Apply(s, e);
    DotAdd(VAdd(su, VScale(t, se)), u, te);
    DotAdd(u, su, VScale(t, se));
    DotAdd(te, su, VScale(t, se));
    DotScale(u, t, se);
    DotScale(e, t, su);
    DotScale(te, t, se);
    DotScale(e, t, se);
    SymmetricDot(s, e, u);
    DotComm(e, su);
    DotComm(u, se);
  }

  /** A direction in which a psd form vanishes is in the kernel. */
  lemma PsdKernel(s: Mat, e: Vec)
    requires Psd(s) && Quad(s, e) <= 0.0
    ensures Apply(s, e) == ZERO
  {
    var u := Apply(s, e);
    var q, n := Quad(s, u), Dot(u, u);
    assert Quad(s, e) == 0.0;
    if u != ZERO {
      DotSelf(u);
      var t := -(q + 1.0) / (2.0 * n);
      assert 2.0 * t * n == -(q + 1.0);
      assert t * t * 0.0 == 0.0;
      assert Quad(s, VAdd(u, VScale(t, e))) >= 0.0;
      QuadLine(s, u, t, e);
    }
  }

  /** Splits off d l l^T from a psd matrix so that the remainder is psd and kills e. */
  lemma Deflate(s: Mat, e: Vec) returns (d: real, l: Vec, rest: Mat)
    requires Psd(s)
    ensures d >= 0.0
    ensures s == MAdd(MScale(d, Outer(l, l)), rest)
    ensures Psd(rest) && Apply(rest, e) == ZERO
    ensures forall w :: Apply(s, w) == ZERO ==> Apply(rest, w) == ZERO
  {
    l := Apply(s, e);
    var q := Quad(s, e);
    if q <= 0.0 {
      PsdKernel(s, e);
      d, rest := 0.0, s;
      AddZero(l, s);
    } else {
      d := 1.0 / q;
      rest := MSub(s, MScale(d, Outer(l, l)));
      SubAdd(s, MScale(d, Outer(l, l)));
      OuterSymmetric(d, l);
      SubSymmetric(s, MScale(d, Outer(l, l)));
      DeflatedPsd(s, e, d, l, rest);
    }
  }

  lemma DeflatedPsd(s: Mat, e: Vec, d: real, l: Vec, rest: Mat)
    requires Psd(s) && l == Apply(s, e) && Quad(s, e) > 0.0 && d == 1.0 / Quad(s, e)
    requires rest == MSub(s, MScale(d, Outer(l, l))) && Symmetric(rest)
    ensures Psd(rest) && Apply(rest, e) == ZERO
    ensures forall w :: Apply(s, w) == ZERO ==> Apply(rest, w) == ZERO
  {
    hide Dot, Apply, MSub, MScale, Outer, VSub, VScale, Symmetric;
    forall v
      ensures Quad(rest, v) >= 0.0
    {
      DeflatedQuad(s, e, d, l, rest, v);
    }
    DeflateApply(s, d, l, e);
    DotComm(l, e);
    ScaleOne(l, Times(d, Dot(l, e)));
    forall w | Apply(s, w) == ZERO
      ensures Apply(rest, w) == ZERO
    {
      DeflateApply(s, d, l, w);
      SymmetricDot(s, e, w);
      DotZero(e);
      ScaleZero(l, Times(d, Dot(l, w)));
    }
  }

  lemma ScaleOne(l: Vec, t: real)
    requires t == 1.0
    ensures VSub(l, VScale(t, l)) == ZERO
  {
  }

  lemma ScaleZero(l: Vec, t: real)
    requires t == 0.0
    ensures VSub(ZERO, VScale(t, l)) == ZERO
  {
  }

  lemma DotZero(e: Vec)
    ensures Dot(e, ZERO) == 0.0 && Dot(ZERO, e) == 0.0
  {
  }

  lemma DeflatedQuad(s: Mat, e: Vec, d: real, l: Vec, rest: Mat, v: Vec)
    requires Psd(s) && l == Apply(s, e) && Quad(s, e) > 0.0 && d == 1.0 / Quad(s, e)
    requires rest == MSub(s, MScale(d, Outer(l, l)))
    ensures Quad(rest, v) >= 0.0
  {
    hide Dot, Apply, MSub, MScale, Outer, VSub, VScale, Symmetric;
    var p := Dot(l, v);
    var k := Times(d, p);
    var t := -k;
    DeflateApply(s, d, l, v);
    QuadLine(s, v, t, e);
    assert Quad(s, VAdd(v, VScale(t, e))) >= 0.0;
    DotComm(v, l);
    DotSub(v, Apply(s, v), VScale(k, l));
    DotScale(v, k, l);
    DeflateScalar(Quad(s, v), Quad(s, e), d, p, t, Quad(s, VAdd(v, VScale(t, e))));
  }

  lemma DeflateScalar(qv: real, qe: real, d: real, p: real, t: real, q: real)
    requires qe > 0.0 && d == 1.0 / qe && t == -Times(d, p) && q == qv + 2.0 * t * p + t * t * qe
    ensures q == qv - Times(d, p) * p
  {
    var k := Times(d, p);
    assert d * qe == 1.0;
    assert k * qe == p * (d * qe) == p;
    assert t * t * qe == k * (k * qe);
  }

  lemma DeflateApply(s: Mat, d: real, l: Vec, v: Vec)
    ensures Apply(MSub(s, MScale(d, Outer(l, l))), v) == VSub(Apply(s, v), VScale(Times(d, Dot(l, v)), l))
  {
    hide Dot, Apply, VScale, MScale, Outer, Times;
    SubApply(s, MScale(d, Outer(l, l)), v);
    ScaleApply(d, Outer(l, l), v);
    OuterApply(l, l, v);
    VScaleTwice(d, Dot(l, v), l);
  }

  lemma VScaleTwice(s: real, t: real, v: Vec)
    ensures VScale(s, VScale(t, v)) == VScale(Times(s, t), v)
  {
    hide Times;
    TimesAssoc(s, t, v.x);
    TimesAssoc(s, t, v.y);
    TimesAssoc(s, t, v.z);
  }

  lemma TimesRaw(s: real, t: real)
    ensures Times(s, t) == s * t
  {
  }

  lemma OuterApply(a: Vec, b: Vec, v: Vec)
    ensures Apply(Outer(a, b), v) == VScale(Dot(b, v), a)
  {
    hide Dot, Times;
    DotScale(b, a.x, v); DotScale(b, a.y, v); DotScale(b, a.z, v);
    TimesRaw(Dot(b, v), a.x); TimesRaw(Dot(b, v), a.y); TimesRaw(Dot(b, v), a.z);
  }

  lemma OuterSymmetric(d: real, l: Vec)
    ensures Symmetric(MScale(d, Outer(l, l)))
  {
    hide Times;
    TimesComm(l.x, l.y);
    TimesComm(l.x, l.z);
    TimesComm(l.y, l.z);
  }

  lemma SubSymmetric(a: Mat, b: Mat)
    requires Symmetric(a) && Symmetric(b)
    ensures Symmetric(MSub(a, b)) && Symmetric(MAdd(a, b))
  {
  }

  lemma SubAdd(a: Mat, b: Mat)
    ensures MAdd(b, MSub(a, b)) == a
  {
  }

  lemma AddZero(l: Vec, s: Mat)
    ensures MAdd(MScale(0.0, Outer(l, l)), s) == s
  {
  }

  lemma InnerRankOne(b: Mat, d: real, l: Vec, rest: Mat)
    ensures Inner(b, MAdd(MScale(d, Outer(l, l)), rest)) == d * Quad(b, l) + Inner(b, rest)
  {
    hide Dot, VAdd, VScale;
    var n := Outer(l, l);
    DotAdd(b.r0, VScale(d, n.r0), rest.r0); DotAdd(b.r1, VScale(d, n.r1), rest.r1);
    DotAdd(b.r2, VScale(d, n.r2), rest.r2);
    DotScale(b.r0, d, n.r0); DotScale(b.r1, d, n.r1); DotScale(b.r2, d, n.r2);
    DotScale(b.r0, l.x, l); DotScale(b.r1, l.y, l); DotScale(b.r2, l.z, l);
    DotRaw(l, Apply(b, l));
  }

  lemma DotRaw(a: Vec, b: Vec)
    ensures Dot(a, b) == a.x * b.x + a.y * b.y + a.z * b.z
  {
  }

  /** <B, S> >= 0 for a non-negative form B and a psd matrix S. */
  lemma InnerPsd(b: Mat, s: Mat)
    requires NonNegative(b) && Psd(s)
    ensures Inner(b, s) >= 0.0
  {
    hide Inner, Quad, Apply, MAdd, MScale, Outer, Psd, Symmetric;
    var d0, l0, s0 := Deflate(s, E0);
    var d1, l1, s1 := Deflate(s0, E1);
    var d2, l2, s2 := Deflate(s1, E2);
    InnerRankOne(b, d0, l0, s0);
    InnerRankOne(b, d1, l1, s1);
    InnerRankOne(b, d2, l2, s2);
    KillsAll(s2);
    InnerZero(b);
    NonNegativeAt(b, d0, l0);
    NonNegativeAt(b, d1, l1);
    NonNegativeAt(b, d2, l2);
  }

  lemma NonNegativeAt(b: Mat, d: real, l: Vec)
    requires NonNegative(b) && d >= 0.0
    ensures d * Quad(b, l) >= 0.0
  {
    assert Quad(b, l) >= 0.0;
  }

  lemma KillsAll(s: Mat)
    requires Apply(s, E0) == ZERO && Apply(s, E1) == ZERO && Apply(s, E2) == ZERO
    ensures s == Mat(ZERO, ZERO, ZERO)
  {
    hide Dot;
    DotBasis(s.r0); DotBasis(s.r1); DotBasis(s.r2);
  }

  lemma InnerZero(b: Mat)
    ensures Inner(b, Mat(ZERO, ZERO, ZERO)) == 0.0
  {
  }

  /** A matrix whose form is at most |v|^2 has inner product at most trace(S) with a psd S. */
  lemma InnerTraceBound(a: Mat, s: Mat)
    requires forall v :: Quad(a, v) <= Dot(v, v)
    requires Psd(s)
    ensures Inner(a, s) <= Trace(s)
  {
    var b := MSub(ID, a);
    forall v
      ensures Quad(b, v) >= 0.0
    {
      SubApply(ID, a, v);
      IdApply(v);
      DotSub(v, v, Apply(a, v));
      assert Quad(a, v) <= Dot(v, v);
    }
    InnerPsd(b, s);
    InnerOfDifference(a, s);
  }

  lemma InnerOfDifference(a: Mat, s: Mat)
    ensures Inner(MSub(ID, a), s) == Trace(s) - Inner(a, s)
  {
    hide Dot;
    DotSub(s.r0, E0, a.r0); DotSub(s.r1, E1, a.r1); DotSub(s.r2, E2, a.r2);
    DotBasis(s.r0); DotBasis(s.r1); DotBasis(s.r2);
  }

  lemma DotBasis(v: Vec)
    ensures Dot(E0, v) == v.x == Dot(v, E0)
    ensures Dot(E1, v) == v.y == Dot(v, E1)
    ensures Dot(E2, v) == v.z == Dot(v, E2)
  {
  }

  /** |x|^2 I - x x^T is psd. */
  lemma ShiftedOuterQuad(n: real, x: Vec, v: Vec)
    requires n == Dot(x, x)
    ensures Quad(MSub(MScale(n, ID), Outer(x, x)), v) >= 0.0
  {
    hide Dot, Apply, MSub, MScale, Outer, Times;
    SubApply(MScale(n, ID), Outer(x, x), v);
    ScaleApply(n, ID, v);
    IdApply(v);
    OuterApply(x, x, v);
    DotSub(v, VScale(n, v), VScale(Dot(x, v), x));
    DotScale(v, n, v);
    DotScale(v, Dot(x, v), x);
    DotComm(v, x);
    CauchySchwarz(x, v);
    TimesRaw(Dot(x, v), Dot(x, v));
    TimesRaw(n, Dot(v, v));
  }

  /** The form of a psd matrix is at most its trace times |x|^2. */
  lemma TraceDominates(s: Mat, x: Vec)
    requires Psd(s)
    ensures Quad(s, x) <= Trace(s) * Dot(x, x)
  {
    hide Dot, Psd, Quad, Trace, MSub, MScale, Outer, Inner, Times;
    var n := Dot(x, x);
    var b := MSub(MScale(n, ID), Outer(x, x));
    forall v
      ensures Quad(b, v) >= 0.0
    {
      ShiftedOuterQuad(n, x, v);
    }
    InnerPsd(b, s);
    InnerOfShiftedOuter(n, x, s);
    TimesRaw(n, Trace(s));
    TimesRaw(Trace(s), n);
    TimesComm(n, Trace(s));
  }

  lemma InnerOfShiftedOuter(n: real, x: Vec, s: Mat)
    ensures Inner(MSub(MScale(n, ID), Outer(x, x)), s) == n * Trace(s) - Quad(s, x)
  {
    hide Dot, VSub, VScale;
    var o := Outer(x, x);
    DotSub(s.r0, VScale(n, E0), o.r0); DotSub(s.r1, VScale(n, E1), o.r1); DotSub(s.r2, VScale(n, E2), o.r2);
    DotScale(E0, n, s.r0); DotScale(E1, n, s.r1); DotScale(E2, n, s.r2);
    DotScale(x, x.x, s.r0); DotScale(x, x.y, s.r1); DotScale(x, x.z, s.r2);
    DotBasis(s.r0); DotBasis(s.r1); DotBasis(s.r2);
    DotComm(x, s.r0); DotComm(x, s.r1); DotComm(x, s.r2);
    DotRaw(x, Apply(s, x));
  }
}
