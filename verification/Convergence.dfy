/**
 How fast the Newton-Schulz loop of `sinew_ns30` (src/gen/sinew_align.c:114-130) converges:
 quadratically in the largest absolute row sum of I - X^T X, and, when the first step leaves squared
 singular values of at least 1e-6, to within 1e-6 in the 30 steps the code takes.
 */
module Convergence {
  import opened LinAlg
  import opened Forms
  import opened NewtonSchulz

  /** E = I - X^T X */
  function Residual(x: Mat): Mat {
    MSub(ID, Gram(x))
  }

  // ----- the residual after one step

  lemma ResidualApply(x: Mat, v: Vec)
    ensures Apply(Residual(x), v) == VSub(v, Apply(Gram(x), v))
  {
    hide Dot, Apply, MSub, Mul, VSub;
    SubApply(ID, Gram(x), v);
    IdApply(v);
  }

  lemma GramOfStep(x: Mat)
    ensures Gram(Step(x)) == MScale(0.25, Mul(Corrector(x), Mul(Gram(x), Corrector(x))))
  {
    hide Mul, MScale, Transpose, Corrector, Symmetric;
    var k := Corrector(x);
    var y := Mul(x, k);
    TransposeScale(0.5, y);
    TransposeMul(x, k);
    CorrectorSymmetric(x);
    assert Transpose(k) == k by { SymmetricMeans(k); }
    MulScale(Transpose(y), 0.5, y);
    MulScale(MScale(0.5, Transpose(y)), 0.5, y);
    ScaleTwice(0.5, 0.5, Mul(Transpose(y), y));
    MulAssoc(k, Transpose(x), y);
    MulAssoc(Transpose(x), x, k);
    assert Mul(Transpose(y), y) == Mul(k, Mul(Gram(x), k));
  }

  lemma SymmetricMeans(k: Mat)
    requires Symmetric(k)
    ensures Transpose(k) == k
  {
  }

  lemma ScaleTwice(s: real, t: real, m: Mat)
    ensures MScale(s, MScale(t, m)) == MScale(Times(s, t), m)
  {
    hide VScale;
    VScaleTwice(s, t, m.r0);
    VScaleTwice(s, t, m.r1);
    VScaleTwice(s, t, m.r2);
  }

  /** I - X'^T X' = E (3I + E) E / 4. */
  function NextResidual(e: Mat): Mat {
    MScale(0.25, Mul(e, Mul(MAdd(MScale(3.0, ID), e), e)))
  }

  lemma ResidualStepAt(x: Mat, v: Vec)
    ensures Apply(Residual(Step(x)), v) == Apply(NextResidual(Residual(x)), v)
  {
    var g, k, e := Gram(x), Corrector(x), Residual(x);
    var v1 := Apply(g, v);
    var v2 := Apply(g, v1);
    var v3 := Apply(g, v2);
    ResidualApply(Step(x), v);
    GramOfStep(x);
    CorrectorApply(x, v);
    var c1 := VSub(VScale(3.0, v), v1);
    assert Apply(Mul(g, k), v) == VSub(VScale(3.0, v1), v2) by {
      hide Dot, Apply, Mul, Corrector, VSub, VScale;
      ApplyMul(g, k, v);
      ApplySub(g, VScale(3.0, v), v1);
      ApplyScale(g, 3.0, v);
    }
    var c2 := VSub(VScale(3.0, v1), v2);
    assert Apply(g, c2) == VSub(VScale(3.0, v2), v3) by {
      hide Dot, Apply, Mul, Corrector, VSub, VScale;
      ApplySub(g, VScale(3.0, v1), v2);
      ApplyScale(g, 3.0, v1);
    }
    var c3 := VSub(VScale(3.0, v2), v3);
    assert Apply(Gram(Step(x)), v) == VScale(0.25, VSub(VScale(3.0, c2), c3)) by {
      hide Dot, Apply, Mul, Corrector, VSub, VScale, MScale, Step;
      ScaleApply(0.25, Mul(k, Mul(g, k)), v);
      ApplyMul(k, Mul(g, k), v);
      CorrectorApply(x, c2);
    }
    // the right-hand side
    ResidualApply(x, v);
    var y1 := VSub(v, v1);
    var y2 := VAdd(VScale(3.0, y1), VSub(y1, VSub(v1, v2)));
    assert Apply(MAdd(MScale(3.0, ID), e), y1) == y2 by {
      hide Dot, Apply, Mul, Residual, VSub, VScale, VAdd, MScale, MAdd;
      AddApply(MScale(3.0, ID), e, y1);
      ScaleApply(3.0, ID, y1);
      IdApply(y1);
      ResidualApply(x, y1);
      ApplySub(g, v, v1);
    }
    assert Apply(g, y2) == VAdd(VScale(3.0, VSub(v1, v2)), VSub(VSub(v1, v2), VSub(v2, v3))) by {
      hide Dot, Apply, Mul, VSub, VScale, VAdd;
      ApplyAdd(g, VScale(3.0, y1), VSub(y1, VSub(v1, v2)));
      ApplyScale(g, 3.0, y1);
      ApplySub(g, v, v1);
      ApplySub(g, y1, VSub(v1, v2));
      ApplySub(g, v1, v2);
    }
    var y3 := VSub(y2, VAdd(VScale(3.0, VSub(v1, v2)), VSub(VSub(v1, v2), VSub(v2, v3))));
    assert Apply(NextResidual(e), v) == VScale(0.25, y3) by {
      hide Dot, Apply, Mul, Residual, VSub, VScale, VAdd, MScale, MAdd;
      var f := MAdd(MScale(3.0, ID), e);
      ScaleApply(0.25, Mul(e, Mul(f, e)), v);
      ApplyMul(e, Mul(f, e), v);
      ApplyMul(f, e, v);
      ResidualApply(x, y2);
    }
    hide Dot, Apply, Mul, Residual, NextResidual, Gram, Step, Corrector;
    ResidualCombination(v, v1, v2, v3);
  }

  /** v - (9 v1 - 6 v2 + v3)/4 = (4v - 9 v1 + 6 v2 - v3)/4, written out as the two sides above. */
  lemma ResidualCombination(v: Vec, v1: Vec, v2: Vec, v3: Vec)
    ensures VSub(v, VScale(0.25, VSub(VScale(3.0, VSub(VScale(3.0, v1), v2)), VSub(VScale(3.0, v2), v3))))
         == VScale(0.25, VSub(VAdd(VScale(3.0, VSub(v, v1)), VSub(VSub(v, v1), VSub(v1, v2))),
                              VAdd(VScale(3.0, VSub(v1, v2)), VSub(VSub(v1, v2), VSub(v2, v3)))))
  {
  }

  lemma ResidualStep(x: Mat)
    ensures Residual(Step(x)) == NextResidual(Residual(x))
  {
    hide Residual, NextResidual, Step, Apply;
    ResidualStepAt(x, E0);
    ResidualStepAt(x, E1);
    ResidualStepAt(x, E2);
    MatExt(Residual(Step(x)), NextResidual(Residual(x)));
  }

  // ----- the row-sum norm is submultiplicative

  lemma AbsSum(a: real, b: real)
    ensures Abs(a + b) <= Abs(a) + Abs(b)
    ensures Abs(Times(a, b)) == Times(Abs(a), Abs(b))
    ensures Abs(a) >= 0.0
  {
  }

  lemma RowSumAdd(u: Vec, v: Vec)
    ensures RowSum(VAdd(u, v)) <= RowSum(u) + RowSum(v)
  {
  }

  lemma RowSumScale(s: real, u: Vec)
    ensures RowSum(VScale(s, u)) == Times(Abs(s), RowSum(u))
  {
    hide Times, Abs;
    AbsSum(s, u.x);
    AbsSum(s, u.y);
    AbsSum(s, u.z);
    TimesAdd(Abs(s), Abs(u.x), Abs(u.y));
    TimesAdd(Abs(s), Abs(u.x) + Abs(u.y), Abs(u.z));
  }

  lemma RowCombination(b: Mat, u: Vec)
    ensures Apply(Transpose(b), u) == VAdd(VAdd(VScale(u.x, b.r0), VScale(u.y, b.r1)), VScale(u.z, b.r2))
  {
    hide Times;
    TimesComm(u.x, b.r0.x); TimesComm(u.x, b.r0.y); TimesComm(u.x, b.r0.z);
    TimesComm(u.y, b.r1.x); TimesComm(u.y, b.r1.y); TimesComm(u.y, b.r1.z);
    TimesComm(u.z, b.r2.x); TimesComm(u.z, b.r2.y); TimesComm(u.z, b.r2.z);
  }

  lemma RowSumApply(b: Mat, u: Vec)
    ensures RowSum(Apply(Transpose(b), u)) <= Times(RowSum(u), MaxRowSum(b))
  {
    RowBelowMax(b);
    RowCombination(b, u);
    AbsSum(u.x, 0.0); AbsSum(u.y, 0.0); AbsSum(u.z, 0.0);
    var n := MaxRowSum(b);
    var p, q, r := VScale(u.x, b.r0), VScale(u.y, b.r1), VScale(u.z, b.r2);
    assert RowSum(u) == Abs(u.x) + Abs(u.y) + Abs(u.z);
    hide Apply, RowSum, MaxRowSum, Times, Abs, VAdd, VScale;
    RowSumAdd(VAdd(p, q), r);
    RowSumAdd(p, q);
    RowSumScale(u.x, b.r0); RowSumScale(u.y, b.r1); RowSumScale(u.z, b.r2);
    TimesMonotone(Abs(u.x), Abs(u.x), RowSum(b.r0), n);
    TimesMonotone(Abs(u.y), Abs(u.y), RowSum(b.r1), n);
    TimesMonotone(Abs(u.z), Abs(u.z), RowSum(b.r2), n);
    TimesAdd(n, Abs(u.x), Abs(u.y));
    TimesAdd(n, Abs(u.x) + Abs(u.y), Abs(u.z));
  }

  lemma MaxRowSumMul(a: Mat, b: Mat)
    ensures MaxRowSum(Mul(a, b)) <= Times(MaxRowSum(a), MaxRowSum(b))
  {
    RowBelowMax(a);
    RowBelowMax(b);
    var m, n := MaxRowSum(a), MaxRowSum(b);
    RowSumApply(b, a.r0); RowSumApply(b, a.r1); RowSumApply(b, a.r2);
    TimesMonotone(RowSum(a.r0), m, n, n);
    TimesMonotone(RowSum(a.r1), m, n, n);
    TimesMonotone(RowSum(a.r2), m, n, n);
    TimesNonNegative(m, n);
    hide Apply, RowSum, Times, Transpose;
    MaxOfThree(Mul(a, b), Times(m, n));
  }

  lemma MaxOfThree(m: Mat, c: real)
    requires c >= 0.0 && RowSum(m.r0) <= c && RowSum(m.r1) <= c && RowSum(m.r2) <= c
    ensures MaxRowSum(m) <= c
  {
  }

  lemma MaxRowSumScale(s: real, m: Mat)
    requires s >= 0.0
    ensures MaxRowSum(MScale(s, m)) <= Times(s, MaxRowSum(m))
  {
    RowBelowMax(m);
    var c := MaxRowSum(m);
    RowSumScale(s, m.r0); RowSumScale(s, m.r1); RowSumScale(s, m.r2);
    TimesMonotone(s, s, RowSum(m.r0), c);
    TimesMonotone(s, s, RowSum(m.r1), c);
    TimesMonotone(s, s, RowSum(m.r2), c);
    TimesNonNegative(s, c);
    hide RowSum, Times, VScale;
    MaxOfThree(MScale(s, m), Times(s, c));
  }

  lemma ThreeRows()
    ensures var t := MScale(3.0, ID); RowSum(t.r0) == 3.0 && RowSum(t.r1) == 3.0 && RowSum(t.r2) == 3.0
  {
    hide VScale;
    RowSumScale(3.0, E0);
    RowSumScale(3.0, E1);
    RowSumScale(3.0, E2);
  }

  lemma MaxRowSumShift(e: Mat)
    ensures MaxRowSum(MAdd(MScale(3.0, ID), e)) <= 3.0 + MaxRowSum(e)
  {
    hide RowSum, VAdd, MScale, MaxRowSum;
    RowBelowMax(e);
    var t := MScale(3.0, ID);
    ThreeRows();
    RowSumAdd(t.r0, e.r0); RowSumAdd(t.r1, e.r1); RowSumAdd(t.r2, e.r2);
    MaxOfThree(MAdd(t, e), 3.0 + MaxRowSum(e));
  }

  // ----- quadratic convergence

  /** One step takes a residual row sum e <= 1 to at most e^2 (3 + e) / 4 <= e^2. */
  lemma QuadraticStep(x: Mat, e: real)
    requires MaxRowSum(Residual(x)) <= e <= 1.0
    ensures MaxRowSum(Residual(Step(x))) <= e * e * (3.0 + e) / 4.0 <= Times(e, e)
  {
    hide MaxRowSum, Residual, Step, Mul, MAdd, MScale;
    ResidualStep(x);
    var r := Residual(x);
    var n := MaxRowSum(r);
    var f := MAdd(MScale(3.0, ID), r);
    MaxNonNegative(r); MaxNonNegative(f); MaxNonNegative(Mul(f, r)); MaxNonNegative(Mul(r, Mul(f, r)));
    MaxRowSumScale(0.25, Mul(r, Mul(f, r)));
    MaxRowSumMul(r, Mul(f, r));
    MaxRowSumMul(f, r);
    MaxRowSumShift(r);
    QuadraticScalar(n, e, MaxRowSum(f), MaxRowSum(Mul(f, r)), MaxRowSum(Mul(r, Mul(f, r))),
      MaxRowSum(Residual(Step(x))));
  }

  lemma MaxNonNegative(m: Mat)
    ensures MaxRowSum(m) >= 0.0
  {
  }

  lemma QuadraticScalar(n: real, e: real, f: real, a: real, b: real, c: real)
    requires 0.0 <= n <= e <= 1.0 && 0.0 <= f <= 3.0 + n && 0.0 <= a <= Times(f, n) && 0.0 <= b <= Times(n, a)
    requires c <= Times(0.25, b)
    ensures c <= e * e * (3.0 + e) / 4.0 <= Times(e, e)
  {
    TimesMonotone(f, 3.0 + e, n, e);
    TimesMonotone(n, e, a, Times(3.0 + e, e));
    assert Times(e, Times(3.0 + e, e)) == e * e * (3.0 + e);
    TimesMonotone(e, 1.0, Times(e, e), Times(e, e));
    assert Times(e, Times(e, e)) == e * e * e;
    assert Times(1.0, Times(e, e)) == e * e;
  }

  function Pow(e: real, n: nat): real {
    if n == 0 then 1.0 else Times(e, Pow(e, n - 1))
  }

  function Exp2(k: nat): nat {
    if k == 0 then 1 else 2 * Exp2(k - 1)
  }

  lemma {:induction false} PowAdd(e: real, a: nat, b: nat)
    ensures Pow(e, a + b) == Times(Pow(e, a), Pow(e, b))
  {
    hide Times;
    if a == 0 {
      TimesOne(Pow(e, b));
    } else {
      PowAdd(e, a - 1, b);
      TimesAssoc(e, Pow(e, a - 1), Pow(e, b));
    }
  }

  lemma {:induction false} PowUnit(e: real, n: nat)
    requires 0.0 <= e <= 1.0
    ensures 0.0 <= Pow(e, n) <= 1.0
  {
    if n > 0 {
      PowUnit(e, n - 1);
      Shrink(e, Pow(e, n - 1));
    }
  }

  /** k steps bring the residual row sum from e <= 1 to at most e^(2^k). */
  lemma {:induction false} QuadraticConvergence(x: Mat, e: real, k: nat)
    requires MaxRowSum(Residual(x)) <= e <= 1.0
    ensures MaxRowSum(Residual(Iterate(x, k))) <= Pow(e, Exp2(k))
  {
    hide MaxRowSum, Residual, Step;
    if k == 0 {
      assert Pow(e, 1) == Times(e, Pow(e, 0));
      hide Times;
      TimesOne(e);
    } else {
      QuadraticConvergence(x, e, k - 1);
      var p := Exp2(k - 1);
      MaxNonNegative(Residual(x));
      PowUnit(e, p);
      QuadraticStep(Iterate(x, k - 1), Pow(e, p));
      PowAdd(e, p, p);
    }
  }

  // ----- the smallest squared singular value

  /** What one step does to a squared singular value: g (3 - g)^2 / 4. */
  function Climb(g: real): real {
    g * (3.0 - g) * (3.0 - g) / 4.0
  }

  lemma ContractsAt(x: Mat, c: real, v: Vec)
    requires Contracts(x, c)
    ensures Norm2(x, v) <= c * Dot(v, v)
  {
    hide Norm2, Dot;
  }

  lemma ExpandsAt(x: Mat, m: real, v: Vec)
    requires Expands(x, m)
    ensures Norm2(x, v) >= m * Dot(v, v)
  {
    hide Norm2, Dot;
  }

  /** For m I <= X^T X <= I the step raises the lower bound to Climb(m). */
  lemma StepExpands(x: Mat, m: real)
    requires Contracts(x, 1.0) && Expands(x, m) && 0.0 <= m < 1.0
    ensures Expands(Step(x), Climb(m))
  {
    hide Dot, Norm2, Step, Climb, Contracts;
    forall v
      ensures Norm2(Step(x), v) >= Climb(m) * Dot(v, v)
    {
      StepExpandsAt(x, m, v);
    }
  }

  lemma StepExpandsAt(x: Mat, m: real, v: Vec)
    requires Contracts(x, 1.0) && Expands(x, m) && 0.0 <= m < 1.0
    ensures Norm2(Step(x), v) >= Climb(m) * Dot(v, v)
  {
    hide *;
    var g := Apply(Gram(x), v);
    var y := VSub(v, g);
    var z := VSub(VScale(m, v), g);
    StepNorm(x, v);
    UnitResidual(x, v);
    ScaledResidual(x, v, m);
    ExpandsAt(x, m, y);
    ContractsAt(x, 1.0, z);
    ExpandsAt(x, m, v);
    TimesRaw(m, Dot(y, y));
    TimesRaw(m, Dot(v, v));
    ClimbMoments(m, Dot(v, v), Norm2(x, v), Dot(g, g), Norm2(x, g), Dot(y, y), Norm2(x, y), Dot(z, z), Norm2(x, z),
                 Norm2(Step(x), v));
  }

  lemma UnitResidual(x: Mat, v: Vec)
    ensures var g := Apply(Gram(x), v);
            && Dot(VSub(v, g), VSub(v, g)) == Dot(v, v) - 2.0 * Norm2(x, v) + Dot(g, g)
            && Norm2(x, VSub(v, g)) == Norm2(x, v) - 2.0 * Dot(g, g) + Norm2(x, g)
  {
    hide Dot, Norm2, Apply, VSub, VScale;
    OneScale(v);
    OneScale(Apply(Gram(x), v));
    ResidualMoments(x, v, 1.0, 1.0);
  }

  lemma ScaledResidual(x: Mat, v: Vec, m: real)
    ensures var g := Apply(Gram(x), v);
            var z := VSub(VScale(m, v), g);
            && Dot(z, z) == Times(m, Times(m, Dot(v, v))) - 2.0 * Times(m, Norm2(x, v)) + Dot(g, g)
            && Norm2(x, z) == Times(m, Times(m, Norm2(x, v))) - 2.0 * Times(m, Dot(g, g)) + Norm2(x, g)
  {
    hide Dot, Norm2, Apply, VSub, VScale;
    OneScale(Apply(Gram(x), v));
    ResidualMoments(x, v, m, 1.0);
  }

  /** 4 |X'v|^2 - 4 Climb(m) |v|^2 as a sum of non-negative forms in the moments of G at v. */
  lemma ClimbMoments(m: real, m0: real, m1: real, m2: real, m3: real,
                     yy: real, xy: real, zz: real, xz: real, s: real)
    requires 0.0 <= m < 1.0
    requires yy == m0 - 2.0 * m1 + m2
    requires xy == m1 - 2.0 * m2 + m3
    requires zz == Times(m, Times(m, m0)) - 2.0 * Times(m, m1) + m2
    requires xz == Times(m, Times(m, m1)) - 2.0 * Times(m, m2) + m3
    requires xy >= Times(m, yy) && xz <= 1.0 * zz && m1 >= Times(m, m0)
    requires 4.0 * s == 9.0 * m1 - 6.0 * m2 + m3
    ensures s >= Climb(m) * m0
  {
    hide Times, Climb;
    var k0, k1, k2 := Times(m, m0), Times(m, m1), Times(m, m2);
    var l0, l1 := Times(m, k0), Times(m, k1);
    var q1 := m1 - k0;
    var q2 := m1 + k1 - m2 - k0;
    var q3 := xy - Times(m, yy);
    TimesMoments(m, m0, m1, m2);
    TimesDifference(m, m1, k0);
    TimesDifference(m, k1, l0);
    TimesFour(m, m1, k1, m2, k0);
    ClimbScalar(m, q1, q2, q3, zz - xz);
    ClimbTimes(m, m0);
  }

  lemma TimesMoments(m: real, m0: real, m1: real, m2: real)
    ensures Times(m, m0 - 2.0 * m1 + m2) == Times(m, m0) - 2.0 * Times(m, m1) + Times(m, m2)
  {
  }

  lemma TimesDifference(m: real, a: real, b: real)
    ensures Times(m, a - b) == Times(m, a) - Times(m, b)
  {
  }

  lemma TimesFour(m: real, a: real, b: real, c: real, d: real)
    ensures Times(m, a + b - c - d) == Times(m, a) + Times(m, b) - Times(m, c) - Times(m, d)
  {
  }

  lemma ClimbTimes(m: real, m0: real)
    ensures 4.0 * (Climb(m) * m0)
         == 9.0 * Times(m, m0) - 6.0 * Times(m, Times(m, m0)) + Times(m, Times(m, Times(m, m0)))
  {
    assert 4.0 * (m * (3.0 - m) * (3.0 - m) / 4.0 * m0) == 9.0 * (m * m0) - 6.0 * (m * (m * m0)) + m * (m * (m * m0));
  }

  lemma OneLess(k: real, m: real, q: real)
    ensures Times(k - m, q) == k * q - Times(m, q)
  {
  }

  lemma ClimbScalar(m: real, q1: real, q2: real, q3: real, r: real)
    requires 0.0 <= m < 1.0
    requires q1 >= 0.0 && q3 >= 0.0 && r >= 0.0 && q2 - Times(m, q2) == q3 + r
    ensures q3 + 4.0 * q2 - Times(m, q2) + 4.0 * q1 - 5.0 * Times(m, q1) + Times(m, Times(m, q1)) >= 0.0
  {
    var p1 := Times(1.0 - m, q1);
    OneLess(1.0, m, q2); OneLess(4.0, m, q2); OneLess(1.0, m, q1); OneLess(4.0, m, p1);
    TimesAdd(m, q1, Times(m, q1));
    TimesAdd(1.0 - m, 0.0, q2);
    ZeroTimes(1.0 - m);
    hide Times;
    if q2 < 0.0 {
      TimesPositive(1.0 - m, -q2);
    } else {
      TimesNonNegative(4.0 - m, q2);
    }
    TimesNonNegative(1.0 - m, q1);
    TimesNonNegative(4.0 - m, p1);
  }

  /** The first step: m I <= X^T X <= (3 - d) I gives X'^T X' >= (m d^2 / 4) I. */
  lemma FirstStepExpands(x: Mat, m: real, d: real)
    requires Expands(x, m) && Contracts(x, 3.0 - d) && m >= 0.0 && d >= 0.0
    ensures Expands(Step(x), m * d * d / 4.0)
  {
    hide Dot, Norm2, Step, Contracts;
    forall v
      ensures Norm2(Step(x), v) >= m * d * d / 4.0 * Dot(v, v)
    {
      FirstStepExpandsAt(x, m, d, v);
    }
  }

  lemma FirstStepExpandsAt(x: Mat, m: real, d: real, v: Vec)
    requires Expands(x, m) && Contracts(x, 3.0 - d) && m >= 0.0 && d >= 0.0
    ensures Norm2(Step(x), v) >= m * d * d / 4.0 * Dot(v, v)
  {
    hide *;
    var w := VSub(VScale(3.0, v), Apply(Gram(x), v));
    StepApply(x, v);
    HalfNorm(x, w, v);
    ExpandsAt(x, m, w);
    ContractsAt(x, 3.0 - d, v);
    CorrectorDot(x, v, w);
    CauchySchwarz(v, w);
    DotSelf(v);
    DotSelf(w);
    FirstScalar(m, d, Dot(v, v), Norm2(x, v), Dot(v, w), Dot(w, w), Norm2(x, w), Norm2(Step(x), v));
  }

  lemma CorrectorDot(x: Mat, v: Vec, w: Vec)
    requires w == VSub(VScale(3.0, v), Apply(Gram(x), v))
    ensures Dot(v, w) == 3.0 * Dot(v, v) - Norm2(x, v)
  {
    hide Dot, Apply, Corrector, Norm2;
    CorrectorApply(x, v);
    CorrectorQuad(x, v);
  }

  lemma HalfNorm(x: Mat, w: Vec, v: Vec)
    requires Apply(Step(x), v) == VScale(0.5, Apply(x, w))
    ensures 4.0 * Norm2(Step(x), v) == Norm2(x, w)
  {
    hide Dot, VScale, Apply, Step;
    var u := Apply(x, w);
    DotScale(VScale(0.5, u), 0.5, u);
    DotScale(u, 0.5, u);
  }

  lemma FirstScalar(m: real, d: real, m0: real, m1: real, vw: real, ww: real, xw: real, s: real)
    requires m >= 0.0 && d >= 0.0 && m0 >= 0.0 && ww >= 0.0
    requires m1 <= (3.0 - d) * m0 && vw == 3.0 * m0 - m1 && Times(vw, vw) <= Times(m0, ww)
    requires xw >= m * ww && 4.0 * s == xw
    ensures s >= m * d * d / 4.0 * m0
  {
    var t := Times(d, m0);
    TimesRaw(d, m0);
    assert vw >= t >= 0.0;
    var dd := Times(d, d);
    SquareOfProduct(d, m0);
    hide Times;
    TimesMonotone(t, vw, t, vw);
    Cancel(m0, Times(dd, m0), ww);
    LinearBound(m, Times(dd, m0), ww);
    ProductOrder(m, d, m0);
  }

  lemma SquareOfProduct(d: real, n: real)
    ensures Times(Times(d, n), Times(d, n)) == Times(n, Times(Times(d, d), n))
    ensures n == 0.0 ==> Times(Times(d, d), n) == 0.0
  {
    assert (d * n) * (d * n) == n * ((d * d) * n);
  }

  lemma ProductOrder(m: real, d: real, n: real)
    ensures m * Times(Times(d, d), n) == 4.0 * (m * d * d / 4.0 * n)
  {
  }

  lemma Cancel(a: real, b: real, c: real)
    requires a >= 0.0 && Times(a, b) <= Times(a, c) && c >= 0.0 && (a == 0.0 ==> b == 0.0)
    ensures b <= c
  {
    assert Times(a, b - c) == Times(a, b) - Times(a, c);
    if b > c && a > 0.0 {
      TimesPositive(a, b - c);
    }
  }

  /** X^T X >= m I and a sum of squares below 3 leave at most 3 - 2m for the largest eigenvalue. */
  lemma UpperFromLower(x: Mat, m: real)
    requires Expands(x, m) && Frobenius(x) < 3.0
    ensures Contracts(x, 3.0 - 2.0 * m)
  {
    hide Dot, Norm2, Trace, MSub, MScale, Gram, Psd, Frobenius, Expands;
    var b := MSub(Gram(x), MScale(m, ID));
    ShiftedGramPsd(x, m);
    ShiftedTrace(x, m);
    forall v
      ensures Norm2(x, v) <= (3.0 - 2.0 * m) * Dot(v, v)
    {
      TraceDominates(b, v);
      ShiftedGramQuad(x, m, v);
      DotSelf(v);
      UpperScalar(Norm2(x, v), m, Dot(v, v), Trace(b), Frobenius(x));
    }
  }

  lemma UpperScalar(n: real, m: real, d: real, t: real, f: real)
    requires d >= 0.0 && f < 3.0 && t == f - 3.0 * m && n - m * d <= t * d
    ensures n <= (3.0 - 2.0 * m) * d
  {
    TimesNonNegative(3.0 - f, d);
    assert Times(3.0 - f, d) == 3.0 * d - f * d;
    assert t * d == f * d - 3.0 * (m * d);
  }

  lemma ShiftedGramQuad(x: Mat, m: real, v: Vec)
    ensures Quad(MSub(Gram(x), MScale(m, ID)), v) == Norm2(x, v) - m * Dot(v, v)
  {
    hide Dot, Apply, MSub, MScale, Mul, VSub, VScale;
    SubApply(Gram(x), MScale(m, ID), v);
    ScaleApply(m, ID, v);
    IdApply(v);
    DotSub(v, Apply(Gram(x), v), VScale(m, v));
    DotScale(v, m, v);
    GramDot(x, v, v);
  }

  lemma ShiftedGramPsd(x: Mat, m: real)
    requires Expands(x, m)
    ensures Psd(MSub(Gram(x), MScale(m, ID)))
  {
    hide Dot, Norm2, Mul, MSub, MScale, Quad;
    GramSymmetric(x);
    ScaledIdSymmetric(m);
    SubSymmetric(Gram(x), MScale(m, ID));
    forall v
      ensures Quad(MSub(Gram(x), MScale(m, ID)), v) >= 0.0
    {
      ShiftedGramQuad(x, m, v);
      assert Norm2(x, v) >= m * Dot(v, v);
    }
  }

  lemma ScaledIdSymmetric(m: real)
    ensures Symmetric(MScale(m, ID))
  {
  }

  lemma ScaledIdTrace(m: real)
    ensures Trace(MScale(m, ID)) == 3.0 * m
  {
  }

  lemma ShiftedTrace(x: Mat, m: real)
    ensures Trace(MSub(Gram(x), MScale(m, ID))) == Frobenius(x) - 3.0 * m
  {
    hide Dot, MScale, Mul;
    ScaledIdTrace(m);
    InnerTrace(x, x);
  }

  // ----- thirty steps are enough

  lemma ClimbMonotone(a: real, b: real)
    requires 0.0 <= a <= b <= 1.0
    ensures Climb(a) <= Climb(b)
  {
    var p, q := 1.0 - a, 1.0 - b;
    var slope := p * p + p * q + q * q + 3.0 * p + 3.0 * q;
    TimesNonNegative(p, p); TimesNonNegative(p, q); TimesNonNegative(q, q);
    assert slope >= 0.0;
    TimesNonNegative(b - a, slope);
    ClimbDifference(a, b);
    assert Times(b - a, slope) == 4.0 * (Climb(b) - Climb(a));
  }

  lemma ClimbDifference(a: real, b: real)
    ensures (b - a) * ((1.0 - a) * (1.0 - a) + (1.0 - a) * (1.0 - b) + (1.0 - b) * (1.0 - b) + 3.0 * (1.0 - a)
            + 3.0 * (1.0 - b))
         == 4.0 * (b * (3.0 - b) * (3.0 - b) / 4.0 - a * (3.0 - a) * (3.0 - a) / 4.0)
  {
  }

  lemma ClimbRange(a: real)
    requires 0.0 <= a < 1.0
    ensures a <= Climb(a) < 1.0
  {
    var b := 1.0 - a;
    TimesPositive(b, b);
    TimesPositive(Times(b, b), 4.0 - a);
    assert 4.0 * (1.0 - Climb(a)) == Times(Times(b, b), 4.0 - a);
    ClimbGrows(a);
  }

  lemma ClimbGrows(a: real)
    requires 0.0 <= a <= 1.0
    ensures a <= Climb(a)
  {
    var t := (1.0 - a) * (5.0 - a);
    assert t >= 0.0;
    assert a * t >= 0.0;
    assert 4.0 * (Climb(a) - a) == a * t;
  }

  lemma ClimbDoubles(a: real)
    requires 0.0 <= a <= 0.17
    ensures Climb(a) >= 2.0 * a
  {
    var t := 1.0 - 6.0 * a + a * a;
    assert t >= 0.0 by { assert (0.17 - a) * (5.83 - a) >= 0.0; }
    assert 4.0 * (Climb(a) - 2.0 * a) == a * t;
  }

  /** A round lower bound on Climb(p). */
  function NextLevel(p: real): real {
    if p <= 0.17 then 2.0 * p
    else if p < 0.34 then 0.34 else if p < 0.6 then 0.6 else if p < 0.86 then 0.86
    else if p < 0.984 then 0.984 else if p < 0.9998 then 0.9998 else if p < 0.999999 then 0.999999 else p
  }

  lemma NextLevelBelowClimb(p: real)
    requires 0.0 < p < 1.0
    ensures p <= NextLevel(p) <= Climb(p) < 1.0
  {
    ClimbRange(p);
    if p <= 0.17 {
      ClimbDoubles(p);
    } else if p < 0.34 {
      ClimbMonotone(0.17, p);
    } else if p < 0.6 {
      ClimbMonotone(0.34, p);
    } else if p < 0.86 {
      ClimbMonotone(0.6, p);
    } else if p < 0.984 {
      ClimbMonotone(0.86, p);
    } else if p < 0.9998 {
      ClimbMonotone(0.984, p);
    } else if p < 0.999999 {
      ClimbMonotone(0.9998, p);
    }
  }

  /** A guaranteed lower bound on the squared singular values after 1 + k steps. */
  function Level(k: nat): real {
    if k == 0 then 0.000001 else NextLevel(Level(k - 1))
  }

  lemma LevelAfterThirtySteps()
    ensures Level(29) == 0.999999
  {
    assert Level(1) == 0.000002;
    assert Level(3) == 0.000008;
    assert Level(5) == 0.000032;
    assert Level(7) == 0.000128;
    assert Level(9) == 0.000512;
    assert Level(11) == 0.002048;
    assert Level(13) == 0.008192;
    assert Level(15) == 0.032768;
    assert Level(17) == 0.131072;
    assert Level(19) == 0.34;
    assert Level(21) == 0.86;
    assert Level(23) == 0.9998;
    assert Level(25) == 0.999999;
    assert Level(27) == 0.999999;
  }

  lemma ExpandsWeaken(x: Mat, m: real, l: real)
    requires Expands(x, m) && l <= m
    ensures Expands(x, l)
  {
    hide Dot, Norm2;
    forall v
      ensures Norm2(x, v) >= l * Dot(v, v)
    {
      ExpandsAt(x, m, v);
      DotSelf(v);
      LinearBound(Dot(v, v), l, m);
    }
  }

  /** The first step leaves squared singular values of at least 1e-6: the covariance is within reach of thirty steps. */
  ghost predicate Ready(h: Mat) {
    Expands(Iterate(Start(h), 1), 0.000001)
  }

  /** A start whose squared singular values are at least 1/100 is within reach. */
  lemma StartReady(h: Mat)
    requires Expands(Start(h), 0.01)
    ensures Ready(h)
  {
    hide Expands, Contracts, Step, Start, Frobenius;
    var x := Start(h);
    StartBounded(h);
    UpperFromLower(x, 0.01);
    FirstStepExpands(x, 0.01, 0.02);
    assert Iterate(x, 1) == Step(Iterate(x, 0)) == Step(x);
    ExpandsWeaken(Step(x), 0.01 * 0.02 * 0.02 / 4.0, 0.000001);
  }

  /** So is a start that stretches nothing and shrinks no squared length below 1e-6. */
  lemma ContractionReady(h: Mat)
    requires Contracts(Start(h), 1.0) && Expands(Start(h), 0.000001)
    ensures Ready(h)
  {
    hide Expands, Contracts, Step, Start, Climb;
    var x := Start(h);
    StepExpands(x, 0.000001);
    ClimbGrows(0.000001);
    assert Iterate(x, 1) == Step(Iterate(x, 0)) == Step(x);
    ExpandsWeaken(Step(x), Climb(0.000001), 0.000001);
  }

  lemma {:induction false} ClimbsLevels(h: Mat, k: nat)
    requires Ready(h)
    ensures Expands(Iterate(Start(h), k + 1), Level(k)) && 0.0 < Level(k) < 1.0
  {
    hide Expands, Contracts, Step, Climb, NextLevel, Start;
    if k > 0 {
      var x, l := Iterate(Start(h), k), Level(k - 1);
      ClimbsLevels(h, k - 1);
      NeverDiverges(h, k);
      StepExpands(x, l);
      NextLevelBelowClimb(l);
      ExpandsWeaken(Step(x), Climb(l), Level(k));
    }
  }

  /** Thirty steps bring every squared singular value into [1 - 1e-6, 1]. */
  lemma ThirtyStepsConverge(h: Mat)
    requires Ready(h)
    ensures var x := Iterate(Start(h), 30); Expands(x, 0.999999) && Contracts(x, 1.0)
  {
    hide Ready, Expands, Contracts, Iterate, Start;
    ClimbsLevels(h, 29);
    LevelAfterThirtySteps();
    NeverDiverges(h, 30);
  }
}
