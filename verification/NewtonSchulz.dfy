/**
 The Newton-Schulz orthogonalisation of `sinew_ns30` (src/gen/sinew_align.c:103-137):
 scale h by its largest absolute row sum, take 30 steps X -> X (3I - X^T X) / 2, and negate the
 last column when the determinant came out negative.
 */
module NewtonSchulz {
  import opened LinAlg
  import opened Forms

  const EPS := 0.00000001

  function Max(a: real, b: real): real {
    if a < b then b else a
  }

  function RowSum(v: Vec): real {
    Abs(v.x) + Abs(v.y) + Abs(v.z)
  }

  function MaxRowSum(m: Mat): real {
    Max(Max(Max(0.0, RowSum(m.r0)), RowSum(m.r1)), RowSum(m.r2))
  }

  function Start(h: Mat): Mat {
    MScale(1.0 / (MaxRowSum(h) + EPS), h)
  }

  /** 3I - X^T X */
  function Corrector(x: Mat): Mat {
    MSub(MScale(3.0, ID), Gram(x))
  }

  function Step(x: Mat): Mat {
    MScale(0.5, Mul(x, Corrector(x)))
  }

  function Iterate(x: Mat, k: nat): Mat {
    if k == 0 then x else Step(Iterate(x, k - 1))
  }

  function FlipColumn(x: Mat): Mat {
    Mat(Vec(x.r0.x, x.r0.y, -x.r0.z), Vec(x.r1.x, x.r1.y, -x.r1.z), Vec(x.r2.x, x.r2.y, -x.r2.z))
  }

  function MakeProper(x: Mat): Mat {
    if Det(x) < 0.0 then FlipColumn(x) else x
  }

  function Ns30(h: Mat): Mat {
    MakeProper(Iterate(Start(h), 30))
  }

  /** |Xv|^2 */
  function Norm2(x: Mat, v: Vec): real {
    Dot(Apply(x, v), Apply(x, v))
  }

  /** |Xv|^2 <= c |v|^2 for every v. */
  ghost predicate Contracts(x: Mat, c: real) {
    forall v :: Norm2(x, v) <= c * Dot(v, v)
  }

  /** |Xv|^2 >= m |v|^2 for every v. */
  ghost predicate Expands(x: Mat, m: real) {
    forall v :: Norm2(x, v) >= m * Dot(v, v)
  }

  // ----- the start

  function Frobenius(m: Mat): real {
    Inner(m, m)
  }

  lemma RowSquares(v: Vec)
    ensures Dot(v, v) <= Times(RowSum(v), RowSum(v))
  {
    var a, b, c := Abs(v.x), Abs(v.y), Abs(v.z);
    DotRaw(v, v);
    assert v.x * v.x == a * a && v.y * v.y == b * b && v.z * v.z == c * c;
    assert Times(a + b + c, a + b + c) == a * a + b * b + c * c + 2.0 * (a * b) + 2.0 * (a * c) + 2.0 * (b * c);
    assert a * b >= 0.0 && a * c >= 0.0 && b * c >= 0.0;
  }

  lemma RowBelowMax(m: Mat)
    ensures 0.0 <= RowSum(m.r0) <= MaxRowSum(m)
    ensures 0.0 <= RowSum(m.r1) <= MaxRowSum(m)
    ensures 0.0 <= RowSum(m.r2) <= MaxRowSum(m)
  {
  }

  /** A row of absolute sum at most r, divided by r + EPS, has squared length below 1. */
  lemma ScaledRow(v: Vec, r: real)
    requires RowSum(v) <= r
    ensures Dot(VScale(1.0 / (r + EPS), v), VScale(1.0 / (r + EPS), v)) < 1.0
  {
    hide Dot, VScale, RowSum, Times;
    RowSumNonNegative(v);
    var s := 1.0 / (r + EPS);
    var w := VScale(s, v);
    RowSquares(v);
    DotScale(w, s, v);
    DotScale(v, s, v);
    DotSelf(v);
    ScaledRowScalar(RowSum(v), r, s, Dot(v, v), Dot(w, v), Dot(w, w));
  }

  lemma RowSumNonNegative(v: Vec)
    ensures RowSum(v) >= 0.0
  {
  }

  lemma ScaledRowScalar(a: real, r: real, s: real, n: real, wv: real, ww: real)
    requires 0.0 <= a <= r && s == 1.0 / (r + EPS) && 0.0 <= n <= Times(a, a) && wv == s * n && ww == s * wv
    ensures ww < 1.0
  {
    var t := Times(s, a);
    FractionBelowOne(a, r, s, t);
    TimesRaw(s, n); TimesRaw(s, wv);
    hide Times;
    TimesSquare(t);
    TimesMonotone(s, s, n, Times(a, a));
    TimesAssoc(s, a, a);
    TimesNonNegative(t, a);
    TimesNonNegative(s, n);
    TimesMonotone(s, s, wv, Times(t, a));
    TimesComm(t, a); TimesAssoc(s, a, t);
    TimesMonotone(t, t, t, 1.0);
    TimesOne(t);
  }

  lemma TimesNonNegative(a: real, b: real)
    requires a >= 0.0 && b >= 0.0
    ensures Times(a, b) >= 0.0
  {
  }

  lemma TimesOne(t: real)
    ensures Times(t, 1.0) == t && Times(1.0, t) == t
  {
  }

  lemma FractionBelowOne(a: real, r: real, s: real, t: real)
    requires 0.0 <= a <= r && s == 1.0 / (r + EPS) && t == Times(s, a)
    ensures s > 0.0 && 0.0 <= t < 1.0
  {
    var d := r + EPS;
    assert s * d == 1.0;
    TimesPositive(s, d - a);
    assert Times(s, d - a) == s * d - s * a;
  }

  /** For every h the scaled start has a sum of squares below 3. */
  lemma StartBounded(h: Mat)
    ensures Frobenius(Start(h)) < 3.0
  {
    hide Dot, VScale, MaxRowSum, RowSum;
    RowBelowMax(h);
    ScaledRow(h.r0, MaxRowSum(h));
    ScaledRow(h.r1, MaxRowSum(h));
    ScaledRow(h.r2, MaxRowSum(h));
  }

  /** The start is h divided by the largest absolute row sum plus 1e-8. */
  lemma StartScales(h: Mat)
    ensures var k := MaxRowSum(h);
            && MScale(k + 0.00000001, Start(h)) == h
            && k >= RowSum(h.r0) && k >= RowSum(h.r1) && k >= RowSum(h.r2)
            && (k == RowSum(h.r0) || k == RowSum(h.r1) || k == RowSum(h.r2))
  {
    RowBelowMax(h);
    hide RowSum, Times, MaxRowSum;
    var r := MaxRowSum(h) + EPS;
    Reciprocal(r);
    ScaledBack(r, h.r0); ScaledBack(r, h.r1); ScaledBack(r, h.r2);
    LargestIsOne(h);
  }

  lemma ScaledBack(r: real, v: Vec)
    requires r > 0.0
    ensures VScale(r, VScale(1.0 / r, v)) == v
  {
    hide Times, VScale;
    VScaleTwice(r, 1.0 / r, v);
    Reciprocal(r);
    OneScale(v);
  }

  lemma LargestIsOne(h: Mat)
    ensures var k := MaxRowSum(h); k == RowSum(h.r0) || k == RowSum(h.r1) || k == RowSum(h.r2)
  {
    RowSumNonNegative(h.r0);
    hide RowSum;
  }

  lemma FrobeniusBound(x: Mat, v: Vec)
    ensures Norm2(x, v) <= Frobenius(x) * Dot(v, v)
  {
    hide Dot;
    var u := Apply(x, v);
    var n := Dot(v, v);
    CauchySchwarz(x.r0, v);
    CauchySchwarz(x.r1, v);
    CauchySchwarz(x.r2, v);
    DotRaw(u, u);
    TimesRaw(u.x, u.x); TimesRaw(u.y, u.y); TimesRaw(u.z, u.z);
    TimesRaw(Dot(x.r0, x.r0), n); TimesRaw(Dot(x.r1, x.r1), n); TimesRaw(Dot(x.r2, x.r2), n);
  }

  // ----- moments of one step

  lemma CorrectorApply(x: Mat, v: Vec)
    ensures Apply(Corrector(x), v) == VSub(VScale(3.0, v), Apply(Gram(x), v))
  {
    hide Dot, Apply, MScale, MSub, VSub, VScale, Mul;
    SubApply(MScale(3.0, ID), Gram(x), v);
    ScaleApply(3.0, ID, v);
    IdApply(v);
  }

  lemma StepApply(x: Mat, v: Vec)
    ensures Apply(Step(x), v) == VScale(0.5, Apply(x, VSub(VScale(3.0, v), Apply(Gram(x), v))))
  {
    hide Dot, Apply, MScale, MSub, VSub, VScale, Mul, Corrector;
    ScaleApply(0.5, Mul(x, Corrector(x)), v);
    ApplyMul(x, Corrector(x), v);
    CorrectorApply(x, v);
  }

  /** |a u - b w|^2 for vectors with known inner products. */
  lemma NormDifference(a: real, u: Vec, b: real, w: Vec)
    ensures Dot(VSub(VScale(a, u), VScale(b, w)), VSub(VScale(a, u), VScale(b, w)))
         == a * a * Dot(u, u) - 2.0 * (a * b) * Dot(u, w) + b * b * Dot(w, w)
  {
    hide Dot, VSub, VScale;
    var p, q := VScale(a, u), VScale(b, w);
    DotSub(VSub(p, q), p, q);
    DotSub(p, p, q);
    DotSub(q, p, q);
    DotScale(p, a, u); DotScale(u, a, u);
    DotScale(p, b, w); DotScale(u, a, w); DotScale(w, a, u);
    DotScale(q, a, u); DotScale(u, b, w); DotScale(w, b, u);
    DotScale(q, b, w); DotScale(w, b, w);
    DotComm(u, w); DotComm(p, w); DotComm(q, u); DotComm(p, q);
  }

  /** For y = a v - b G v: |y|^2 and |Xy|^2 in terms of the moments <v,v>, <v,Gv>, |Gv|^2, |XGv|^2. */
  lemma ResidualMoments(x: Mat, v: Vec, a: real, b: real)
    ensures var g := Apply(Gram(x), v);
            var y := VSub(VScale(a, v), VScale(b, g));
            && Dot(y, y) == a * a * Dot(v, v) - 2.0 * (a * b) * Norm2(x, v) + b * b * Dot(g, g)
            && Norm2(x, y) == a * a * Norm2(x, v) - 2.0 * (a * b) * Dot(g, g) + b * b * Norm2(x, g)
  {
    hide Dot, VSub, VScale, Mul, Apply;
    var g := Apply(Gram(x), v);
    NormDifference(a, v, b, g);
    GramDot(x, v, v);
    ApplySub(x, VScale(a, v), VScale(b, g));
    ApplyScale(x, a, v);
    ApplyScale(x, b, g);
    NormDifference(a, Apply(x, v), b, Apply(x, g));
    GramDot(x, v, g);
    GramSymmetric(x);
    SymmetricDot(Gram(x), v, g);
  }

  lemma OneScale(v: Vec)
    ensures VScale(1.0, v) == v
  {
  }

  lemma StepNorm(x: Mat, v: Vec)
    ensures var g := Apply(Gram(x), v);
            4.0 * Norm2(Step(x), v) == 9.0 * Norm2(x, v) - 6.0 * Dot(g, g) + Norm2(x, g)
  {
    hide Dot, VSub, VScale, Mul, Apply, Step;
    var g := Apply(Gram(x), v);
    StepApply(x, v);
    OneScale(g);
    ResidualMoments(x, v, 3.0, 1.0);
    var y := VSub(VScale(3.0, v), VScale(1.0, g));
    var u := Apply(x, y);
    DotScale(VScale(0.5, u), 0.5, u);
    DotScale(u, 0.5, u);
  }

  // ----- contraction

  /** From |Xv|^2 <= 3|v|^2 one step reaches |X'v|^2 <= |v|^2. */
  lemma StepContracts(x: Mat)
    requires Contracts(x, 3.0)
    ensures Contracts(Step(x), 1.0)
  {
    hide Dot, Norm2, Step;
    forall v
      ensures Norm2(Step(x), v) <= 1.0 * Dot(v, v)
    {
      StepNorm(x, v);
      ResidualMoments(x, v, 1.0, 1.0);
      var y := VSub(VScale(1.0, v), VScale(1.0, Apply(Gram(x), v)));
      assert Norm2(x, y) <= 3.0 * Dot(y, y);
      DotSelf(y);
    }
  }

  lemma ContractsWeaken(x: Mat, c: real, d: real)
    requires Contracts(x, c) && c <= d
    ensures Contracts(x, d)
  {
    hide Dot, Norm2;
    forall v
      ensures Norm2(x, v) <= d * Dot(v, v)
    {
      DotSelf(v);
      assert Norm2(x, v) <= c * Dot(v, v);
      LinearBound(Dot(v, v), c, d);
    }
  }

  lemma StartContracts(h: Mat)
    ensures Contracts(Start(h), Frobenius(Start(h)))
    ensures Contracts(Start(h), 3.0)
  {
    hide Dot, Norm2, Start, Frobenius;
    forall v
      ensures Norm2(Start(h), v) <= Frobenius(Start(h)) * Dot(v, v)
    {
      FrobeniusBound(Start(h), v);
    }
    StartBounded(h);
    ContractsWeaken(Start(h), Frobenius(Start(h)), 3.0);
  }

  /** Newton-Schulz never diverges: from the first iterate on no vector is stretched. */
  lemma {:induction false} NeverDiverges(h: Mat, k: nat)
    ensures Contracts(Iterate(Start(h), k), if k == 0 then 3.0 else 1.0)
  {
    hide Contracts, Start, Step;
    if k == 0 {
      StartContracts(h);
    } else {
      NeverDiverges(h, k - 1);
      var x := Iterate(Start(h), k - 1);
      if k - 1 != 0 {
        ContractsWeaken(x, 1.0, 3.0);
      }
      StepContracts(x);
    }
  }

  predicate EntriesAtMost(m: Mat, c: real) {
    && -c <= m.r0.x <= c && -c <= m.r0.y <= c && -c <= m.r0.z <= c
    && -c <= m.r1.x <= c && -c <= m.r1.y <= c && -c <= m.r1.z <= c
    && -c <= m.r2.x <= c && -c <= m.r2.y <= c && -c <= m.r2.z <= c
  }

  lemma ContractionEntries(x: Mat)
    requires Contracts(x, 1.0)
    ensures EntriesAtMost(x, 1.0)
  {
    hide Dot, Contracts;
    DotBasis(x.r0); DotBasis(x.r1); DotBasis(x.r2);
    DotBasis(E0); DotBasis(E1); DotBasis(E2);
    ColumnEntries(x, E0, x.r0.x, x.r1.x, x.r2.x);
    ColumnEntries(x, E1, x.r0.y, x.r1.y, x.r2.y);
    ColumnEntries(x, E2, x.r0.z, x.r1.z, x.r2.z);
  }

  lemma ColumnEntries(x: Mat, e: Vec, a: real, b: real, c: real)
    requires Contracts(x, 1.0) && Dot(e, e) == 1.0 && Apply(x, e) == Vec(a, b, c)
    ensures -1.0 <= a <= 1.0 && -1.0 <= b <= 1.0 && -1.0 <= c <= 1.0
  {
    assert Norm2(x, e) <= 1.0 * Dot(e, e);
    assert Times(a, a) + Times(b, b) + Times(c, c) <= 1.0;
    hide Times;
    TimesSquare(a); TimesSquare(b); TimesSquare(c);
    UnitSquare();
    SquareOrder(a, 1.0); SquareOrder(b, 1.0); SquareOrder(c, 1.0);
  }

  lemma UnitSquare()
    ensures Times(1.0, 1.0) == 1.0
  {
  }

  // ----- the sign of the determinant

  lemma CorrectorPositive(x: Mat, c: real)
    requires Contracts(x, c) && c < 3.0
    ensures Det(Corrector(x)) > 0.0
  {
    hide Det, Mul, Dot, Apply, MSub, MScale, Corrector, Norm2, Symmetric;
    CorrectorSymmetric(x);
    forall v | v != ZERO
      ensures Quad(Corrector(x), v) > 0.0
    {
      CorrectorQuad(x, v);
      DotSelf(v);
      assert Norm2(x, v) <= c * Dot(v, v);
      TimesPositive(3.0 - c, Dot(v, v));
      TimesRaw(3.0 - c, Dot(v, v));
    }
    PositiveDefiniteDet(Corrector(x));
  }

  lemma CorrectorSymmetric(x: Mat)
    ensures Symmetric(Corrector(x))
  {
    hide Mul;
    GramSymmetric(x);
    assert Symmetric(MScale(3.0, ID));
    SubSymmetric(MScale(3.0, ID), Gram(x));
  }

  lemma CorrectorQuad(x: Mat, v: Vec)
    ensures Quad(Corrector(x), v) == 3.0 * Dot(v, v) - Norm2(x, v)
  {
    hide Dot, Apply, Corrector, Mul, VSub, VScale;
    CorrectorApply(x, v);
    DotSub(v, VScale(3.0, v), Apply(Gram(x), v));
    DotScale(v, 3.0, v);
    GramDot(x, v, v);
  }

  lemma StepDet(x: Mat)
    ensures 8.0 * Det(Step(x)) == Det(x) * Det(Corrector(x))
  {
    hide Det, Mul, MScale, Corrector;
    DetScale(0.5, Mul(x, Corrector(x)));
    DetMul(x, Corrector(x));
  }

  predicate SameSigns(a: real, b: real) {
    (a > 0.0 <==> b > 0.0) && (a < 0.0 <==> b < 0.0)
  }

  lemma StepKeepsSign(x: Mat, c: real)
    requires Contracts(x, c) && c < 3.0
    ensures SameSigns(Det(x), Det(Step(x)))
  {
    hide Det, Step, Corrector, Contracts;
    CorrectorPositive(x, c);
    StepDet(x);
    ScaleSign(Det(x), Det(Corrector(x)), 8.0 * Det(Step(x)));
  }

  lemma ScaleSign(a: real, k: real, b: real)
    requires k > 0.0 && b == a * k
    ensures SameSigns(a, b)
  {
    TimesRaw(a, k);
    if a > 0.0 {
      TimesPositive(a, k);
    } else if a < 0.0 {
      TimesPositive(-a, k);
      assert Times(-a, k) == -(a * k);
    } else {
      assert a * k == 0.0 * k;
    }
  }

  /** The determinant of every iterate has the sign of det h; in particular it is zero exactly when det h is. */
  lemma {:induction false} DeterminantSign(h: Mat, k: nat)
    ensures SameSigns(Det(h), Det(Iterate(Start(h), k)))
  {
    hide Det, Step, Start, Contracts;
    if k == 0 {
      StartSign(h);
    } else {
      DeterminantSign(h, k - 1);
      var x := Iterate(Start(h), k - 1);
      if k == 1 {
        StartContracts(h);
        StartBounded(h);
        StepKeepsSign(x, Frobenius(Start(h)));
      } else {
        NeverDiverges(h, k - 1);
        StepKeepsSign(x, 1.0);
      }
    }
  }

  lemma StartSign(h: Mat)
    ensures SameSigns(Det(h), Det(Start(h)))
  {
    hide Det, MScale, MaxRowSum, RowSum;
    RowBelowMax(h);
    var s := 1.0 / (MaxRowSum(h) + EPS);
    assert s > 0.0;
    DetScale(s, h);
    TimesPositive(s, s);
    TimesPositive(Times(s, s), s);
    assert Times(Times(s, s), s) == s * s * s;
    ScaleSign(Det(h), s * s * s, Det(Start(h)));
  }

  lemma FlipDet(x: Mat)
    ensures Det(FlipColumn(x)) == -Det(x)
  {
    hide Det;
    var Mat(Vec(a, b, c), Vec(d, e, f), Vec(g, h, i)) := x;
    DetOf(a, b, c, d, e, f, g, h, i);
    DetOf(a, b, -c, d, e, -f, g, h, -i);
    FlipDetScalar(a, b, c, d, e, f, g, h, i);
  }

  lemma FlipDetScalar(a: real, b: real, c: real, d: real, e: real, f: real, g: real, h: real, i: real)
    ensures a * (e * (-i) - (-f) * h) - b * (d * (-i) - (-f) * g) + (-c) * (d * h - e * g)
         == -(a * (e * i - f * h) - b * (d * i - f * g) + c * (d * h - e * g))
  {
  }

  /** The result never has a negative determinant, and a zero one exactly for singular h. */
  lemma Ns30Determinant(h: Mat)
    ensures Det(Ns30(h)) >= 0.0
    ensures Det(Ns30(h)) > 0.0 <==> Det(h) != 0.0
  {
    hide Det, Iterate, Start, FlipColumn;
    DeterminantSign(h, 30);
    FlipDet(Iterate(Start(h), 30));
  }
}
