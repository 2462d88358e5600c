/**
 How good the Newton-Schulz answer is as a fit. The alignment objective of a rotation Q against the
 covariance h is <Q, h> = trace(Q^T h), which is largest where the sum of |target - Q source|^2 is least.

 For det h > 0 the result of `sinew_ns30` is within a factor 1 - 1e-6 of the best orthogonal matrix.
 For det h < 0 the code negates the last column (src/gen/sinew_align.c:131-135); that choice is
 the best rotation exactly when the last axis is a direction of least stretch of h.
 */
module Optimality {
  import opened LinAlg
  import opened Forms
  import opened Commuting
  import opened Rotations
  import opened NewtonSchulz
  import opened Convergence
  import opened FastPath

  // ----- algebra of commuting matrices

  lemma CommuteMul(a: Mat, b: Mat, c: Mat)
    requires Commute(a, b) && Commute(a, c)
    ensures Commute(a, Mul(b, c))
  {
    hide Mul;
    MulAssoc(a, b, c);
    MulAssoc(b, a, c);
    MulAssoc(b, c, a);
  }

  lemma CommuteScale(a: Mat, s: real, b: Mat)
    requires Commute(a, b)
    ensures Commute(a, MScale(s, b))
  {
    hide Mul, MScale;
    MulScale(a, s, b);
    MulScale(b, s, a);
  }

  lemma CommuteSwap(a: Mat, b: Mat)
    requires Commute(a, b)
    ensures Commute(b, a)
  {
  }

  lemma CommuteCorrector(a: Mat, x: Mat)
    requires Commute(a, Gram(x))
    ensures Commute(a, Corrector(x))
  {
    hide Mul, MScale, MSub;
    MulSub(a, MScale(3.0, ID), Gram(x));
    MulScale(a, 3.0, ID);
    MulScale(ID, 3.0, a);
    MulId(a);
  }

  // ----- X^T h stays positive semidefinite

  /** S = X^T h is psd and commutes with X^T X: X is on its way to the polar factor of h. */
  ghost predicate TowardsPolar(x: Mat, h: Mat) {
    Psd(Mul(Transpose(x), h)) && Commute(Mul(Transpose(x), h), Gram(x))
  }

  lemma StartTowardsPolar(h: Mat)
    ensures TowardsPolar(Start(h), h)
  {
    hide Mul, MScale, Psd, MaxRowSum, Transpose, Times, Gram;
    MaxNonNegative(h);
    var r := MaxRowSum(h) + EPS;
    var x := Start(h);
    ScaleTwice(r, 1.0 / r, h);
    Reciprocal(r);
    ScaleByOne(h);
    GramIs(x);
    assert h == MScale(r, x);
    MulScale(Transpose(x), r, x);
    GramPsd(x);
    ScaledPsd(Gram(x), r);
    CommuteScale(Gram(x), r, Gram(x));
  }

  lemma GramPsd(x: Mat)
    ensures Psd(Gram(x))
  {
    GramSymmetric(x);
    hide Mul, Dot, Apply;
    forall v
      ensures Quad(Gram(x), v) >= 0.0
    {
      GramDot(x, v, v);
      DotSelf(Apply(x, v));
    }
  }

  lemma CorrectorPsd(x: Mat)
    requires Contracts(x, 3.0)
    ensures Psd(Corrector(x))
  {
    hide Dot, Quad, Norm2, Corrector, Symmetric;
    CorrectorSymmetric(x);
    forall v
      ensures Quad(Corrector(x), v) >= 0.0
    {
      CorrectorQuad(x, v);
      ContractsAt(x, 3.0, v);
    }
  }

  lemma StepCross(x: Mat, h: Mat)
    ensures Mul(Transpose(Step(x)), h) == MScale(0.5, Mul(Corrector(x), Mul(Transpose(x), h)))
  {
    hide Mul, MScale, Corrector, Transpose, Symmetric;
    var k := Corrector(x);
    TransposeScale(0.5, Mul(x, k));
    TransposeMul(x, k);
    CorrectorSymmetric(x);
    SymmetricMeans(k);
    MulScale(Mul(k, Transpose(x)), 0.5, h);
    MulAssoc(k, Transpose(x), h);
  }

  lemma StepTowardsPolar(x: Mat, h: Mat)
    requires TowardsPolar(x, h) && Contracts(x, 3.0)
    ensures TowardsPolar(Step(x), h)
  {
    hide Mul, MScale, Corrector, Transpose, Psd, Contracts, Step;
    var s, k, g := Mul(Transpose(x), h), Corrector(x), Gram(x);
    StepCross(x, h);
    CorrectorPsd(x);
    CommuteCorrector(s, x);
    CommuteSwap(s, k);
    CommutingPsd(k, s);
    var ks := Mul(k, s);
    ScaledPsd(ks, 0.5);
    // the new Gram matrix is K G K / 4 and everything commutes
    GramOfStep(x);
    CommuteCorrector(g, x);
    CommuteSwap(g, k);
    CommuteMul(k, k, s);
    CommuteSwap(k, ks);
    CommuteSwap(s, g);
    CommuteMul(g, k, s);
    CommuteSwap(g, ks);
    CommuteMul(ks, g, k);
    CommuteMul(ks, k, Mul(g, k));
    CommuteScale(ks, 0.25, Mul(k, Mul(g, k)));
    CommuteSwap(ks, Gram(Step(x)));
    CommuteScale(Gram(Step(x)), 0.5, ks);
    CommuteSwap(Gram(Step(x)), MScale(0.5, ks));
  }

  lemma {:induction false} AlwaysTowardsPolar(h: Mat, k: nat)
    ensures TowardsPolar(Iterate(Start(h), k), h)
  {
    hide TowardsPolar, Start, Step, Contracts;
    if k == 0 {
      StartTowardsPolar(h);
    } else {
      var x := Iterate(Start(h), k - 1);
      AlwaysTowardsPolar(h, k - 1);
      NeverDiverges(h, k - 1);
      ContractsWeaken(x, if k - 1 == 0 then 3.0 else 1.0, 3.0);
      StepTowardsPolar(x, h);
    }
  }

  // ----- near-optimality

  function Inverse(m: Mat): Mat
    requires Det(m) != 0.0
  {
    MScale(1.0 / Det(m), Transpose(Cof(m)))
  }

  lemma InverseRight(m: Mat)
    requires Det(m) != 0.0
    ensures Mul(m, Inverse(m)) == ID
  {
    hide Mul, MScale, Det, Cof, Transpose;
    Cramer(m);
    var d := Det(m);
    MulScale(m, 1.0 / d, Transpose(Cof(m)));
    ScaleTwice(1.0 / d, d, ID);
    assert Times(1.0 / d, d) == 1.0;
    ScaleByOne(ID);
  }

  /** A right inverse of a symmetric matrix is symmetric and also a left inverse. */
  lemma SymmetricInverse(g: Mat, i: Mat)
    requires Symmetric(g) && Mul(g, i) == ID
    ensures Mul(i, g) == ID && Symmetric(i)
  {
    hide Mul, Transpose;
    var t := Transpose(i);
    TransposeMul(g, i);
    TransposeOfId();
    assert Mul(t, g) == ID;
    MulAssoc(t, g, i);
    MulId(t);
    MulId(i);
  }

  /** For invertible X on its way to the polar factor, h = X M with M psd. */
  lemma PsdQuotient(x: Mat, h: Mat) returns (m: Mat)
    requires TowardsPolar(x, h) && Det(x) != 0.0
    ensures Psd(m) && h == Mul(x, m)
  {
    hide Mul, Transpose, Psd, Det, Symmetric, Inverse, Gram;
    var s, g := Mul(Transpose(x), h), Gram(x);
    var xi := Inverse(x);
    GramPsd(x);
    CommuteSwap(s, g);
    CommutingPsd(g, s);
    InverseRight(x);
    GramSymmetric(x);
    GramInverse(x, xi);
    var i := Mul(xi, Transpose(xi));
    SymmetricInverse(g, i);
    m := Mul(i, s);
    QuotientFactors(x, xi, h);
    QuotientPsd(g, i, s);
  }

  lemma GramInverse(x: Mat, xi: Mat)
    requires Mul(x, xi) == ID
    ensures Mul(Gram(x), Mul(xi, Transpose(xi))) == ID
  {
    hide Mul, Transpose;
    var t, ti := Transpose(x), Transpose(xi);
    TransposeMul(x, xi);
    TransposeOfId();
    LeftInverse(x, xi);
    TransposeMul(xi, x);
    MulAssoc(t, x, Mul(xi, ti));
    MulAssoc(x, xi, ti);
    MulId(ti);
  }

  /** For square matrices a right inverse is a left inverse. */
  lemma LeftInverse(x: Mat, xi: Mat)
    requires Mul(x, xi) == ID
    ensures Mul(xi, x) == ID
  {
    hide Mul, Transpose, Det;
    DetMul(x, xi);
    DetId();
    NonzeroFactor(Det(x), Det(xi));
    InverseRight(xi);
    var y := Inverse(xi);
    MulAssoc(x, xi, y);
    MulId(x);
    MulId(y);
  }

  lemma NonzeroFactor(a: real, b: real)
    requires a * b == 1.0
    ensures b != 0.0 && a != 0.0
  {
  }

  lemma QuotientFactors(x: Mat, xi: Mat, h: Mat)
    requires Mul(x, xi) == ID
    ensures Mul(x, Mul(Mul(xi, Transpose(xi)), Mul(Transpose(x), h))) == h
  {
    hide Mul, Transpose;
    var t, ti := Transpose(x), Transpose(xi);
    LeftInverse(x, xi);
    TransposeMul(x, xi);
    TransposeOfId();
    MulAssoc(xi, ti, Mul(t, h));
    MulAssoc(x, xi, Mul(ti, Mul(t, h)));
    MulAssoc(ti, t, h);
    TransposeMul(xi, x);
    LeftInverse(ti, t);
    MulId(Mul(ti, Mul(t, h)));
    MulId(h);
  }

  /** G^{-1} S is psd when G and S are psd and commute. */
  lemma QuotientPsd(g: Mat, i: Mat, s: Mat)
    requires Symmetric(g) && Symmetric(i) && Mul(g, i) == ID && Mul(i, g) == ID
    requires Psd(s) && Commute(s, g) && Psd(Mul(g, s))
    ensures Psd(Mul(i, s))
  {
    hide Mul, Transpose, Apply, Dot;
    var m := Mul(i, s);
    // i s = i s g i = i g s i = s i
    assert m == Mul(s, i) by {
      MulId(m);
      MulAssoc(i, s, Mul(g, i));
      MulAssoc(s, g, i);
      MulAssoc(g, s, i);
      MulAssoc(i, g, Mul(s, i));
      MulId(Mul(s, i));
    }
    assert Symmetric(m) by {
      TransposeMul(i, s);
    }
    forall v
      ensures Quad(m, v) >= 0.0
    {
      var u := Apply(i, v);
      ApplyMul(g, i, v);
      IdApply(v);
      ApplyMul(s, i, v);
      SymmetricDot(g, u, Apply(s, u));
      ApplyMul(g, s, u);
      assert Quad(Mul(g, s), u) >= 0.0;
    }
  }

  lemma InnerLeft(o: Mat, a: Mat, b: Mat)
    ensures Inner(Mul(o, a), b) == Inner(a, Mul(Transpose(o), b))
  {
    hide Mul, Transpose, Trace, Inner;
    InnerTrace(Mul(o, a), b);
    InnerTrace(a, Mul(Transpose(o), b));
    TransposeMul(o, a);
    MulAssoc(Transpose(a), Transpose(o), b);
  }

  /** The form of X^T Q is at most |v|^2 when neither X nor Q stretches. */
  lemma CrossContraction(x: Mat, q: Mat, v: Vec)
    requires Contracts(x, 1.0) && Orthogonal(q)
    ensures Quad(Mul(Transpose(x), q), v) <= Dot(v, v)
  {
    hide Dot, Apply, Mul, Transpose, Orthogonal, Contracts, VSub;
    var a, b := Apply(x, v), Apply(q, v);
    ApplyMul(Transpose(x), q, v);
    Adjoint(Transpose(x), v, b);
    TransposeTwice(x);
    ContractsAt(x, 1.0, v);
    OrthogonalDot(q, v, v);
    DotSelf(VSub(a, b));
    DotSub(VSub(a, b), a, b);
    DotSub(a, a, b);
    DotSub(b, a, b);
    DotComm(a, b);
  }

  /** For every psd M the objective of an almost orthogonal X against X M is within 1 - d of every other. */
  lemma NearOptimalFor(x: Mat, m: Mat, h: Mat, q: Mat, l: real)
    requires Psd(m) && h == Mul(x, m) && Orthogonal(q) && Contracts(x, 1.0) && Expands(x, l) && l >= 0.0
    ensures l * Inner(q, h) <= Inner(x, h)
  {
    hide Dot, Mul, Transpose, Inner, Trace, Psd, Orthogonal, Contracts, Expands, Gram, MSub, MScale;
    var a := Mul(Transpose(x), q);
    forall v
      ensures Quad(a, v) <= Dot(v, v)
    {
      CrossContraction(x, q, v);
    }
    InnerTraceBound(a, m);
    InnerComm(q, h);
    InnerLeft(x, m, q);
    InnerComm(m, a);
    LinearBound(l, Inner(q, h), Trace(m));
    // <X, X M> = <G, M> >= l tr M
    InnerComm(x, h);
    InnerLeft(x, m, x);
    InnerComm(m, Mul(Transpose(x), x));
    GramIs(x);
    GramAboveTrace(x, m, l);
  }

  lemma GramIs(x: Mat)
    ensures Gram(x) == Mul(Transpose(x), x)
  {
  }

  lemma GramAboveTrace(x: Mat, m: Mat, l: real)
    requires Psd(m) && Expands(x, l)
    ensures Inner(Gram(x), m) >= l * Trace(m)
  {
    hide Mul, MSub, MScale, Inner, Trace, Expands, Gram, Symmetric, Quad;
    var b := MSub(Gram(x), MScale(l, ID));
    ShiftedGramPsd(x, l);
    InnerPsd(b, m);
    InnerShift(Gram(x), l, m);
  }

  lemma InnerShift(a: Mat, l: real, m: Mat)
    ensures Inner(MSub(a, MScale(l, ID)), m) == Inner(a, m) - l * Trace(m)
  {
    hide Dot, VScale;
    DotSub(m.r0, a.r0, VScale(l, E0)); DotSub(m.r1, a.r1, VScale(l, E1)); DotSub(m.r2, a.r2, VScale(l, E2));
    DotScale(E0, l, m.r0); DotScale(E1, l, m.r1); DotScale(E2, l, m.r2);
    DotBasis(m.r0); DotBasis(m.r1); DotBasis(m.r2);
  }

  /** For det h > 0 a lower bound l on the squared stretch of the thirtieth iterate makes the answer optimal up to the
      factor l, against every orthogonal matrix and so against every rotation. */
  lemma FastPathOptimalBy(h: Mat, q: Mat, l: real)
    requires Expands(Iterate(Start(h), 30), l) && l >= 0.0 && Det(h) > 0.0 && Orthogonal(q)
    ensures l * Inner(q, h) <= Inner(Ns30(h), h)
  {
    hide Det, Orthogonal, Inner, Contracts, Expands, Start, Iterate, TowardsPolar;
    var x := Iterate(Start(h), 30);
    DeterminantSign(h, 30);
    NeverDiverges(h, 30);
    AlwaysTowardsPolar(h, 30);
    var m := PsdQuotient(x, h);
    NearOptimalFor(x, m, h, q, l);
  }

  /** So every answer the code accepts for det h > 0 is within 3% of optimal, and within 1e-6 when the covariance is
      within reach of the thirty steps. */
  lemma FastPathNearOptimal(h: Mat, q: Mat)
    requires Det(h) > 0.0 && Orthogonal(q)
    ensures Valid9(Ns30(h)) ==> 0.97 * Inner(q, h) <= Inner(Ns30(h), h)
    ensures Ready(h) ==> 0.999999 * Inner(q, h) <= Inner(Ns30(h), h)
  {
    hide Det, Orthogonal, Inner, Contracts, Expands, Start, Iterate, Valid9, Ready, Ns30;
    if Valid9(Ns30(h)) {
      AcceptedStretch(h);
      FastPathOptimalBy(h, q, 0.97);
    }
    if Ready(h) {
      ThirtyStepsConverge(h);
      FastPathOptimalBy(h, q, 0.999999);
    }
  }

  // ----- the column flip

  const FLIP := Mat(E0, E1, Vec(0.0, 0.0, -1.0))

  lemma FlipIsProduct(x: Mat)
    ensures FlipColumn(x) == Mul(x, FLIP)
  {
    hide Apply, Transpose;
    FlipTranspose();
    FlipRowApply(x.r0);
    FlipRowApply(x.r1);
    FlipRowApply(x.r2);
  }

  lemma FlipRowApply(r: Vec)
    ensures Apply(FLIP, r) == Vec(r.x, r.y, -r.z)
  {
  }

  lemma FlipTranspose()
    ensures Transpose(FLIP) == FLIP
  {
  }

  lemma FlipDetIs()
    ensures Det(FLIP) == -1.0
  {
    hide Det;
    DetOf(1.0, 0.0, 0.0, 0.0, 1.0, 0.0, 0.0, 0.0, -1.0);
  }

  lemma FlipFacts()
    ensures Orthogonal(FLIP) && Det(FLIP) == -1.0
  {
    hide Apply, Det, Transpose;
    FlipDetIs();
    FlipTranspose();
    FlipRowApply(E0); FlipRowApply(E1); FlipRowApply(FLIP.r2);
  }

  lemma InnerFlip(s: Mat)
    ensures Inner(FLIP, s) == Trace(s) - 2.0 * s.r2.z
  {
  }

  lemma FlippedIsRotation(o: Mat)
    requires Orthogonal(o) && Det(o) == -1.0
    ensures Rotation(FlipColumn(o))
  {
    hide Mul, Det, Orthogonal;
    FlipIsProduct(o);
    FlipFacts();
    OrthogonalMul(o, FLIP);
  }

  lemma InnerOrthogonal(o: Mat, a: Mat, s: Mat)
    requires Orthogonal(o)
    ensures Inner(Mul(o, a), Mul(o, s)) == Inner(a, s)
  {
    hide Mul, Transpose, Inner;
    InnerLeft(o, a, Mul(o, s));
    MulAssoc(Transpose(o), o, s);
    MulId(s);
  }

  /** I - 2 v v^T / |v|^2 */
  function Householder(v: Vec): Mat
    requires Dot(v, v) > 0.0
  {
    MSub(ID, MScale(2.0 / Dot(v, v), Outer(v, v)))
  }

  lemma HouseholderApply(v: Vec, u: Vec)
    requires Dot(v, v) > 0.0
    ensures Apply(Householder(v), u) == VSub(u, VScale(Times(2.0 / Dot(v, v), Dot(v, u)), v))
  {
    hide Dot, Apply, MSub, MScale, Outer, VSub, VScale, Times;
    IdApply(u);
    DeflateApply(ID, 2.0 / Dot(v, v), v, u);
  }

  lemma HouseholderTwice(v: Vec, u: Vec)
    requires Dot(v, v) > 0.0
    ensures Apply(Householder(v), Apply(Householder(v), u)) == u
  {
    hide Dot, Apply, Householder, Times;
    var n := Dot(v, v);
    var c := Times(2.0 / n, Dot(v, u));
    var w := VSub(u, VScale(c, v));
    HouseholderApply(v, u);
    HouseholderApply(v, w);
    DotSub(v, u, VScale(c, v));
    DotScale(v, c, v);
    ReflectScalar(n, Dot(v, u), c, Times(2.0 / n, Dot(v, w)), Dot(v, w));
    BackAndForth(u, c, v);
  }

  lemma ReflectScalar(n: real, p: real, c: real, d: real, w: real)
    requires n > 0.0 && c == Times(2.0 / n, p) && w == p - c * n && d == Times(2.0 / n, w)
    ensures d == -c
  {
    assert (2.0 / n) * n == 2.0;
    assert c * n == p * ((2.0 / n) * n) == 2.0 * p;
    assert w == -p;
    assert Times(2.0 / n, -p) == -Times(2.0 / n, p);
  }

  lemma BackAndForth(u: Vec, c: real, v: Vec)
    ensures VSub(VSub(u, VScale(c, v)), VScale(-c, v)) == u
  {
    assert Times(-c, v.x) == -Times(c, v.x) && Times(-c, v.y) == -Times(c, v.y) && Times(-c, v.z) == -Times(c, v.z);
  }

  lemma HouseholderSymmetric(v: Vec)
    requires Dot(v, v) > 0.0
    ensures Transpose(Householder(v)) == Householder(v)
  {
    hide Transpose, Dot, MScale, Outer;
    var c := 2.0 / Dot(v, v);
    OuterSymmetric(c, v);
    TransposeOfId();
    SubSymmetric(ID, MScale(c, Outer(v, v)));
  }

  lemma HouseholderFacts(v: Vec)
    requires Dot(v, v) > 0.0
    ensures Orthogonal(Householder(v)) && Det(Householder(v)) == -1.0
  {
    hide Householder, Apply, Dot, Det, Mul, Transpose;
    var w := Householder(v);
    HouseholderDet(v, 2.0 / Dot(v, v));
    HouseholderSymmetric(v);
    HouseholderTwice(v, E0); HouseholderTwice(v, E1); HouseholderTwice(v, E2);
    ApplyMul(w, w, E0); ApplyMul(w, w, E1); ApplyMul(w, w, E2);
    IdApply(E0); IdApply(E1); IdApply(E2);
    MatExt(Mul(w, w), ID);
  }

  lemma HouseholderDet(v: Vec, c: real)
    requires Dot(v, v) > 0.0 && c == 2.0 / Dot(v, v)
    ensures Det(Householder(v)) == -1.0
  {
    var Vec(x, y, z) := v;
    var xx, yy, zz := Times(c, Times(x, x)), Times(c, Times(y, y)), Times(c, Times(z, z));
    var xy, xz, yz := Times(c, Times(x, y)), Times(c, Times(x, z)), Times(c, Times(y, z));
    hide Det, Dot, Times, Householder;
    ScaledNorm(c, v);
    HouseholderEntries(v, c);
    DetOf(1.0 - xx, 0.0 - xy, 0.0 - xz, 0.0 - xy, 1.0 - yy, 0.0 - yz, 0.0 - xz, 0.0 - yz, 1.0 - zz);
    RankOneEntries(c, x, y); RankOneEntries(c, x, z); RankOneEntries(c, y, z);
    RankOneCross(c, x, y, z);
    RankOneDet(xx, xy, xz, yy, yz, zz);
  }

  lemma HouseholderEntries(v: Vec, c: real)
    requires Dot(v, v) > 0.0 && c == 2.0 / Dot(v, v)
    ensures var Vec(x, y, z) := v;
            var xx, yy, zz := Times(c, Times(x, x)), Times(c, Times(y, y)), Times(c, Times(z, z));
            var xy, xz, yz := Times(c, Times(x, y)), Times(c, Times(x, z)), Times(c, Times(y, z));
            Householder(v) == Mat(Vec(1.0 - xx, 0.0 - xy, 0.0 - xz),
                                  Vec(0.0 - xy, 1.0 - yy, 0.0 - yz),
                                  Vec(0.0 - xz, 0.0 - yz, 1.0 - zz))
  {
    hide Dot, Times;
    TimesComm(v.x, v.y); TimesComm(v.x, v.z); TimesComm(v.y, v.z);
  }

  lemma ScaledNorm(c: real, v: Vec)
    requires Dot(v, v) > 0.0 && c == 2.0 / Dot(v, v)
    ensures Times(c, Times(v.x, v.x)) + Times(c, Times(v.y, v.y)) + Times(c, Times(v.z, v.z)) == 2.0
  {
    var n := Dot(v, v);
    assert c * n == 2.0;
    hide Times;
    TimesAdd(c, Times(v.x, v.x), Times(v.y, v.y));
    TimesAdd(c, Times(v.x, v.x) + Times(v.y, v.y), Times(v.z, v.z));
    TimesRaw(c, n);
  }

  lemma RankOneEntries(c: real, x: real, y: real)
    ensures Times(Times(c, Times(x, x)), Times(c, Times(y, y))) == Times(Times(c, Times(x, y)), Times(c, Times(x, y)))
  {
    assert (c * (x * x)) * (c * (y * y)) == (c * (x * y)) * (c * (x * y));
  }

  lemma RankOneCross(c: real, x: real, y: real, z: real)
    ensures Times(Times(c, Times(x, x)), Times(c, Times(y, z))) == Times(Times(c, Times(x, y)), Times(c, Times(x, z)))
  {
    assert (c * (x * x)) * (c * (y * z)) == (c * (x * y)) * (c * (x * z));
  }

  /** det(I - N) = 1 - tr N for a rank-one N. */
  lemma RankOneDet(a: real, b: real, c: real, d: real, e: real, f: real)
    requires Times(a, d) == Times(b, b) && Times(a, f) == Times(c, c) && Times(d, f) == Times(e, e)
            && Times(a, e) == Times(b, c)
    ensures (1.0 - a) * ((1.0 - d) * (1.0 - f) - (0.0 - e) * (0.0 - e))
            - (0.0 - b) * ((0.0 - b) * (1.0 - f) - (0.0 - e) * (0.0 - c))
            + (0.0 - c) * ((0.0 - b) * (0.0 - e) - (1.0 - d) * (0.0 - c))
         == 1.0 - a - d - f
  {
    assert a * d == b * b && a * f == c * c && d * f == e * e && a * e == b * c;
    assert a * (e * e) == a * (d * f);
    assert f * (b * b) == f * (a * d);
    assert d * (c * c) == d * (a * f);
    assert (b * c) * e == (a * e) * e == a * (e * e);
  }

  lemma InnerHouseholder(v: Vec, s: Mat)
    requires Dot(v, v) > 0.0
    ensures Inner(Householder(v), s) == Trace(s) - 2.0 / Dot(v, v) * Quad(s, v)
  {
    hide Inner, Dot, MScale, Outer, Quad;
    var c := 2.0 / Dot(v, v);
    InnerOfDifference(MScale(c, Outer(v, v)), s);
    InnerComm(MScale(c, Outer(v, v)), s);
    PlusZero(MScale(c, Outer(v, v)));
    InnerRankOne(s, c, v, Mat(ZERO, ZERO, ZERO));
    InnerZero(s);
  }

  lemma PlusZero(m: Mat)
    ensures MAdd(m, Mat(ZERO, ZERO, ZERO)) == m
  {
  }

  /** The last axis is a direction of least stretch of the psd factor S. */
  ghost predicate LastAxisLeast(s: Mat) {
    forall v :: Quad(s, v) >= s.r2.z * Dot(v, v)
  }

  ghost predicate BestRotation(r: Mat, h: Mat) {
    Rotation(r) && forall q :: Rotation(q) ==> Inner(q, h) <= Inner(r, h)
  }

  /** Let h = O S with O orthogonal, det O = -1 and S psd, the polar form of a covariance with a negative
      determinant. Negating the last column of O gives a best rotation if and only if the last axis is a
      direction of least stretch of S. */
  lemma FlipBestIff(o: Mat, s: Mat, h: Mat)
    requires Orthogonal(o) && Det(o) == -1.0 && Psd(s) && h == Mul(o, s)
    ensures BestRotation(FlipColumn(o), h) <==> LastAxisLeast(s)
  {
    hide Det, Orthogonal, Inner, Mul, Psd, FlipColumn, Quad, Dot, Trace, Rotation, StretchOf;
    var best := Inner(FlipColumn(o), h);
    FlippedIsRotation(o);
    FlipIsProduct(o);
    InnerOrthogonal(o, FLIP, s);
    InnerFlip(s);
    if LastAxisLeast(s) {
      LastNonNegative(s);
      forall q | Rotation(q)
        ensures Inner(q, h) <= best
      {
        FlipBeats(o, s, h, q, s.r2.z);
      }
    } else {
      var v :| Quad(s, v) < s.r2.z * Dot(v, v);
      DirectionNonzero(s, v);
      var q := Reflecting(o, s, h, v);
      StretchBelow(s, v, s.r2.z);
      assert Rotation(q) && Inner(q, h) > best;
    }
  }

  /** <v, S v> / |v|^2, the stretch of a psd S in direction v. */
  function StretchOf(s: Mat, v: Vec): real
    requires Dot(v, v) > 0.0
  {
    Quad(s, v) / Dot(v, v)
  }

  lemma StretchBelow(s: Mat, v: Vec, z: real)
    requires Dot(v, v) > 0.0 && Quad(s, v) < z * Dot(v, v)
    ensures StretchOf(s, v) < z
  {
    hide Quad, Dot;
    var n, t := Dot(v, v), StretchOf(s, v);
    assert Times(t, n) == Quad(s, v);
    TimesRaw(z, n);
    hide Times;
    if t >= z {
      TimesMonotoneLeft(z, t, n);
    }
  }

  lemma TimesMonotoneLeft(a: real, b: real, n: real)
    requires a <= b && n >= 0.0
    ensures Times(a, n) <= Times(b, n)
  {
    TimesUp(n, a, b);
    TimesComm(n, a);
    TimesComm(n, b);
  }

  /** The rotation that reflects along v scores tr S minus twice the stretch of v. */
  lemma Reflecting(o: Mat, s: Mat, h: Mat, v: Vec) returns (q: Mat)
    requires Orthogonal(o) && Det(o) == -1.0 && h == Mul(o, s) && Dot(v, v) > 0.0
    ensures Rotation(q) && Inner(q, h) == Trace(s) - 2.0 * StretchOf(s, v)
  {
    hide Det, Orthogonal, Inner, Mul, Quad, Dot, Trace, Householder;
    q := Mul(o, Householder(v));
    HouseholderFacts(v);
    OrthogonalMul(o, Householder(v));
    InnerOrthogonal(o, Householder(v), s);
    InnerHouseholder(v, s);
    StretchTwice(Quad(s, v), Dot(v, v));
  }

  lemma StretchTwice(q: real, n: real)
    requires n > 0.0
    ensures 2.0 / n * q == 2.0 * (q / n)
  {
  }

  lemma DirectionNonzero(s: Mat, v: Vec)
    requires Quad(s, v) < s.r2.z * Dot(v, v)
    ensures Dot(v, v) > 0.0
  {
    hide Dot;
    DotSelf(v);
    if v == ZERO {
      DotZero(Apply(s, v));
      DotZero(v);
    }
  }

  /** No rotation scores more than tr S - 2z when S stretches every direction by at least z. */
  lemma FlipBeats(o: Mat, s: Mat, h: Mat, q: Mat, z: real)
    requires Orthogonal(o) && Det(o) == -1.0 && Psd(s) && h == Mul(o, s) && Rotation(q)
    requires z >= 0.0 && forall v :: Quad(s, v) >= z * Dot(v, v)
    ensures Inner(q, h) <= Trace(s) - 2.0 * z
  {
    hide Det, Orthogonal, Inner, Mul, MSub, MScale, Quad, Dot, Trace, Transpose, Symmetric;
    var w := Mul(Transpose(o), q);
    OrthogonalFacts(o);
    DetTranspose(o);
    OrthogonalMul(Transpose(o), q);
    InnerComm(q, h);
    InnerLeft(o, s, q);
    InnerComm(s, w);
    // split S = (S - z I) + z I
    var t := MSub(s, MScale(z, ID));
    ShiftedPsd(s, z);
    forall v
      ensures Quad(w, v) <= Dot(v, v)
    {
      OrthogonalQuad(w, v);
    }
    InnerTraceBound(w, t);
    ImproperTrace(w);
    InnerShift(s, z, w);
    InnerComm(t, w);
    InnerComm(s, w);
    TraceShift(s, z);
    LinearBound(z, Trace(w), 1.0);
  }

  lemma LastNonNegative(s: Mat)
    requires Psd(s)
    ensures s.r2.z >= 0.0
  {
    assert Quad(s, E2) == s.r2.z;
  }

  lemma TraceShift(s: Mat, z: real)
    ensures Trace(MSub(s, MScale(z, ID))) == Trace(s) - 3.0 * z
  {
    hide MScale;
    ScaledIdTrace(z);
  }

  lemma ShiftedPsd(s: Mat, z: real)
    requires Psd(s) && forall v :: Quad(s, v) >= z * Dot(v, v)
    ensures Psd(MSub(s, MScale(z, ID)))
  {
    hide Dot, Apply, MScale;
    ScaledIdSymmetric(z);
    SubSymmetric(s, MScale(z, ID));
    forall v
      ensures Quad(MSub(s, MScale(z, ID)), v) >= 0.0
    {
      SubApply(s, MScale(z, ID), v);
      ScaleApply(z, ID, v);
      IdApply(v);
      DotSub(v, Apply(s, v), VScale(z, v));
      DotScale(v, z, v);
    }
  }

  // ----- a covariance on which the flip is not best

  function Diagonal(a: real, b: real, c: real): Mat {
    Mat(Vec(a, 0.0, 0.0), Vec(0.0, b, 0.0), Vec(0.0, 0.0, c))
  }

  lemma DiagonalApply(a: real, b: real, c: real, v: Vec)
    ensures Apply(Diagonal(a, b, c), v) == Vec(Times(a, v.x), Times(b, v.y), Times(c, v.z))
  {
    ZeroTimes(v.x); ZeroTimes(v.y); ZeroTimes(v.z);
    hide Times;
  }

  lemma DiagonalMul(a: real, b: real, c: real, d: real, e: real, f: real)
    ensures Mul(Diagonal(a, b, c), Diagonal(d, e, f)) == Diagonal(Times(a, d), Times(b, e), Times(c, f))
  {
    var y := Diagonal(d, e, f);
    assert Transpose(y) == y;
    ZeroTimes(d); ZeroTimes(e); ZeroTimes(f);
    TimesComm(a, d); TimesComm(b, e); TimesComm(c, f);
    hide Apply, Times;
    DiagonalApply(d, e, f, Vec(a, 0.0, 0.0));
    DiagonalApply(d, e, f, Vec(0.0, b, 0.0));
    DiagonalApply(d, e, f, Vec(0.0, 0.0, c));
  }

  /** The entry map of a step on a diagonal matrix. */
  function ScalarStep(a: real): real {
    Times(0.5, Times(a, 3.0 - Times(a, a)))
  }

  lemma DiagonalStep(a: real, b: real, c: real)
    ensures Step(Diagonal(a, b, c)) == Diagonal(ScalarStep(a), ScalarStep(b), ScalarStep(c))
  {
    var x := Diagonal(a, b, c);
    assert Transpose(x) == x;
    DiagonalMul(a, b, c, a, b, c);
    var k := Diagonal(3.0 - Times(a, a), 3.0 - Times(b, b), 3.0 - Times(c, c));
    assert Corrector(x) == k by {
      hide Mul, Times;
      ScaledIdentity(3.0);
    }
    hide Mul, Transpose, Corrector, Times;
    DiagonalMul(a, b, c, 3.0 - Times(a, a), 3.0 - Times(b, b), 3.0 - Times(c, c));
    ZeroTimes(0.5);
  }

  function ScalarIterate(a: real, k: nat): real {
    if k == 0 then a else ScalarStep(ScalarIterate(a, k - 1))
  }

  /** On a diagonal matrix the loop acts on each entry by itself. */
  lemma {:induction false} DiagonalIterate(a: real, b: real, c: real, k: nat)
    ensures Iterate(Diagonal(a, b, c), k) == Diagonal(ScalarIterate(a, k), ScalarIterate(b, k), ScalarIterate(c, k))
  {
    hide Step, ScalarStep, Diagonal;
    if k > 0 {
      DiagonalIterate(a, b, c, k - 1);
      DiagonalStep(ScalarIterate(a, k - 1), ScalarIterate(b, k - 1), ScalarIterate(c, k - 1));
    }
  }

  /** An entry between -1 and 0 stays there. */
  lemma {:induction false} ScalarNegative(a: real, k: nat)
    requires -1.0 <= a < 0.0
    ensures -1.0 <= ScalarIterate(a, k) < 0.0
  {
    hide ScalarStep;
    if k > 0 {
      ScalarNegative(a, k - 1);
      ScalarStepNegative(ScalarIterate(a, k - 1));
    }
  }

  lemma ScalarStepNegative(a: real)
    requires -1.0 <= a < 0.0
    ensures -1.0 <= ScalarStep(a) < 0.0
  {
    var b := 1.0 + a;
    // 2 + a (3 - a^2) = (1 + a)^2 (2 - a)
    assert 2.0 + Times(a, 3.0 - Times(a, a)) == Times(Times(b, b), 2.0 - a);
    TimesNonNegative(b, b);
    TimesNonNegative(Times(b, b), 2.0 - a);
    TimesNonNegative(1.0 + a, 1.0 - a);
    assert Times(1.0 + a, 1.0 - a) == 1.0 - Times(a, a);
    assert Times(-a, 3.0 - Times(a, a)) == -Times(a, 3.0 - Times(a, a));
    TimesPositive(-a, 3.0 - Times(a, a));
  }

  /** Entries between 0.001 and 1 in magnitude neither stretch nor shrink much. */
  lemma DiagonalReach(a: real, b: real, c: real)
    requires 0.001 <= Abs(a) <= 1.0 && 0.001 <= Abs(b) <= 1.0 && 0.001 <= Abs(c) <= 1.0
    ensures Contracts(Diagonal(a, b, c), 1.0) && Expands(Diagonal(a, b, c), 0.000001)
  {
    hide Norm2, Dot, Diagonal, Abs;
    forall v
      ensures 0.000001 * Dot(v, v) <= Norm2(Diagonal(a, b, c), v) <= 1.0 * Dot(v, v)
    {
      DiagonalReachAt(a, b, c, v);
    }
  }

  lemma DiagonalReachAt(a: real, b: real, c: real, v: Vec)
    requires 0.001 <= Abs(a) <= 1.0 && 0.001 <= Abs(b) <= 1.0 && 0.001 <= Abs(c) <= 1.0
    ensures 0.000001 * Dot(v, v) <= Norm2(Diagonal(a, b, c), v) <= 1.0 * Dot(v, v)
  {
    hide Apply, Times, Diagonal, Abs;
    DiagonalApply(a, b, c, v);
    ScaledSquare(a, v.x); ScaledSquare(b, v.y); ScaledSquare(c, v.z);
  }

  lemma ScaledSquare(a: real, x: real)
    requires 0.001 <= Abs(a) <= 1.0
    ensures 0.000001 * Times(x, x) <= Times(Times(a, x), Times(a, x)) <= Times(x, x)
  {
    var b, n := Abs(a), Times(x, x);
    assert Times(Times(a, x), Times(a, x)) == Times(Times(b, b), n);
    TimesSquare(x);
    TimesMonotone(0.001, b, 0.001, b);
    TimesMonotone(b, 1.0, b, 1.0);
    assert Times(0.001, 0.001) == 0.000001 && Times(1.0, 1.0) == 1.0;
    hide Times, Abs;
    TimesMonotone(0.000001, Times(b, b), n, n);
    TimesMonotone(Times(b, b), 1.0, n, n);
    TimesRaw(0.000001, n);
    TimesOne(n);
  }

  /** h = diag(-1, 3, 3) is well conditioned and has a negative determinant. The fast path accepts a rotation
      whose objective is at most 1, while the identity reaches 5. */
  lemma FlipCounterexample()
    ensures var h := Diagonal(-1.0, 3.0, 3.0);
            && Valid9(Ns30(h))
            && Inner(Ns30(h), h) <= 1.0
            && Rotation(ID) && Inner(ID, h) == 5.0
  {
    hide Det, Iterate, Start, Expands, Contracts, Valid9, Orthogonal, FlipColumn, Mul, Ready, ScalarIterate;
    var h := Diagonal(-1.0, 3.0, 3.0);
    ReflectionConditioned();
    StartReady(h);
    FastPathAccepted(h);
    ReflectionStart();
    var t := 1.0 / (3.0 + EPS);
    DiagonalIterate(Times(t, -1.0), Times(t, 3.0), Times(t, 3.0), 30);
    var c, d := ScalarIterate(Times(t, -1.0), 30), ScalarIterate(Times(t, 3.0), 30);
    var x := Iterate(Start(h), 30);
    NeverDiverges(h, 30);
    ContractionEntries(x);
    ReflectionDet();
    DeterminantSign(h, 30);
    ReflectionObjective(c, d);
    IdIsRotation();
    IdentityObjective();
  }

  lemma IdentityObjective()
    ensures Inner(ID, Diagonal(-1.0, 3.0, 3.0)) == 5.0
  {
  }

  lemma ReflectionDet()
    ensures Det(Diagonal(-1.0, 3.0, 3.0)) < 0.0
  {
    hide Det;
    DetOf(-1.0, 0.0, 0.0, 0.0, 3.0, 0.0, 0.0, 0.0, 3.0);
  }

  lemma ReflectionStart()
    ensures var t := 1.0 / (3.0 + EPS);
            Start(Diagonal(-1.0, 3.0, 3.0)) == Diagonal(Times(t, -1.0), Times(t, 3.0), Times(t, 3.0))
  {
    var t := 1.0 / (3.0 + EPS);
    ZeroTimes(t);
    assert MaxRowSum(Diagonal(-1.0, 3.0, 3.0)) == 3.0;
    hide Times, MaxRowSum;
  }

  lemma ReflectionConditioned()
    ensures Expands(Start(Diagonal(-1.0, 3.0, 3.0)), 0.01)
  {
    hide Start, Norm2, Diagonal, Dot, Times;
    var t := 1.0 / (3.0 + EPS);
    var a, b := Times(t, -1.0), Times(t, 3.0);
    ReflectionScale(t);
    ReflectionStart();
    forall v
      ensures Norm2(Diagonal(a, b, b), v) >= 0.01 * Dot(v, v)
    {
      DiagonalNorm(a, b, v);
    }
  }

  lemma ReflectionScale(t: real)
    requires t == 1.0 / (3.0 + EPS)
    ensures Times(t, -1.0) < -0.33 && Times(t, 3.0) > 0.99
  {
  }

  lemma DiagonalNorm(a: real, b: real, v: Vec)
    requires a < -0.33 && b > 0.99
    ensures Norm2(Diagonal(a, b, b), v) >= 0.01 * Dot(v, v)
  {
    hide Times, Diagonal, Apply;
    DiagonalApply(a, b, b, v);
    StretchedSquare(a, v.x);
    StretchedSquare(b, v.y);
    StretchedSquare(b, v.z);
  }

  lemma StretchedSquare(a: real, x: real)
    requires a < -0.33 || a > 0.99
    ensures Times(Times(a, x), Times(a, x)) >= 0.01 * Times(x, x)
  {
    var s := Times(a, a);
    assert s >= 0.01 by {
      if a > 0.99 {
        TimesMonotone(0.99, a, 0.99, a);
      } else {
        TimesMonotone(0.33, -a, 0.33, -a);
        assert Times(-a, -a) == s;
      }
    }
    assert Times(Times(a, x), Times(a, x)) == Times(s, Times(x, x));
    hide Times;
    TimesSquare(x);
    TimesMonotone(0.01, s, Times(x, x), Times(x, x));
    TimesRaw(0.01, Times(x, x));
  }

  lemma ReflectionObjective(c: real, d: real)
    requires -1.0 <= c <= 1.0
    ensures Inner(FlipColumn(Diagonal(c, d, d)), Diagonal(-1.0, 3.0, 3.0)) <= 1.0
  {
  }
}
