/**
 The smallest case the covariance path of `sinew_align` is for (src/gen/sinew_align.c:283-343): two exact pairs with
 orthogonal unit sources. The accumulated covariance is singular; the cross-product pair completes it, so nothing is
 regularised, the fast path is taken and the rotation is recovered.
 */
module TwoPairs {
  import opened LinAlg
  import opened Forms
  import opened NewtonSchulz
  import opened Convergence
  import opened FastPath
  import opened Optimality
  import opened Conditioning
  import opened PolarFactor
  import opened MathLibrary
  import opened Kabsch
  import opened ShortestArc
  import opened Align
  import opened AlignQuality

  function Two(r: Mat, b0: Vec, b1: Vec): seq<Pair> {
    [Pair(Apply(r, b0), b0), Pair(Apply(r, b1), b1)]
  }

  /** b0, b1 and their normal. */
  function Frame(b0: Vec, b1: Vec): Triple3<Vec> {
    Triple3(b0, b1, Cross(b0, b1))
  }

  /** The share of the normal direction, just below 1. */
  const SHARE := Times(1.0 / 1.00000001, 1.0 / 1.00000001)

  lemma ShareRange()
    ensures 0.9999 <= SHARE <= 1.0
  {
  }

  lemma TwoCovariance(r: Mat, b0: Vec, b1: Vec, v: Vec)
    ensures Apply(Covariance(Two(r, b0, b1)), v)
         == VAdd(VScale(Dot(b0, v), Apply(r, b0)), VScale(Dot(b1, v), Apply(r, b1)))
  {
    var p, q := Pair(Apply(r, b0), b0), Pair(Apply(r, b1), b1);
    assert Two(r, b0, b1) == [] + [p] + [q];
    assert Covariance([]) == Mat(ZERO, ZERO, ZERO);
    ZeroPlus(Outer(p.target, b0));
    hide Covariance, Outer, Apply, Dot, VAdd, VScale, MAdd;
    CovarianceSnoc([], p);
    CovarianceSnoc([] + [p], q);
    AddApply(Outer(p.target, b0), Outer(q.target, b1), v);
    OuterApply(p.target, b0, v);
    OuterApply(q.target, b1, v);
  }

  lemma ZeroPlus(a: Mat)
    ensures MAdd(Mat(ZERO, ZERO, ZERO), a) == a
  {
  }

  lemma RootOfOne(m: Libm)
    requires m.Exact()
    ensures m.sqrt(1.0) == 1.0
  {
    hide m.Exact;
    m.SqrtSquare(1.0);
    var t := m.sqrt(1.0);
    assert Times(t - 1.0, t + 1.0) == Times(t, t) - 1.0;
    if t > 1.0 {
      TimesPositive(t - 1.0, t + 1.0);
    } else if t < 1.0 {
      assert Times(1.0 - t, t + 1.0) == 1.0 - Times(t, t);
      TimesPositive(1.0 - t, t + 1.0);
    }
  }

  lemma UnitLength(m: Libm, v: Vec)
    requires m.Exact() && Dot(v, v) == 1.0
    ensures Norm(m, v) == 1.0
  {
    hide m.Exact, Dot;
    RootOfOne(m);
  }

  /** All lengths are 1, so the factor of the cross-product pair is the share. */
  lemma TwoFactor(m: Libm, r: Mat, b0: Vec, b1: Vec)
    requires m.Exact() && Rotation(r) && Dot(b0, b0) == 1.0 && Dot(b1, b1) == 1.0 && Dot(b0, b1) == 0.0
    ensures var a0, a1, n := Apply(r, b0), Apply(r, b1), Cross(b0, b1);
            && Norm(m, Cross(a0, a1)) == 1.0 && Norm(m, n) == 1.0 && Dot(n, n) == 1.0
            && Cross(a0, a1) == Apply(r, n) && NormalsFactor(m, a0, a1, b0, b1) == SHARE
  {
    hide m.Exact, Dot, Cross, Apply, Rotation, Norm, Times;
    var a0, a1, n := Apply(r, b0), Apply(r, b1), Cross(b0, b1);
    RotationIsOrthogonal(r);
    RotationCross(r, b0, b1);
    UnitCross(b0, b1);
    OrthogonalDotHidden(r, b0); OrthogonalDotHidden(r, n);
    UnitLength(m, n); UnitLength(m, b0); UnitLength(m, a0); UnitLength(m, Cross(a0, a1));
  }

  lemma OrthogonalDotHidden(r: Mat, v: Vec)
    requires Orthogonal(r)
    ensures Dot(Apply(r, v), Apply(r, v)) == Dot(v, v)
  {
    hide Dot, Apply, Orthogonal;
    OrthogonalDot(r, v, v);
  }

  /** The full covariance carries b0, b1 and their normal to their images, the last shortened by the share. */
  lemma TwoImages(m: Libm, r: Mat, b0: Vec, b1: Vec)
    requires m.Exact() && Rotation(r) && Dot(b0, b0) == 1.0 && Dot(b1, b1) == 1.0 && Dot(b0, b1) == 0.0
    ensures var h, n := FullCovariance(m, Two(r, b0, b1)), Cross(b0, b1);
            && Apply(h, b0) == Apply(r, b0) && Apply(h, b1) == Apply(r, b1) && Apply(h, n) == VScale(SHARE, Apply(r, n))
  {
    hide m.Exact, Dot, Cross, Apply, Rotation, Norm, Covariance, WithNormals, NormalsFactor, VAdd, VScale, Times;
    var a0, a1, n := Apply(r, b0), Apply(r, b1), Cross(b0, b1);
    var c := Covariance(Two(r, b0, b1));
    TwoFactor(m, r, b0, b1);
    UnitCross(b0, b1);
    DotComm(b0, b1); DotComm(n, b0); DotComm(n, b1);
    NormalsAct(m, c, a0, a1, b0, b1, b0);
    NormalsAct(m, c, a0, a1, b0, b1, b1);
    NormalsAct(m, c, a0, a1, b0, b1, n);
    TwoCovariance(r, b0, b1, b0);
    TwoCovariance(r, b0, b1, b1);
    TwoCovariance(r, b0, b1, n);
    ZeroTimes(SHARE); TimesOne(SHARE);
    Collapse(a0, a1, Apply(r, n));
  }

  lemma Collapse(a: Vec, b: Vec, c: Vec)
    ensures VAdd(VAdd(VScale(1.0, a), VScale(0.0, b)), VScale(0.0, c)) == a
    ensures VAdd(VAdd(VScale(0.0, a), VScale(1.0, b)), VScale(0.0, c)) == b
    ensures VAdd(VAdd(VScale(0.0, a), VScale(0.0, b)), VScale(SHARE, c)) == VScale(SHARE, c)
  {
    hide VAdd, VScale;
    OneScale(a); OneScale(b);
    NoScale(a); NoScale(b); NoScale(c);
    NoAdd(a); NoAdd(b); NoAdd(VScale(SHARE, c)); NoAdd(ZERO);
  }

  lemma NoScale(v: Vec)
    ensures VScale(0.0, v) == ZERO
  {
    ZeroTimes(v.x); ZeroTimes(v.y); ZeroTimes(v.z);
  }

  lemma NoAdd(v: Vec)
    ensures VAdd(v, ZERO) == v && VAdd(ZERO, v) == v
  {
  }

  /** h = (R B) diag(1, 1, share) B^T for the frame B. */
  lemma TwoFactors(m: Libm, r: Mat, b0: Vec, b1: Vec)
    requires m.Exact() && Rotation(r) && Dot(b0, b0) == 1.0 && Dot(b1, b1) == 1.0 && Dot(b0, b1) == 0.0
    ensures var h, b := FullCovariance(m, Two(r, b0, b1)), Columns(Frame(b0, b1));
            && Orthogonal(b) && Mul(h, b) == Mul(Mul(r, b), Diagonal(1.0, 1.0, SHARE))
  {
    hide m.Exact, Dot, Cross, Apply, Rotation, FullCovariance, Columns, Mul, Diagonal, VScale, Orthogonal;
    var h, f := FullCovariance(m, Two(r, b0, b1)), Frame(b0, b1);
    UnitCross(b0, b1);
    OrthonormalColumns(f);
    TwoImages(m, r, b0, b1);
    ApplyColumns(h, f);
    ApplyColumns(r, f);
    ColumnsScaled(Triple3(Apply(r, f.t0), Apply(r, f.t1), Apply(r, f.t2)), 1.0, 1.0, SHARE);
    OneScale(Apply(r, f.t0)); OneScale(Apply(r, f.t1));
  }

  lemma TwoDet(m: Libm, r: Mat, b0: Vec, b1: Vec)
    requires m.Exact() && Rotation(r) && Dot(b0, b0) == 1.0 && Dot(b1, b1) == 1.0 && Dot(b0, b1) == 0.0
    ensures Det(FullCovariance(m, Two(r, b0, b1))) == SHARE
  {
    hide m.Exact, Dot, FullCovariance, Columns, Mul, Diagonal, Orthogonal, Det, Frame, Times;
    var h, b := FullCovariance(m, Two(r, b0, b1)), Columns(Frame(b0, b1));
    TwoFactors(m, r, b0, b1);
    OrthogonalDet(b);
    DetMul(h, b);
    DetMul(Mul(r, b), Diagonal(1.0, 1.0, SHARE));
    DetMul(r, b);
    ShareDet();
  }

  lemma ShareDet()
    ensures Det(Diagonal(1.0, 1.0, SHARE)) == SHARE
  {
    hide Det, Times;
    DetOf(1.0, 0.0, 0.0, 0.0, 1.0, 0.0, 0.0, 0.0, SHARE);
  }

  lemma TwoContracts(m: Libm, r: Mat, b0: Vec, b1: Vec)
    requires m.Exact() && Rotation(r) && Dot(b0, b0) == 1.0 && Dot(b1, b1) == 1.0 && Dot(b0, b1) == 0.0
    ensures Contracts(FullCovariance(m, Two(r, b0, b1)), 1.0)
  {
    hide m.Exact, Dot, FullCovariance, Columns, Mul, Diagonal, Orthogonal, Det, Frame, Norm2, Contracts, Rotation;
    var h, b := FullCovariance(m, Two(r, b0, b1)), Columns(Frame(b0, b1));
    TwoFactors(m, r, b0, b1);
    RotationIsOrthogonal(r);
    OrthogonalMul(r, b);
    ShareRange();
    DiagonalReach(1.0, 1.0, SHARE);
    ContractsThrough(h, b, Mul(r, b), Diagonal(1.0, 1.0, SHARE));
  }

  /** h B = O D with B and O orthogonal: h stretches as little as D. */
  lemma ContractsThrough(h: Mat, b: Mat, o: Mat, d: Mat)
    requires Orthogonal(b) && Orthogonal(o) && Mul(h, b) == Mul(o, d) && Contracts(d, 1.0)
    ensures Contracts(h, 1.0)
  {
    hide Dot, Apply, Mul, Orthogonal, Transpose;
    forall v
      ensures Norm2(h, v) <= 1.0 * Dot(v, v)
    {
      var y := Apply(Transpose(b), v);
      OrthogonalFacts(b);
      OrthogonalDot(Transpose(b), v, v);
      ApplyMul(b, Transpose(b), v);
      IdApply(v);
      ApplyMul(h, b, y);
      ApplyMul(o, d, y);
      OrthogonalDot(o, Apply(d, y), Apply(d, y));
      ContractsAt(d, 1.0, y);
    }
  }

  /** The rows of a contraction have length at most 1. */
  lemma RowLength(h: Mat, x: Vec)
    requires Contracts(h, 1.0) && Dot(x, x) == 1.0
    ensures var y := Apply(Transpose(h), x); Dot(y, y) <= 1.0
  {
    hide Dot, Apply, Transpose, Contracts, Times;
    var y := Apply(Transpose(h), x);
    var n := Dot(y, y);
    Adjoint(h, x, y);
    ContractsAt(h, 1.0, y);
    CauchySchwarz(Apply(h, y), x);
    DotSelf(y);
    TimesOne(Norm2(h, y));
    DotComm(x, Apply(h, y));
    TimesAdd(n, n, 1.0);
    TimesOne(n);
    if n > 1.0 {
      TimesPositive(n, n - 1.0);
    }
  }

  lemma RowSumOfUnit(v: Vec)
    requires Dot(v, v) <= 1.0
    ensures RowSum(v) <= 1.7321
  {
    hide Abs;
    var a, b, c := Abs(v.x), Abs(v.y), Abs(v.z);
    AbsSquare(v.x); AbsSquare(v.y); AbsSquare(v.z);
    RowSumOfUnitScalar(a, b, c);
  }

  lemma AbsSquare(x: real)
    ensures Times(Abs(x), Abs(x)) == Times(x, x) && Abs(x) >= 0.0
  {
  }

  lemma RowSumOfUnitScalar(a: real, b: real, c: real)
    requires Times(a, a) + Times(b, b) + Times(c, c) <= 1.0 && a >= 0.0 && b >= 0.0 && c >= 0.0
    ensures a + b + c <= 1.7321
  {
    var s := a + b + c;
    TimesSquare(a - b); TimesSquare(b - c); TimesSquare(c - a);
    assert Times(s, s) + Times(a - b, a - b) + Times(b - c, b - c) + Times(c - a, c - a)
        == 3.0 * (Times(a, a) + Times(b, b) + Times(c, c));
    if s > 1.7321 {
      TimesMonotone(1.7321, s, 1.7321, s);
    }
  }

  lemma ContractionRowSum(h: Mat)
    requires Contracts(h, 1.0)
    ensures MaxRowSum(h) <= 1.7321
  {
    RowsOf(h);
    hide Dot, Contracts, RowSum, MaxRowSum, Apply, Transpose;
    DotBasis(E0); DotBasis(E1); DotBasis(E2);
    RowLength(h, E0); RowLength(h, E1); RowLength(h, E2);
    RowSumOfUnit(h.r0); RowSumOfUnit(h.r1); RowSumOfUnit(h.r2);
    MaxOfThree(h, 1.7321);
  }

  lemma RowsOf(h: Mat)
    ensures Apply(Transpose(h), E0) == h.r0 && Apply(Transpose(h), E1) == h.r1 && Apply(Transpose(h), E2) == h.r2
  {
    var t := Transpose(h);
    hide Dot;
    DotBasis(t.r0); DotBasis(t.r1); DotBasis(t.r2);
  }

  /** A contraction of determinant near 1 is not regularised and is within reach of the thirty steps. */
  lemma NearUnitReady(h: Mat)
    requires Contracts(h, 1.0) && 0.9999 <= Det(h) <= 1.0
    ensures Bump(h) == 0.0 && Ready(h)
  {
    hide Contracts, Det, MaxRowSum, Bump, Ready, Expands, Valid9, Ns30;
    ContractionRowSum(h);
    MaxNonNegative(h);
    var s, c := Max(MaxRowSum(h), 0.00000001), MaxRowSum(h) + EPS;
    CubeBelow(s);
    CubeBelow(c);
    BumpExact(h);
    TimesRaw(c, c);
    CubeRaw(c);
    WellConditioned(h);
  }

  lemma CubeBelow(s: real)
    requires 0.0 <= s <= 1.7322
    ensures Times(s, Times(s, s)) <= 5.2
  {
    TimesMonotone(s, 1.7322, s, 1.7322);
    TimesNonNegative(s, s);
    TimesMonotone(s, 1.7322, Times(s, s), Times(1.7322, 1.7322));
    assert Times(1.7322, Times(1.7322, 1.7322)) <= 5.2;
  }

  /** Two exact pairs with orthogonal unit sources: the answer is within 3e-6 of the rotation on every vector. */
  lemma TwoPairsRecovered(m: Libm, r: Mat, b0: Vec, b1: Vec)
    requires m.Exact() && Rotation(r) && Dot(b0, b0) == 1.0 && Dot(b1, b1) == 1.0 && Dot(b0, b1) == 0.0
    ensures Within(AlignPairs(m, Two(r, b0, b1)), r, 0.000003)
  {
    hide m.Exact, Rotation, Dot, Contracts, Det, Ready, Bump, Regularize, FullCovariance, AlignPairs, Within, Volume,
         Valid9, Ns30, Apply;
    var ps := Two(r, b0, b1);
    var h := FullCovariance(m, ps);
    TwoContracts(m, r, b0, b1);
    TwoDet(m, r, b0, b1);
    ShareRange();
    NearUnitReady(h);
    BumpFacts(h);
    NoBump(h);
    AlignRecoversRotation(m, ps, r);
  }
}
