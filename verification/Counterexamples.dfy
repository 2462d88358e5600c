/**
 Inputs on which `sinew_align` (src/gen/sinew_align.c:283-343) does not do what its header says, through the whole
 solver and for every exact mathematical library: an answer that is not a best fit, exact data of a rotation answered
 with another, and data answered with a singular matrix.
 */
module Counterexamples {
  import opened LinAlg
  import opened Forms
  import opened NewtonSchulz
  import opened Convergence
  import opened FastPath
  import opened Optimality
  import opened PolarFactor
  import opened Reflection
  import opened MathLibrary
  import opened Jacobi
  import opened Kabsch
  import opened ShortestArc
  import opened Align
  import opened AlignQuality

  // ----- not a best fit

  /** Four pairs with covariance diag(-1, 3, 3); the first two are parallel, so they add no cross-product pair. */
  function Mirrored(): seq<Pair> {
    var half := Pair(Vec(-0.5, 0.0, 0.0), E0);
    [half, half, Pair(Vec(0.0, 3.0, 0.0), E1), Pair(Vec(0.0, 0.0, 3.0), E2)]
  }

  lemma AxisPair(c: real, d: real, e: real)
    ensures Outer(Vec(c, 0.0, 0.0), E0) == Diagonal(c, 0.0, 0.0)
    ensures Outer(Vec(0.0, d, 0.0), E1) == Diagonal(0.0, d, 0.0)
    ensures Outer(Vec(0.0, 0.0, e), E2) == Diagonal(0.0, 0.0, e)
  {
  }

  lemma DiagonalSum(a: real, b: real, c: real, d: real, e: real, f: real)
    ensures MAdd(Diagonal(a, b, c), Diagonal(d, e, f)) == Diagonal(a + d, b + e, c + f)
  {
  }

  lemma MirroredCovariance()
    ensures Covariance(Mirrored()) == Diagonal(-1.0, 3.0, 3.0)
  {
    hide MAdd, Outer, Diagonal;
    var half := Pair(Vec(-0.5, 0.0, 0.0), E0);
    var p2, p3 := Pair(Vec(0.0, 3.0, 0.0), E1), Pair(Vec(0.0, 0.0, 3.0), E2);
    assert Mirrored() == [] + [half] + [half] + [p2] + [p3];
    NoPairs();
    hide Covariance;
    CovarianceSnoc([], half);
    CovarianceSnoc([] + [half], half);
    CovarianceSnoc([] + [half] + [half], p2);
    CovarianceSnoc([] + [half] + [half] + [p2], p3);
    AxisPair(-0.5, 3.0, 3.0);
    DiagonalSum(0.0, 0.0, 0.0, -0.5, 0.0, 0.0);
    DiagonalSum(-0.5, 0.0, 0.0, -0.5, 0.0, 0.0);
    DiagonalSum(-1.0, 0.0, 0.0, 0.0, 3.0, 0.0);
    DiagonalSum(-1.0, 3.0, 0.0, 0.0, 0.0, 3.0);
  }

  lemma NoPairs()
    ensures Covariance([]) == Diagonal(0.0, 0.0, 0.0)
  {
  }

  lemma MirroredVolume()
    ensures Volume(Diagonal(-1.0, 3.0, 3.0)) >= 0.000001
  {
    hide Det, MaxRowSum;
    MirroredDet();
    MirroredScale();
  }

  lemma MirroredDet()
    ensures Det(Diagonal(-1.0, 3.0, 3.0)) == -9.0
  {
    hide Det;
    DetOf(-1.0, 0.0, 0.0, 0.0, 3.0, 0.0, 0.0, 0.0, 3.0);
  }

  lemma MirroredScale()
    ensures MaxRowSum(Diagonal(-1.0, 3.0, 3.0)) == 3.0
  {
    hide Abs;
    assert Abs(-1.0) == 1.0 && Abs(3.0) == 3.0 && Abs(0.0) == 0.0 by {
      AbsOf();
    }
  }

  lemma AbsOf()
    ensures Abs(-1.0) == 1.0 && Abs(3.0) == 3.0 && Abs(0.0) == 0.0
  {
  }

  lemma ParallelNormals(m: Libm, h: Mat, a: Vec, b: Vec)
    requires m.Exact()
    ensures WithNormals(m, h, a, a, b, b) == h
  {
    hide Cross, Dot, m.Exact, Outer, VScale;
    SelfCross(a);
    SelfCross(b);
    NormOfZero(m);
  }

  lemma SelfCross(a: Vec)
    ensures Cross(a, a) == ZERO
  {
    TimesComm(a.x, a.y); TimesComm(a.x, a.z); TimesComm(a.y, a.z);
    hide Times;
  }

  lemma NormOfZero(m: Libm)
    requires m.Exact()
    ensures Norm(m, ZERO) == 0.0
  {
    hide Dot, m.Exact, Times;
    DotZero(ZERO);
    m.SqrtSquare(0.0);
    if m.sqrt(0.0) > 0.0 {
      TimesPositive(m.sqrt(0.0), m.sqrt(0.0));
    }
  }

  /** On these pairs sinew_align returns, through its fast path, an answer whose objective against the covariance is at
      most 1, while the identity, a rotation, reaches 5. The covariance has a negative determinant and stretches the
      first axis less than the last. */
  lemma AlignNotBest(m: Libm)
    requires m.Exact()
    ensures Inner(AlignPairs(m, Mirrored()), Covariance(Mirrored())) <= 1.0
    ensures Rotation(ID) && Inner(ID, Covariance(Mirrored())) == 5.0
    ensures !LeastLast(Covariance(Mirrored()))
  {
    hide Covariance, WithNormals, Ns30, Valid9, Rotation, Inner, Regularize, KabschFit, Diagonal, Volume, Rodrigues,
         m.Exact,
         LeastLast;
    var h := Diagonal(-1.0, 3.0, 3.0);
    MirroredCovariance();
    ParallelNormals(m, h, Vec(-0.5, 0.0, 0.0), E0);
    MirroredVolume();
    NoBump(h);
    FlipCounterexample();
    FirstAxisLess();
  }

  lemma FirstAxisLess()
    ensures !LeastLast(Diagonal(-1.0, 3.0, 3.0))
  {
    hide Norm2, Dot, Diagonal;
    AxisNorms();
    assert Norm2(Diagonal(-1.0, 3.0, 3.0), E0) < Norm2(Diagonal(-1.0, 3.0, 3.0), E2) * Dot(E0, E0);
  }

  lemma AxisNorms()
    ensures var h := Diagonal(-1.0, 3.0, 3.0); Norm2(h, E0) == 1.0 && Norm2(h, E2) == 9.0 && Dot(E0, E0) == 1.0
  {
    hide Dot, Diagonal, Times;
    DiagonalApply(-1.0, 3.0, 3.0, E0);
    DiagonalApply(-1.0, 3.0, 3.0, E2);
    TimesRaw(-1.0, 1.0); TimesRaw(3.0, 0.0); TimesRaw(-1.0, 0.0); TimesRaw(3.0, 1.0);
    DotRaw(Vec(-1.0, 0.0, 0.0), Vec(-1.0, 0.0, 0.0));
    DotRaw(Vec(0.0, 0.0, 3.0), Vec(0.0, 0.0, 3.0));
    DotRaw(E0, E0);
  }

  // ----- exact data answered with another rotation

  /** The half turn about the first axis. */
  const HALF_TURN := Diagonal(1.0, -1.0, -1.0)

  /** Exact data of the half turn: two independent directions, the first of them given twice. */
  function HalfTurnPairs(): seq<Pair> {
    [Pair(E0, E0), Pair(E0, E0), Pair(Vec(0.0, 0.0, -1.0), E2)]
  }

  lemma HalfTurnCovariance()
    ensures Covariance(HalfTurnPairs()) == Diagonal(2.0, 0.0, -1.0)
  {
    hide MAdd, Outer, Diagonal;
    var p, q := Pair(E0, E0), Pair(Vec(0.0, 0.0, -1.0), E2);
    assert HalfTurnPairs() == [] + [p] + [p] + [q];
    NoPairs();
    hide Covariance;
    CovarianceSnoc([], p);
    CovarianceSnoc([] + [p], p);
    CovarianceSnoc([] + [p] + [p], q);
    AxisPair(1.0, 0.0, -1.0);
    DiagonalSum(0.0, 0.0, 0.0, 1.0, 0.0, 0.0);
    DiagonalSum(1.0, 0.0, 0.0, 1.0, 0.0, 0.0);
    DiagonalSum(2.0, 0.0, 0.0, 0.0, 0.0, -1.0);
  }

  lemma HalfTurnExact()
    ensures Rotation(HALF_TURN) && ExactData(HalfTurnPairs(), HALF_TURN)
  {
    HalfTurnImages();
    HalfTurnDet();
    HalfTurnSquare();
    hide Det, Mul, Apply;
  }

  lemma HalfTurnImages()
    ensures Apply(HALF_TURN, E0) == E0 && Apply(HALF_TURN, E2) == Vec(0.0, 0.0, -1.0)
  {
    hide Apply, Times;
    DiagonalApply(1.0, -1.0, -1.0, E0);
    DiagonalApply(1.0, -1.0, -1.0, E2);
    TimesRaw(1.0, 1.0); TimesRaw(-1.0, 0.0); TimesRaw(1.0, 0.0); TimesRaw(-1.0, 1.0);
  }

  lemma HalfTurnDet()
    ensures Det(HALF_TURN) == 1.0
  {
    hide Det;
    DetOf(1.0, 0.0, 0.0, 0.0, -1.0, 0.0, 0.0, 0.0, -1.0);
  }

  lemma HalfTurnSquare()
    ensures Gram(HALF_TURN) == ID
  {
    assert Transpose(HALF_TURN) == HALF_TURN;
    DiagonalMul(1.0, -1.0, -1.0, 1.0, -1.0, -1.0);
    hide Mul, Transpose;
    assert Times(1.0, 1.0) == 1.0 && Times(-1.0, -1.0) == 1.0;
  }

  /** A flat covariance of largest row sum s is bumped by a twentieth of it. */
  lemma FlatBump(h: Mat, s: real)
    requires Det(h) == 0.0 && MaxRowSum(h) == s && s >= 1.0
    ensures Bump(h) == 0.05 * s
  {
    hide Det, MaxRowSum;
    NoVolume(s);
  }

  lemma NoVolume(s: real)
    requires s >= 1.0
    ensures Abs(0.0) / (s * s * s) == 0.0
  {
    TimesPositive(s, s);
    TimesPositive(Times(s, s), s);
  }

  lemma HalfTurnBump()
    ensures Regularize(Diagonal(2.0, 0.0, -1.0)) == Diagonal(2.1, 0.1, -0.9)
  {
    hide Bump, MScale, Det, MaxRowSum;
    var h := Diagonal(2.0, 0.0, -1.0);
    DetOf(2.0, 0.0, 0.0, 0.0, 0.0, 0.0, 0.0, 0.0, -1.0);
    DiagonalRowSum(2.0, 0.0, -1.0);
    FlatBump(h, 2.0);
    ScaledIdentity(0.1);
  }

  lemma DiagonalRowSum(a: real, b: real, c: real)
    requires Abs(a) >= Abs(b) && Abs(a) >= Abs(c)
    ensures MaxRowSum(Diagonal(a, b, c)) == Abs(a)
  {
  }

  lemma HalfTurnStart()
    ensures var t := 1.0 / (2.1 + EPS);
            Start(Diagonal(2.1, 0.1, -0.9)) == Diagonal(Times(t, 2.1), Times(t, 0.1), Times(t, -0.9))
  {
    var t := 1.0 / (2.1 + EPS);
    ZeroTimes(t);
    DiagonalRowSum(2.1, 0.1, -0.9);
    hide Times, MaxRowSum;
  }

  lemma HalfTurnScale(t: real)
    requires t == 1.0 / (2.1 + EPS)
    ensures 0.9 <= Times(t, 2.1) <= 1.0 && 0.04 <= Times(t, 0.1) <= 0.05 && -0.5 <= Times(t, -0.9) <= -0.4
  {
  }

  /** The bumped covariance is within reach of the thirty steps and has a negative determinant, so the accepted answer
      is the diagonal iterate with its last entry negated. */
  lemma HalfTurnAnswer()
    ensures var g := Diagonal(2.1, 0.1, -0.9); Valid9(Ns30(g)) && Apply(Ns30(g), E2).z > 0.0
  {
    hide Start, Iterate, Valid9, Det, FlipColumn, Diagonal, Contracts, Expands, Ready, ScalarIterate, Times, Apply;
    var g := Diagonal(2.1, 0.1, -0.9);
    var t := 1.0 / (2.1 + EPS);
    var a, b, c := Times(t, 2.1), Times(t, 0.1), Times(t, -0.9);
    HalfTurnStart();
    HalfTurnScale(t);
    DiagonalReach(a, b, c);
    ContractionReady(g);
    FastPathAccepted(g);
    DiagonalIterate(a, b, c, 30);
    ScalarNegative(c, 30);
    HalfTurnNegative();
    DeterminantSign(g, 30);
    FlippedLast(ScalarIterate(a, 30), ScalarIterate(b, 30), ScalarIterate(c, 30));
  }

  lemma HalfTurnNegative()
    ensures Det(Diagonal(2.1, 0.1, -0.9)) < 0.0
  {
    hide Det;
    DetOf(2.1, 0.0, 0.0, 0.0, 0.1, 0.0, 0.0, 0.0, -0.9);
  }

  lemma FlippedLast(a: real, b: real, c: real)
    ensures Apply(FlipColumn(Diagonal(a, b, c)), E2).z == -c
  {
    hide Dot;
    DotBasis(FlipColumn(Diagonal(a, b, c)).r2);
  }

  /** Exact data of a half turn, which it determines: the flat covariance is regularised, which does not keep the
      rotation, and the accepted answer sends the last axis up where its target points down. */
  lemma HalfTurnLost(m: Libm)
    requires m.Exact()
    ensures Rotation(HALF_TURN) && ExactData(HalfTurnPairs(), HALF_TURN)
    ensures !KeepsRotation(FullCovariance(m, HalfTurnPairs()), HALF_TURN)
    ensures Apply(HALF_TURN, E2).z == -1.0 && Apply(AlignPairs(m, HalfTurnPairs()), E2).z > 0.0
  {
    hide Covariance, WithNormals, Ns30, Valid9, Rotation, Regularize, KabschFit, Diagonal, Rodrigues, m.Exact, Apply,
         KeepsRotation, ExactData;
    var h := Diagonal(2.0, 0.0, -1.0);
    HalfTurnExact();
    HalfTurnImages();
    HalfTurnCovariance();
    ParallelNormals(m, h, E0, E0);
    HalfTurnBump();
    HalfTurnAnswer();
    HalfTurnForm();
  }

  lemma HalfTurnForm()
    ensures !KeepsRotation(Diagonal(2.0, 0.0, -1.0), HALF_TURN)
  {
    KeptFlip();
    hide Regularize, Mul, Transpose, Psd, FlipColumn;
    HalfTurnBump();
    HalfTurnSymmetric();
    DiagonalMul(1.0, -1.0, -1.0, 2.1, 0.1, -0.9);
    DiagonalMul(1.0, -1.0, 1.0, 2.1, 0.1, -0.9);
    DiagonalNotPsd(Times(1.0, 2.1), Times(-1.0, 0.1), Times(-1.0, -0.9));
    DiagonalNotPsd(Times(1.0, 2.1), Times(-1.0, 0.1), Times(1.0, -0.9));
  }

  /** Exact data of the same half turn with another second direction. */
  function KeptPairs(): seq<Pair> {
    [Pair(E0, E0), Pair(E0, E0), Pair(Vec(0.0, -1.0, 0.0), E1)]
  }

  lemma KeptCovariance()
    ensures Covariance(KeptPairs()) == Diagonal(2.0, -1.0, 0.0)
  {
    hide MAdd, Outer, Diagonal;
    var p, q := Pair(E0, E0), Pair(Vec(0.0, -1.0, 0.0), E1);
    assert KeptPairs() == [] + [p] + [p] + [q];
    NoPairs();
    hide Covariance;
    CovarianceSnoc([], p);
    CovarianceSnoc([] + [p], p);
    CovarianceSnoc([] + [p] + [p], q);
    AxisPair(1.0, -1.0, 0.0);
    DiagonalSum(0.0, 0.0, 0.0, 1.0, 0.0, 0.0);
    DiagonalSum(1.0, 0.0, 0.0, 1.0, 0.0, 0.0);
    DiagonalSum(2.0, 0.0, 0.0, 0.0, -1.0, 0.0);
  }

  lemma KeptBump()
    ensures Regularize(Diagonal(2.0, -1.0, 0.0)) == Diagonal(2.1, -0.9, 0.1)
  {
    hide Bump, MScale, Det, MaxRowSum;
    var h := Diagonal(2.0, -1.0, 0.0);
    DetOf(2.0, 0.0, 0.0, 0.0, -1.0, 0.0, 0.0, 0.0, 0.0);
    DiagonalRowSum(2.0, -1.0, 0.0);
    FlatBump(h, 2.0);
    ScaledIdentity(0.1);
  }

  lemma KeptReady()
    ensures Ready(Diagonal(2.1, -0.9, 0.1))
  {
    hide Start, Diagonal, Contracts, Expands, Ready, Times;
    var t := 1.0 / (2.1 + EPS);
    KeptStart();
    HalfTurnScale(t);
    DiagonalReach(Times(t, 2.1), Times(t, -0.9), Times(t, 0.1));
    ContractionReady(Diagonal(2.1, -0.9, 0.1));
  }

  lemma KeptStart()
    ensures var t := 1.0 / (2.1 + EPS);
            Start(Diagonal(2.1, -0.9, 0.1)) == Diagonal(Times(t, 2.1), Times(t, -0.9), Times(t, 0.1))
  {
    var t := 1.0 / (2.1 + EPS);
    ZeroTimes(t);
    DiagonalRowSum(2.1, -0.9, 0.1);
    hide Times, MaxRowSum;
  }

  lemma KeptForm()
    ensures var h := Diagonal(2.0, -1.0, 0.0); !KeepsForm(h, HALF_TURN) && KeepsForm(h, FlipColumn(HALF_TURN))
  {
    KeptFlip();
    hide Regularize, Mul, Transpose, Psd, FlipColumn;
    KeptBump();
    HalfTurnSymmetric();
    DiagonalMul(1.0, -1.0, -1.0, 2.1, -0.9, 0.1);
    DiagonalMul(1.0, -1.0, 1.0, 2.1, -0.9, 0.1);
    DiagonalNotPsd(Times(1.0, 2.1), Times(-1.0, -0.9), Times(-1.0, 0.1));
    DiagonalPsd(Times(1.0, 2.1), Times(-1.0, -0.9), Times(1.0, 0.1));
  }

  lemma KeptFlip()
    ensures Transpose(FlipColumn(HALF_TURN)) == Diagonal(1.0, -1.0, 1.0)
  {
  }

  lemma DiagonalPsd(a: real, b: real, c: real)
    requires a >= 0.0 && b >= 0.0 && c >= 0.0
    ensures Psd(Diagonal(a, b, c))
  {
    hide Apply, Times;
    forall v
      ensures Quad(Diagonal(a, b, c), v) >= 0.0
    {
      DiagonalApply(a, b, c, v);
      WeightedSquare(a, v.x); WeightedSquare(b, v.y); WeightedSquare(c, v.z);
    }
  }

  lemma WeightedSquare(a: real, x: real)
    requires a >= 0.0
    ensures Times(x, Times(a, x)) >= 0.0
  {
    assert Times(x, Times(a, x)) == Times(a, Times(x, x));
    TimesSquare(x);
    TimesNonNegative(a, Times(x, x));
  }

  /** Here regularisation loses the form R times psd too, but leaves R with its last column negated times psd: the
      column flip undoes the negation and the answer is within 3e-6 of the half turn. */
  lemma HalfTurnKept(m: Libm)
    requires m.Exact()
    ensures Rotation(HALF_TURN) && ExactData(KeptPairs(), HALF_TURN)
    ensures !KeepsForm(FullCovariance(m, KeptPairs()), HALF_TURN)
    ensures KeepsRotation(FullCovariance(m, KeptPairs()), HALF_TURN)
    ensures Within(AlignPairs(m, KeptPairs()), HALF_TURN, 0.000003)
  {
    hide Covariance, WithNormals, Rotation, Regularize, Diagonal, m.Exact, Apply, KeepsForm, Ready, Within, AlignPairs,
         FlipColumn;
    var h := Diagonal(2.0, -1.0, 0.0);
    HalfTurnExact();
    KeptImages();
    KeptCovariance();
    ParallelNormals(m, h, E0, E0);
    KeptBump();
    KeptForm();
    KeptReady();
    AlignRecoversRotation(m, KeptPairs(), HALF_TURN);
  }

  lemma KeptImages()
    ensures ExactData(KeptPairs(), HALF_TURN)
  {
    hide Apply, Times;
    HalfTurnImages();
    DiagonalApply(1.0, -1.0, -1.0, E1);
    TimesRaw(1.0, 0.0); TimesRaw(-1.0, 1.0); TimesRaw(-1.0, 0.0);
  }

  lemma HalfTurnSymmetric()
    ensures Transpose(HALF_TURN) == HALF_TURN
  {
  }

  lemma DiagonalNotPsd(a: real, b: real, c: real)
    requires b < 0.0 || c < 0.0
    ensures !Psd(Diagonal(a, b, c))
  {
    hide Dot;
    QuadBasis(Diagonal(a, b, c));
    assert Quad(Diagonal(a, b, c), E1) < 0.0 || Quad(Diagonal(a, b, c), E2) < 0.0;
  }

  // ----- data answered with a singular matrix

  /** Three pairs whose covariance has rank 2 and, once regularised, rank 1. */
  function FlatPairs(): seq<Pair> {
    [Pair(E0, E1), Pair(Vec(0.0, -0.05, 0.0), E1), Pair(Vec(0.0, 0.0, -0.05), E2)]
  }

  const FLAT := Mat(E1, Vec(0.0, -0.05, 0.0), Vec(0.0, 0.0, -0.05))

  /** E0 (0.05, 1, 0)^T */
  const BUMPED_FLAT := Mat(Vec(0.05, 1.0, 0.0), ZERO, ZERO)

  lemma FlatCovariance()
    ensures Covariance(FlatPairs()) == FLAT
  {
    var p, q, r := Pair(E0, E1), Pair(Vec(0.0, -0.05, 0.0), E1), Pair(Vec(0.0, 0.0, -0.05), E2);
    assert FlatPairs() == [] + [p] + [q] + [r];
    assert Covariance([]) == Mat(ZERO, ZERO, ZERO);
    hide Covariance;
    CovarianceSnoc([], p);
    CovarianceSnoc([] + [p], q);
    CovarianceSnoc([] + [p] + [q], r);
    AxisPair(0.0, -0.05, -0.05);
    OuterMixed();
    hide Outer;
  }

  lemma OuterMixed()
    ensures Outer(E0, E1) == Mat(E1, ZERO, ZERO)
  {
  }

  lemma FlatBumped()
    ensures Regularize(FLAT) == BUMPED_FLAT && Det(BUMPED_FLAT) == 0.0
  {
    hide Bump, MScale, Det, MaxRowSum;
    DetOf(0.0, 1.0, 0.0, 0.0, -0.05, 0.0, 0.0, 0.0, -0.05);
    DetOf(0.05, 1.0, 0.0, 0.0, 0.0, 0.0, 0.0, 0.0, 0.0);
    FlatRowSum();
    FlatBump(FLAT, 1.0);
    ScaledIdentity(0.05);
  }

  lemma FlatRowSum()
    ensures MaxRowSum(FLAT) == 1.0
  {
  }

  /** A symmetric matrix whose last axis is already an eigenvector is diagonalised by the first rotation. */
  lemma BlockDiagonalised(m: Libm, a: Mat)
    requires m.Exact() && Symmetric(a) && a.r0.z == 0.0 && a.r1.z == 0.0 && Abs(a.r0.y) >= TINY
    ensures IsDiagonal(Jacobi9(m, a).a)
  {
    hide m.Exact, Rotate, Similar, Sweep, Sweeps;
    var d := Decomposition(a, ID);
    var e := Rotate(m, d, P01);
    RotateRemovesPivot(m, d, P01);
    IdSimilar(a);
    RotateKeepsSimilar(m, d, P01, a);
    SimilarKeeps(e, a);
    BlockStays(m, a);
    OneRotation(m, d, e);
    OneSweep(m, d, e, 49);
  }

  lemma OneRotation(m: Libm, d: Decomposition, e: Decomposition)
    requires e == Rotate(m, d, P01) && e.a.r0.z == 0.0 && e.a.r1.z == 0.0
    ensures Sweep(m, d) == e
  {
    Skipped(m, e, P02);
    Skipped(m, e, P12);
    hide Rotate;
  }

  lemma Skipped(m: Libm, e: Decomposition, k: Plane)
    requires Pivot(e.a, k) == 0.0
    ensures Rotate(m, e, k) == e
  {
  }

  lemma OneSweep(m: Libm, d: Decomposition, e: Decomposition, n: nat)
    requires !Converged(d.a) && Sweep(m, d) == e && Converged(e.a)
    ensures Sweeps(m, d, n + 1) == e
  {
    hide Sweep, Converged;
    assert Sweeps(m, e, n) == e;
  }

  lemma BlockStays(m: Libm, a: Mat)
    requires a.r0.z == 0.0 && a.r1.z == 0.0 && a.r2.x == 0.0 && a.r2.y == 0.0
    ensures var e := Rotate(m, Decomposition(a, ID), P01); e.a.r0.z == 0.0 && e.a.r1.z == 0.0
  {
    var phi := 0.5 * m.atan2(2.0 * a.r0.y, Gap(a, P01));
    ZeroTimes(m.cos(phi));
    ZeroTimes(m.sin(phi));
    hide Times;
  }

  lemma FlatGram()
    ensures var a := Gram(BUMPED_FLAT);
            Symmetric(a) && a.r0.z == 0.0 && a.r1.z == 0.0 && a.r0.y == 0.05
  {
    ProductEntries(BUMPED_FLAT, BUMPED_FLAT);
    hide Mul, Dot;
    GramSymmetric(BUMPED_FLAT);
    DotRaw(Vec(0.05, 0.0, 0.0), Vec(1.0, 0.0, 0.0));
    DotRaw(Vec(0.05, 0.0, 0.0), ZERO);
    DotRaw(Vec(1.0, 0.0, 0.0), ZERO);
  }

  lemma FlatApply(v: Vec)
    ensures Apply(BUMPED_FLAT, v) == Vec(Dot(Vec(0.05, 1.0, 0.0), v), 0.0, 0.0)
  {
    hide Dot;
    DotZero(v);
  }

  /** A rank-one matrix carries at most one of three vectors with orthogonal images to a nonzero one. */
  lemma FlatMiddle(m: Libm, e: Triple3<Eigen>)
    requires m.Exact() && EigenFrame(BUMPED_FLAT, e) && Descending(e)
    ensures Sigma(m, e).y <= RANK_EPS
  {
    hide Dot, m.Exact, Sigma, Times;
    var b := Vec(0.05, 1.0, 0.0);
    FlatApply(e.t0.v);
    FlatApply(e.t1.v);
    var x, y := Dot(b, e.t0.v), Dot(b, e.t1.v);
    DotRaw(Vec(x, 0.0, 0.0), Vec(y, 0.0, 0.0));
    DotRaw(Vec(x, 0.0, 0.0), Vec(x, 0.0, 0.0));
    DotRaw(Vec(y, 0.0, 0.0), Vec(y, 0.0, 0.0));
    SigmaFacts(m, BUMPED_FLAT, e);
    FlatScalar(x, y, Sigma(m, e).y);
  }

  lemma FlatScalar(x: real, y: real, s: real)
    requires x * y + 0.0 * 0.0 + 0.0 * 0.0 == 0.0 && x * x >= y * y && s >= 0.0 && Times(s, s) == y * y
    ensures s == 0.0
  {
    assert Times(Times(x, x), Times(y, y)) == Times(x * y, x * y);
    TimesRaw(x, x);
    TimesRaw(y, y);
    if y != 0.0 {
      TimesSquare(y);
      TimesPositive(Times(x, x), Times(y, y));
    }
    TimesSquare(s);
  }

  /** The three pairs: their covariance has rank 2, regularisation lowers it to rank 1, the fast path is refused, and
      the fallback returns a singular matrix. */
  lemma SingularAnswer(m: Libm)
    requires m.Exact()
    ensures Det(AlignPairs(m, FlatPairs())) == 0.0
  {
    hide Covariance, WithNormals, Ns30, Valid9, Regularize, KabschFit, Rodrigues, m.Exact, Det, Jacobi9, MiddleSigma,
         Gram;
    FlatCovariance();
    FlatNormals(m);
    FlatBumped();
    var g := BUMPED_FLAT;
    FlatRefused();
    FlatGram();
    BlockDiagonalised(m, Gram(g));
    FlatSigma(m);
    KabschBestIff(m, g);
  }

  lemma FlatRefused()
    ensures !Valid9(Ns30(BUMPED_FLAT))
  {
    hide Det, Ns30, Regularize;
    FlatBumped();
    Ns30Determinant(BUMPED_FLAT);
  }

  lemma FlatSigma(m: Libm)
    requires m.Exact() && IsDiagonal(Jacobi9(m, Gram(BUMPED_FLAT)).a)
    ensures MiddleSigma(m, BUMPED_FLAT) <= RANK_EPS
  {
    hide EigenFrame, Descending, Sigma, Jacobi9, SortedEigen, m.Exact;
    JacobiGivesFrame(m, BUMPED_FLAT);
    FlatMiddle(m, SortedEigen(m, BUMPED_FLAT));
  }

  /** The first two sources are parallel, so no cross-product pair is added. */
  lemma FlatNormals(m: Libm)
    requires m.Exact()
    ensures WithNormals(m, FLAT, E0, Vec(0.0, -0.05, 0.0), E1, E1) == FLAT
  {
    hide Cross, Dot, m.Exact, Outer, VScale;
    SelfCross(E1);
    NormOfZero(m);
  }
}
