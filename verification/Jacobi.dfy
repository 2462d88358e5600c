/**
 The cyclic Jacobi eigen-decomposition `sinew_jacobi9` (src/gen/sinew_align.c:173-214): at most 50 sweeps
 of three plane rotations, each annihilating one off-diagonal entry, accumulated in V.
 */
module Jacobi {
  import opened LinAlg
  import opened Forms
  import opened NewtonSchulz
  import opened MathLibrary

  datatype Decomposition = Decomposition(a: Mat, v: Mat)

  const TINY := 0.00000000000000000001

  /** The three pivots (p, q) in the order (0,1), (0,2), (1,2). */
  datatype Plane = P01 | P02 | P12

  function Pivot(a: Mat, k: Plane): real {
    match k
    case P01 => a.r0.y
    case P02 => a.r0.z
    case P12 => a.r1.z
  }

  /** a[q][q] - a[p][p] */
  function Gap(a: Mat, k: Plane): real {
    match k
    case P01 => a.r1.y - a.r0.x
    case P02 => a.r2.z - a.r0.x
    case P12 => a.r2.z - a.r1.y
  }

  function RotateRow(r: Vec, k: Plane, c: real, s: real): Vec {
    match k
    case P01 => Vec(Times(c, r.x) - Times(s, r.y), Times(s, r.x) + Times(c, r.y), r.z)
    case P02 => Vec(Times(c, r.x) - Times(s, r.z), r.y, Times(s, r.x) + Times(c, r.z))
    case P12 => Vec(r.x, Times(c, r.y) - Times(s, r.z), Times(s, r.y) + Times(c, r.z))
  }

  function RotateColumns(m: Mat, k: Plane, c: real, s: real): Mat {
    Mat(RotateRow(m.r0, k, c, s), RotateRow(m.r1, k, c, s), RotateRow(m.r2, k, c, s))
  }

  function RotateRows(m: Mat, k: Plane, c: real, s: real): Mat {
    match k
    case P01 => Mat(VSub(VScale(c, m.r0), VScale(s, m.r1)), VAdd(VScale(s, m.r0), VScale(c, m.r1)), m.r2)
    case P02 => Mat(VSub(VScale(c, m.r0), VScale(s, m.r2)), m.r1, VAdd(VScale(s, m.r0), VScale(c, m.r2)))
    case P12 => Mat(m.r0, VSub(VScale(c, m.r1), VScale(s, m.r2)), VAdd(VScale(s, m.r1), VScale(c, m.r2)))
  }

  function Rotate(m: Libm, d: Decomposition, k: Plane): Decomposition {
    var apq := Pivot(d.a, k);
    if Abs(apq) < TINY then d
    else
      var phi := 0.5 * m.atan2(2.0 * apq, Gap(d.a, k));
      var c, s := m.cos(phi), m.sin(phi);
      Decomposition(RotateRows(RotateColumns(d.a, k, c, s), k, c, s), RotateColumns(d.v, k, c, s))
  }

  function Sweep(m: Libm, d: Decomposition): Decomposition {
    Rotate(m, Rotate(m, Rotate(m, d, P01), P02), P12)
  }

  predicate Converged(a: Mat) {
    Abs(a.r0.y) + Abs(a.r0.z) + Abs(a.r1.z) < TINY
  }

  function Sweeps(m: Libm, d: Decomposition, n: nat): Decomposition
    decreases n
  {
    if n == 0 || Converged(d.a) then d else Sweeps(m, Sweep(m, d), n - 1)
  }

  function Jacobi9(m: Libm, a: Mat): Decomposition {
    Sweeps(m, Decomposition(a, ID), 50)
  }

  // ----- plane rotations as matrices

  function Givens(k: Plane, c: real, s: real): Mat {
    match k
    case P01 => Mat(Vec(c, s, 0.0), Vec(-s, c, 0.0), E2)
    case P02 => Mat(Vec(c, 0.0, s), E1, Vec(-s, 0.0, c))
    case P12 => Mat(E0, Vec(0.0, c, s), Vec(0.0, -s, c))
  }

  lemma UnitTimes(x: real, s: real)
    ensures Times(0.0, x) == 0.0 && Times(1.0, x) == x && Times(-s, x) == -Times(s, x)
    ensures Times(x, 0.0) == 0.0 && Times(x, 1.0) == x && Times(x, -s) == -Times(s, x)
  {
  }

  lemma RotateRowIsApply(r: Vec, k: Plane, c: real, s: real)
    ensures RotateRow(r, k, c, s) == Apply(Transpose(Givens(k, c, s)), r)
  {
    hide Times;
    UnitTimes(r.x, s);
    UnitTimes(r.y, s);
    UnitTimes(r.z, s);
  }

  lemma RotateColumnsIsProduct(m: Mat, k: Plane, c: real, s: real)
    ensures RotateColumns(m, k, c, s) == Mul(m, Givens(k, c, s))
  {
    hide Apply, RotateRow, Givens, Transpose;
    RotateRowIsApply(m.r0, k, c, s);
    RotateRowIsApply(m.r1, k, c, s);
    RotateRowIsApply(m.r2, k, c, s);
  }

  lemma RotateRowsTransposed(m: Mat, k: Plane, c: real, s: real)
    ensures RotateRows(m, k, c, s) == Transpose(RotateColumns(Transpose(m), k, c, s))
  {
    hide Times;
  }

  lemma RotateRowsIsProduct(m: Mat, k: Plane, c: real, s: real)
    ensures RotateRows(m, k, c, s) == Mul(Transpose(Givens(k, c, s)), m)
  {
    hide RotateColumns, RotateRows, Givens, Mul, Transpose;
    var g := Givens(k, c, s);
    RotateRowsTransposed(m, k, c, s);
    RotateColumnsIsProduct(Transpose(m), k, c, s);
    TransposeMul(Transpose(m), g);
    TransposeTwice(m);
  }

  lemma GivensRotation(k: Plane, c: real, s: real)
    requires Times(c, c) + Times(s, s) == 1.0
    ensures Rotation(Givens(k, c, s))
  {
    hide Det, Apply;
    var t := Transpose(Givens(k, c, s));
    RotateRowIsApply(t.r0, k, c, s);
    RotateRowIsApply(t.r1, k, c, s);
    RotateRowIsApply(t.r2, k, c, s);
    GivensColumns(k, c, s);
    GivensDet(k, c, s);
  }

  /** Rotating the columns of the plane rotation back gives the basis. */
  lemma GivensColumns(k: Plane, c: real, s: real)
    requires Times(c, c) + Times(s, s) == 1.0
    ensures var t := Transpose(Givens(k, c, s));
            RotateRow(t.r0, k, c, s) == E0 && RotateRow(t.r1, k, c, s) == E1 && RotateRow(t.r2, k, c, s) == E2
  {
    assert Times(s, -s) == -Times(s, s) && Times(c, -s) == -Times(c, s) && Times(s, c) == Times(c, s);
    UnitTimes(c, s);
    UnitTimes(s, s);
    hide Times;
  }

  lemma GivensDet(k: Plane, c: real, s: real)
    requires Times(c, c) + Times(s, s) == 1.0
    ensures Det(Givens(k, c, s)) == 1.0
  {
    hide Det;
    match k
    case P01 => DetOf(c, s, 0.0, -s, c, 0.0, 0.0, 0.0, 1.0);
    case P02 => DetOf(c, 0.0, s, 0.0, 1.0, 0.0, -s, 0.0, c);
    case P12 => DetOf(1.0, 0.0, 0.0, 0.0, c, s, 0.0, -s, c);
  }

  // ----- what every rotation of every sweep keeps

  /** V is a rotation and A = V^T a V. */
  predicate Similar(d: Decomposition, a: Mat) {
    Rotation(d.v) && d.a == Mul(Transpose(d.v), Mul(a, d.v))
  }

  lemma RotateKeepsSimilar(m: Libm, d: Decomposition, k: Plane, a: Mat)
    requires m.Exact() && Similar(d, a)
    ensures Similar(Rotate(m, d, k), a)
  {
    hide Givens, Mul, Transpose, Det, RotateRows, RotateColumns, Pivot, Gap, m.Exact;
    var apq := Pivot(d.a, k);
    if Abs(apq) >= TINY {
      var phi := 0.5 * m.atan2(2.0 * apq, Gap(d.a, k));
      var c, s := m.cos(phi), m.sin(phi);
      m.JacobiAngle(apq, Gap(d.a, k), c, s);
      var g := Givens(k, c, s);
      GivensRotation(k, c, s);
      OrthogonalMul(d.v, g);
      RotateColumnsIsProduct(d.a, k, c, s);
      RotateColumnsIsProduct(d.v, k, c, s);
      RotateRowsIsProduct(Mul(d.a, g), k, c, s);
      // g^T (V^T (a V)) g = (V g)^T (a (V g))
      var vt, av := Transpose(d.v), Mul(a, d.v);
      TransposeMul(d.v, g);
      MulAssoc(vt, av, g);
      MulAssoc(a, d.v, g);
      MulAssoc(Transpose(g), vt, Mul(a, Mul(d.v, g)));
    }
  }

  lemma {:induction false} SweepsKeepSimilar(m: Libm, d: Decomposition, n: nat, a: Mat)
    requires m.Exact() && Similar(d, a)
    ensures Similar(Sweeps(m, d, n), a)
    decreases n
  {
    hide Rotate, Similar, Converged, m.Exact;
    if n != 0 && !Converged(d.a) {
      var d1 := Rotate(m, d, P01);
      var d2 := Rotate(m, d1, P02);
      RotateKeepsSimilar(m, d, P01, a);
      RotateKeepsSimilar(m, d1, P02, a);
      RotateKeepsSimilar(m, d2, P12, a);
      SweepsKeepSimilar(m, Rotate(m, d2, P12), n - 1, a);
    }
  }

  /** The whole decomposition: V is a rotation and A = V^T a V. */
  lemma Jacobi9Similar(m: Libm, a: Mat)
    requires m.Exact()
    ensures Similar(Jacobi9(m, a), a)
  {
    hide Mul, Transpose, Rotation, Sweeps, m.Exact;
    IdIsRotation();
    MulId(a);
    SweepsKeepSimilar(m, Decomposition(a, ID), 50, a);
  }

  /** Similarity keeps symmetry, the trace and the sum of squares. */
  lemma SimilarKeeps(d: Decomposition, a: Mat)
    requires Similar(d, a) && Symmetric(a)
    ensures Symmetric(d.a) && Trace(d.a) == Trace(a) && Frobenius(d.a) == Frobenius(a)
  {
    hide Mul, Transpose, Det, Trace, Inner;
    var v, vt := d.v, Transpose(d.v);
    OrthogonalFacts(v);
    TransposeMul(vt, Mul(a, v));
    TransposeMul(a, v);
    TransposeTwice(v);
    MulAssoc(vt, a, v);
    // trace: tr(V^T (a V)) = <V, a V> = <V V^T, a>
    InnerTrace(v, Mul(a, v));
    InnerComm(v, Mul(a, v));
    InnerMove(a, v, v);
    InnerComm(a, ID);
    InnerId(a);
    // sum of squares: |V^T b|^2 = |b|^2 on both sides
    var b := Mul(a, v);
    InnerLeftT(vt, b);
    InnerMove(a, b, v);
    MulAssoc(a, v, vt);
    MulId(a);
  }

  lemma InnerId(a: Mat)
    ensures Inner(ID, a) == Trace(a)
  {
    hide Dot;
    DotBasis(a.r0); DotBasis(a.r1); DotBasis(a.r2);
  }

  lemma InnerLeftT(o: Mat, b: Mat)
    requires Orthogonal(o)
    ensures Inner(Mul(o, b), Mul(o, b)) == Inner(b, b)
  {
    hide Mul, Transpose, Inner, Trace;
    InnerTrace(Mul(o, b), Mul(o, b));
    InnerTrace(b, b);
    TransposeMul(o, b);
    MulAssoc(Transpose(b), Transpose(o), Mul(o, b));
    MulAssoc(Transpose(o), o, b);
    MulId(b);
  }

  // ----- each rotation removes its pivot

  /** The off-diagonal sum of squares of a symmetric matrix. */
  function OffSum(a: Mat): real {
    2.0 * (Times(a.r0.y, a.r0.y) + Times(a.r0.z, a.r0.z) + Times(a.r1.z, a.r1.z))
  }

  /** What a rotation in plane k takes out of the off-diagonal sum: 2 apq^2, or nothing when it is skipped. */
  function Removed(a: Mat, k: Plane): real {
    if Abs(Pivot(a, k)) < TINY then 0.0 else 2.0 * Times(Pivot(a, k), Pivot(a, k))
  }

  lemma ZeroSquare()
    ensures Times(0.0, 0.0) == 0.0
  {
  }

  lemma PivotZero(c: real, s: real, p: real, x: real, q: real)
    requires Times(Times(c, c) - Times(s, s), x) == Times(Times(c, s), q - p)
    ensures Times(c, Times(s, p) + Times(c, x)) - Times(s, Times(s, x) + Times(c, q)) == 0.0
  {
    assert c * (s * p + c * x) - s * (s * x + c * q) == (c * c - s * s) * x - (c * s) * (q - p);
  }

  lemma SquaresKept(c: real, s: real, y: real, z: real)
    requires Times(c, c) + Times(s, s) == 1.0
    ensures Times(Times(c, y) - Times(s, z), Times(c, y) - Times(s, z))
            + Times(Times(s, y) + Times(c, z), Times(s, y) + Times(c, z))
         == Times(y, y) + Times(z, z)
  {
    assert (c * y - s * z) * (c * y - s * z) + (s * y + c * z) * (s * y + c * z)
        == (c * c + s * s) * (y * y) + (c * c + s * s) * (z * z);
    assert (c * c + s * s) * (y * y) == y * y && (c * c + s * s) * (z * z) == z * z;
  }

  /** Rotating in plane k annihilates the pivot and takes exactly 2 apq^2 out of the off-diagonal sum. */
  lemma RotateRemovesPivot(m: Libm, d: Decomposition, k: Plane)
    requires m.Exact() && Symmetric(d.a)
    ensures OffSum(Rotate(m, d, k).a) == OffSum(d.a) - Removed(d.a, k)
    ensures if Abs(Pivot(d.a, k)) < 0.00000000000000000001 then Rotate(m, d, k) == d
            else Pivot(Rotate(m, d, k).a, k) == 0.0
  {
    var apq := Pivot(d.a, k);
    if Abs(apq) >= TINY {
      var phi := 0.5 * m.atan2(2.0 * apq, Gap(d.a, k));
      var c, s := m.cos(phi), m.sin(phi);
      m.JacobiAngle(apq, Gap(d.a, k), c, s);
      RotatedOffSum(d.a, k, c, s);
    }
  }

  lemma RotatedOffSum(a: Mat, k: Plane, c: real, s: real)
    requires Symmetric(a) && Times(c, c) + Times(s, s) == 1.0
    requires Times(Times(c, c) - Times(s, s), Pivot(a, k)) == Times(Times(c, s), Gap(a, k))
    ensures var b := RotateRows(RotateColumns(a, k, c, s), k, c, s);
            Pivot(b, k) == 0.0 && OffSum(b) == OffSum(a) - 2.0 * Times(Pivot(a, k), Pivot(a, k))
  {
    ZeroSquare();
    hide Times;
    match k
    case P01 =>
      PivotZero(c, s, a.r0.x, a.r0.y, a.r1.y);
      SquaresKept(c, s, a.r0.z, a.r1.z);
    case P02 =>
      PivotZero(c, s, a.r0.x, a.r0.z, a.r2.z);
      SquaresKept(c, s, a.r0.y, a.r1.z);
    case P12 =>
      PivotZero(c, s, a.r1.y, a.r1.z, a.r2.z);
      SquaresKept(c, s, a.r0.y, a.r0.z);
  }

  /** Everything the rotations of n sweeps remove. */
  function RemovedBy(m: Libm, d: Decomposition, n: nat): real
    decreases n
  {
    if n == 0 || Converged(d.a) then 0.0
    else
      var d1 := Rotate(m, d, P01);
      var d2 := Rotate(m, d1, P02);
      Removed(d.a, P01) + Removed(d1.a, P02) + Removed(d2.a, P12) + RemovedBy(m, Sweep(m, d), n - 1)
  }

  /** The off-diagonal sum is accounted for exactly over any number of sweeps, and only ever shrinks. */
  lemma {:induction false} SweepsRemove(m: Libm, d: Decomposition, n: nat, a: Mat)
    requires m.Exact() && Similar(d, a) && Symmetric(a)
    ensures OffSum(Sweeps(m, d, n).a) == OffSum(d.a) - RemovedBy(m, d, n)
    ensures RemovedBy(m, d, n) >= 0.0
    decreases n
  {
    hide Rotate, Similar, Converged, OffSum, Removed, m.Exact;
    if n != 0 && !Converged(d.a) {
      var d1 := Rotate(m, d, P01);
      var d2 := Rotate(m, d1, P02);
      var d3 := Rotate(m, d2, P12);
      RotateKeepsSimilar(m, d, P01, a);
      RotateKeepsSimilar(m, d1, P02, a);
      RotateKeepsSimilar(m, d2, P12, a);
      SimilarKeeps(d, a); SimilarKeeps(d1, a); SimilarKeeps(d2, a);
      RotateRemovesPivot(m, d, P01);
      RotateRemovesPivot(m, d1, P02);
      RotateRemovesPivot(m, d2, P12);
      RemovedNonNegative(d.a, P01); RemovedNonNegative(d1.a, P02); RemovedNonNegative(d2.a, P12);
      SweepsRemove(m, d3, n - 1, a);
    }
  }

  /** The decomposition itself: the off-diagonal sum falls by exactly what the rotations of fifty sweeps remove, and the
      last rotation leaves the entry (1, 2) below 1e-20 unless no sweep was needed. */
  lemma Jacobi9Accounts(m: Libm, a: Mat)
    requires m.Exact() && Symmetric(a)
    ensures OffSum(Jacobi9(m, a).a) == OffSum(a) - RemovedBy(m, Decomposition(a, ID), 50)
    ensures Jacobi9(m, a).a == a || Abs(Jacobi9(m, a).a.r1.z) < 0.00000000000000000001
    ensures Abs(a.r0.y) + Abs(a.r0.z) + Abs(a.r1.z) < 0.00000000000000000001 ==> Jacobi9(m, a) == Decomposition(a, ID)
  {
    hide Sweeps, OffSum, RemovedBy, Similar, m.Exact;
    var d := Decomposition(a, ID);
    IdSimilar(a);
    SweepsRemove(m, d, 50, a);
    LastPivot(m, d, 50, a);
    EarlyExit(m, d, 50);
  }

  lemma EarlyExit(m: Libm, d: Decomposition, n: nat)
    ensures Converged(d.a) ==> Sweeps(m, d, n) == d
  {
  }

  lemma IdSimilar(a: Mat)
    ensures Similar(Decomposition(a, ID), a)
  {
    hide Mul, Rotation;
    IdIsRotation();
    MulId(a);
    TransposeOfId();
  }

  lemma {:induction false} LastPivot(m: Libm, d: Decomposition, n: nat, a: Mat)
    requires m.Exact() && Similar(d, a) && Symmetric(a)
    ensures Sweeps(m, d, n) == d || Abs(Sweeps(m, d, n).a.r1.z) < TINY
    decreases n
  {
    hide Rotate, Similar, Converged, OffSum, Removed, m.Exact;
    if n != 0 && !Converged(d.a) {
      var d1 := Rotate(m, d, P01);
      var d2 := Rotate(m, d1, P02);
      var d3 := Rotate(m, d2, P12);
      RotateKeepsSimilar(m, d, P01, a);
      RotateKeepsSimilar(m, d1, P02, a);
      RotateKeepsSimilar(m, d2, P12, a);
      SimilarKeeps(d2, a);
      RotateRemovesPivot(m, d2, P12);
      SmallStays(m, d2, P12);
      LastPivot(m, d3, n - 1, a);
    }
  }

  lemma SmallStays(m: Libm, d: Decomposition, k: Plane)
    ensures Abs(Pivot(d.a, k)) < TINY ==> Rotate(m, d, k) == d
  {
  }

  lemma RemovedNonNegative(a: Mat, k: Plane)
    ensures Removed(a, k) >= 0.0
  {
    TimesSquare(Pivot(a, k));
  }
}
