/**
 When the fast path of `sinew_finish_align` is taken: the validity test `sinew_valid9`
 (src/gen/sinew_align.c:156-171) and the guarantee that a well-conditioned covariance passes it.
 */
module FastPath {
  import opened LinAlg
  import opened Forms
  import opened NewtonSchulz
  import opened Convergence

  function RowMax(acc: real, v: Vec): real {
    Max(Max(Max(acc, Abs(v.x)), Abs(v.y)), Abs(v.z))
  }

  /** Largest absolute entry, folded from zero in row-major order. */
  function MaxAbs(m: Mat): real {
    RowMax(RowMax(RowMax(0.0, m.r0), m.r1), m.r2)
  }

  predicate Valid9(r: Mat) {
    Det(r) > 0.0 && Abs(Det(r) - 1.0) <= 0.01 && MaxAbs(MSub(Gram(r), ID)) <= 0.01
  }

  lemma MaxAbsBound(m: Mat, c: real)
    requires c >= 0.0
    ensures MaxAbs(m) <= c <==> EntriesAtMost(m, c)
  {
    hide RowMax;
    RowMaxBound(0.0, m.r0, c);
    RowMaxBound(RowMax(0.0, m.r0), m.r1, c);
    RowMaxBound(RowMax(RowMax(0.0, m.r0), m.r1), m.r2, c);
  }

  lemma RowMaxBound(acc: real, v: Vec, c: real)
    ensures RowMax(acc, v) <= c <==> acc <= c && -c <= v.x <= c && -c <= v.y <= c && -c <= v.z <= c
  {
  }

  /** What the test tests: the determinant and every entry of R^T R - I within 0.01. */
  lemma Valid9Means(r: Mat)
    ensures Valid9(r) <==> 0.99 <= Det(r) <= 1.01 && EntriesAtMost(MSub(Gram(r), ID), 0.01)
  {
    hide Det, Gram, MaxAbs, EntriesAtMost;
    MaxAbsBound(MSub(Gram(r), ID), 0.01);
  }

  // ----- the column flip is an isometry of the domain

  function Mirror(v: Vec): Vec {
    Vec(v.x, v.y, -v.z)
  }

  lemma FlipApply(x: Mat, v: Vec)
    ensures Apply(FlipColumn(x), v) == Apply(x, Mirror(v))
    ensures Dot(Mirror(v), Mirror(v)) == Dot(v, v)
  {
    FlipRow(x.r0, v);
    FlipRow(x.r1, v);
    FlipRow(x.r2, v);
    FlipRow(Mirror(v), v);
    assert Mirror(Mirror(v)) == v;
  }

  lemma FlipRow(r: Vec, v: Vec)
    ensures Dot(Mirror(r), v) == Dot(r, Mirror(v))
  {
    assert Times(-r.z, v.z) == Times(r.z, -v.z);
  }

  lemma ProperKeepsBounds(x: Mat, m: real, c: real)
    requires Expands(x, m) && Contracts(x, c)
    ensures Expands(MakeProper(x), m) && Contracts(MakeProper(x), c)
  {
    hide Dot, Apply, FlipColumn, Det, Mirror;
    if Det(x) < 0.0 {
      forall v
        ensures m * Dot(v, v) <= Norm2(FlipColumn(x), v) <= c * Dot(v, v)
      {
        FlipApply(x, v);
        ExpandsAt(x, m, Mirror(v));
        ContractsAt(x, c, Mirror(v));
      }
    }
  }

  // ----- entries of the residual

  lemma ResidualQuad(x: Mat, v: Vec)
    ensures Quad(Residual(x), v) == Dot(v, v) - Norm2(x, v)
  {
    hide Dot, Apply, Residual, VSub, Mul;
    ResidualApply(x, v);
    DotSub(v, v, Apply(Gram(x), v));
    GramDot(x, v, v);
  }

  lemma ResidualSymmetric(x: Mat)
    ensures Symmetric(Residual(x))
  {
    hide Mul;
    GramSymmetric(x);
    SubSymmetric(ID, Gram(x));
  }

  lemma ResidualForm(x: Mat, d: real, v: Vec)
    requires Expands(x, 1.0 - d) && Contracts(x, 1.0)
    ensures 0.0 <= Quad(Residual(x), v) <= d * Dot(v, v)
  {
    hide Dot, Norm2, Quad, Residual, Expands, Contracts;
    ResidualQuad(x, v);
    ExpandsAt(x, 1.0 - d, v);
    ContractsAt(x, 1.0, v);
    assert (1.0 - d) * Dot(v, v) == Dot(v, v) - d * Dot(v, v);
  }

  /** A form between 0 and d |v|^2 has entries between -d and d. */
  lemma FormEntries(e: Mat, d: real)
    requires Symmetric(e) && forall v :: 0.0 <= Quad(e, v) <= d * Dot(v, v)
    ensures EntriesAtMost(e, d)
    ensures e.r0.x >= 0.0 && e.r1.y >= 0.0 && e.r2.z >= 0.0
  {
    hide Dot;
    DotBasis(E0); DotBasis(E1); DotBasis(E2);
    DotBasis(e.r0); DotBasis(e.r1); DotBasis(e.r2);
    DotBasis(Apply(e, E0)); DotBasis(Apply(e, E1)); DotBasis(Apply(e, E2));
    PairEntries(e, E0, E1, e.r0.x, e.r1.y, e.r0.y, d);
    PairEntries(e, E0, E2, e.r0.x, e.r2.z, e.r0.z, d);
    PairEntries(e, E1, E2, e.r1.y, e.r2.z, e.r1.z, d);
  }

  lemma PairEntries(e: Mat, u: Vec, w: Vec, a: real, b: real, c: real, d: real)
    requires Symmetric(e) && forall v :: 0.0 <= Quad(e, v) <= d * Dot(v, v)
    requires Quad(e, u) == a && Quad(e, w) == b && Dot(u, Apply(e, w)) == c && Dot(u, u) == 1.0 && Dot(w, w) == 1.0
    ensures 0.0 <= a <= d && 0.0 <= b <= d && -d <= c <= d
  {
    hide Dot, Apply, VAdd, VScale, Symmetric;
    assert 0.0 <= Quad(e, u) <= d * Dot(u, u);
    assert 0.0 <= Quad(e, w) <= d * Dot(w, w);
    QuadLine(e, u, 1.0, w);
    QuadLine(e, u, -1.0, w);
    assert Quad(e, VAdd(u, VScale(1.0, w))) >= 0.0;
    assert Quad(e, VAdd(u, VScale(-1.0, w))) >= 0.0;
  }

  lemma ResidualEntries(x: Mat, d: real)
    requires Expands(x, 1.0 - d) && Contracts(x, 1.0)
    ensures EntriesAtMost(Residual(x), d)
    ensures var e := Residual(x); e.r0.x >= 0.0 && e.r1.y >= 0.0 && e.r2.z >= 0.0
  {
    hide Dot, Quad, Residual, Expands, Contracts, EntriesAtMost;
    ResidualSymmetric(x);
    forall v
      ensures 0.0 <= Quad(Residual(x), v) <= d * Dot(v, v)
    {
      ResidualForm(x, d, v);
    }
    FormEntries(Residual(x), d);
  }

  // ----- row sums and forms

  /** A symmetric form is at most the largest row sum times |v|^2. */
  lemma RowSumForm(e: Mat, v: Vec)
    requires Symmetric(e)
    ensures Quad(e, v) <= MaxRowSum(e) * Dot(v, v)
  {
    RowBelowMax(e);
    var m := MaxRowSum(e);
    var x, y, z := v.x, v.y, v.z;
    hide MaxRowSum, Times;
    FormExpand(e.r0.x, e.r0.y, e.r0.z, e.r1.y, e.r1.z, e.r2.z, x, y, z);
    SymmetricEntries(e);
    RowSumScalar(e.r0.x, e.r0.y, e.r0.z, e.r1.y, e.r1.z, e.r2.z, x, y, z, m);
    TimesAdd(m, Times(x, x) + Times(y, y), Times(z, z));
    TimesAdd(m, Times(x, x), Times(y, y));
    TimesRaw(m, Dot(v, v));
    assert Dot(v, v) == Times(x, x) + Times(y, y) + Times(z, z);
    assert Dot(e.r0, v) == Times(e.r0.x, x) + Times(e.r0.y, y) + Times(e.r0.z, z);
    assert Dot(e.r1, v) == Times(e.r0.y, x) + Times(e.r1.y, y) + Times(e.r1.z, z);
    assert Dot(e.r2, v) == Times(e.r0.z, x) + Times(e.r1.z, y) + Times(e.r2.z, z);
    assert Quad(e, v) == Times(x, Dot(e.r0, v)) + Times(y, Dot(e.r1, v)) + Times(z, Dot(e.r2, v));
    assert Times(m, Dot(v, v)) == Times(m, Times(x, x)) + Times(m, Times(y, y)) + Times(m, Times(z, z));
    assert Quad(e, v) <= Times(m, Times(x, x)) + Times(m, Times(y, y)) + Times(m, Times(z, z));
    assert Quad(e, v) <= Times(m, Dot(v, v));
  }

  lemma SymmetricEntries(e: Mat)
    requires Symmetric(e)
    ensures e.r1.x == e.r0.y && e.r2.x == e.r0.z && e.r2.y == e.r1.z
  {
  }

  lemma FormExpand(a: real, b: real, c: real, d: real, e: real, f: real, x: real, y: real, z: real)
    ensures Times(x, Times(a, x) + Times(b, y) + Times(c, z)) + Times(y, Times(b, x) + Times(d, y) + Times(e, z))
            + Times(z, Times(c, x) + Times(e, y) + Times(f, z))
         == Times(a, Times(x, x)) + Times(d, Times(y, y)) + Times(f, Times(z, z))
            + 2.0 * Times(b, Times(x, y)) + 2.0 * Times(c, Times(x, z)) + 2.0 * Times(e, Times(y, z))
  {
  }

  lemma RowSumScalar(a: real, b: real, c: real, d: real, e: real, f: real, x: real, y: real, z: real, m: real)
    requires Abs(a) + Abs(b) + Abs(c) <= m && Abs(b) + Abs(d) + Abs(e) <= m && Abs(c) + Abs(e) + Abs(f) <= m
    ensures Times(a, Times(x, x)) + Times(d, Times(y, y)) + Times(f, Times(z, z))
            + 2.0 * Times(b, Times(x, y)) + 2.0 * Times(c, Times(x, z)) + 2.0 * Times(e, Times(y, z))
         <= Times(m, Times(x, x)) + Times(m, Times(y, y)) + Times(m, Times(z, z))
  {
    hide Times, Abs;
    MixedTerm(b, x, y); MixedTerm(c, x, z); MixedTerm(e, y, z);
    RowTerm(a, Abs(b), Abs(c), m, x);
    RowTerm(d, Abs(b), Abs(e), m, y);
    RowTerm(f, Abs(c), Abs(e), m, z);
  }

  lemma RowTerm(a: real, b: real, c: real, m: real, x: real)
    requires Abs(a) + b + c <= m
    ensures Times(a, Times(x, x)) + Times(b, Times(x, x)) + Times(c, Times(x, x)) <= Times(m, Times(x, x))
  {
    var p := Times(x, x);
    TimesSquare(x);
    assert a <= Abs(a);
    hide Times, Abs;
    TimesUp(p, a + b + c, m);
    TimesAdd(p, a + b, c);
    TimesAdd(p, a, b);
    TimesComm(p, a); TimesComm(p, b); TimesComm(p, c); TimesComm(p, m);
  }

  /** 2 b x y <= |b| (x^2 + y^2) */
  lemma MixedTerm(b: real, x: real, y: real)
    ensures 2.0 * Times(b, Times(x, y)) <= Times(Abs(b), Times(x, x)) + Times(Abs(b), Times(y, y))
  {
    TimesSquare(x - y);
    TimesSquare(x + y);
    assert Times(x - y, x - y) == Times(x, x) - 2.0 * Times(x, y) + Times(y, y);
    assert Times(x + y, x + y) == Times(x, x) + 2.0 * Times(x, y) + Times(y, y);
    var s, t := Times(x, x) + Times(y, y), 2.0 * Times(x, y);
    assert Times(b, t) == 2.0 * Times(b, Times(x, y)) && Times(-b, -t) == Times(b, t);
    assert Abs(b) == b || Abs(b) == -b;
    assert Abs(b) >= 0.0;
    TimesAdd(Abs(b), Times(x, x), Times(y, y));
    hide Times, Abs;
    if Abs(b) == b {
      TimesUp(b, t, s);
    } else {
      TimesUp(-b, -t, s);
    }
  }

  /** Entries of at most e in the residual leave squared lengths of at least 1 - 3e. */
  lemma SmallResidualExpands(x: Mat, e: real)
    requires EntriesAtMost(Residual(x), e)
    ensures Expands(x, 1.0 - 3.0 * e)
  {
    hide Dot, Norm2, Quad, Residual, MaxRowSum, Symmetric, EntriesAtMost;
    ResidualSymmetric(x);
    EntriesRowSum(Residual(x), e);
    forall v
      ensures Norm2(x, v) >= (1.0 - 3.0 * e) * Dot(v, v)
    {
      RowSumForm(Residual(x), v);
      ResidualQuad(x, v);
      DotSelf(v);
      LinearBound(Dot(v, v), MaxRowSum(Residual(x)), 3.0 * e);
    }
  }

  lemma EntriesRowSum(m: Mat, e: real)
    requires EntriesAtMost(m, e)
    ensures MaxRowSum(m) <= 3.0 * e
  {
    hide MaxRowSum;
    MaxOfThree(m, 3.0 * e);
  }

  // ----- the determinant

  /** A Gram matrix within 1e-6 of the identity has determinant within 1e-4 of 1. */
  lemma NearIdentityDet(a: real, b: real, c: real, d: real, e: real, f: real, g: real, h: real, i: real)
    requires Near(a, 1.0) && Near(e, 1.0) && Near(i, 1.0)
    requires Near(b, 0.0) && Near(c, 0.0) && Near(d, 0.0) && Near(f, 0.0) && Near(g, 0.0) && Near(h, 0.0)
    ensures 0.9999 <= Times(a, Times(e, i) - Times(f, h)) + Times(b, Times(f, g) - Times(d, i))
                      + Times(c, Times(d, h) - Times(e, g)) <= 1.0001
  {
    hide Times;
    NearProduct(e, i); NearZeroProduct(f, h);
    NearZeroProduct(d, i); NearZeroProduct(f, g);
    NearZeroProduct(d, h); NearZeroProduct(e, g);
    WiderProduct(a, Times(e, i) - Times(f, h));
    WiderZeroProduct(b, Times(f, g) - Times(d, i));
    WiderZeroProduct(c, Times(d, h) - Times(e, g));
  }

  predicate Near(x: real, c: real) {
    c - 0.000001 <= x <= c + 0.000001
  }

  lemma ProductBound(x: real, y: real, p: real, q: real, c: real, d: real)
    requires c >= 0.0 && d >= 0.0 && Abs(x - p) <= c && Abs(y - q) <= d
    ensures Abs(Times(x, y) - Times(p, q)) <= Times(Abs(p), d) + Times(Abs(q), c) + Times(c, d)
  {
    hide Times, Abs;
    var u, w := x - p, y - q;
    ProductSplit(p, q, u, w);
    AbsSum(p, w); AbsSum(q, u); AbsSum(u, w); AbsSum(w, u);
    TimesMonotone(Abs(p), Abs(p), Abs(w), d);
    TimesMonotone(Abs(q), Abs(q), Abs(u), c);
    TimesMonotone(Abs(u), c, Abs(w), d);
    AbsSum(Times(p, w), Times(q, u));
    AbsSum(Times(p, w) + Times(q, u), Times(u, w));
  }

  lemma ProductSplit(p: real, q: real, u: real, w: real)
    ensures Times(p + u, q + w) - Times(p, q) == Times(p, w) + Times(q, u) + Times(u, w)
  {
  }

  lemma NearProduct(x: real, y: real)
    requires Near(x, 1.0) && Near(y, 1.0)
    ensures 0.99999 <= Times(x, y) <= 1.00001
  {
    ProductBound(x, y, 1.0, 1.0, 0.000001, 0.000001);
  }

  lemma NearZeroProduct(x: real, y: real)
    requires (Near(x, 0.0) || Near(x, 1.0)) && (Near(y, 0.0) || Near(y, 1.0)) && (Near(x, 0.0) || Near(y, 0.0))
    ensures -0.00001 <= Times(x, y) <= 0.00001
  {
    ProductBound(x, y, if Near(x, 0.0) then 0.0 else 1.0, if Near(y, 0.0) then 0.0 else 1.0, 0.000001, 0.000001);
  }

  lemma WiderProduct(x: real, y: real)
    requires Near(x, 1.0) && 0.99998 <= y <= 1.00002
    ensures 0.99997 <= Times(x, y) <= 1.00003
  {
    ProductBound(x, y, 1.0, 1.0, 0.000001, 0.00002);
  }

  lemma WiderZeroProduct(x: real, y: real)
    requires Near(x, 0.0) && -0.00002 <= y <= 0.00002
    ensures -0.00001 <= Times(x, y) <= 0.00001
  {
    ProductBound(x, y, 0.0, 0.0, 0.000001, 0.00002);
  }

  lemma DetFromResidual(x: Mat)
    requires EntriesAtMost(Residual(x), 0.000001)
    ensures 0.9999 <= Times(Det(x), Det(x)) <= 1.0001
  {
    hide Det, Gram, Times, EntriesAtMost, Residual;
    GramNear(x);
    var Mat(Vec(a, b, c), Vec(d, e, f), Vec(g, h, i)) := Gram(x);
    NearIdentityDet(a, b, c, d, e, f, g, h, i);
    DetTimes(a, b, c, d, e, f, g, h, i);
    GramDet(x);
  }

  lemma DetTimes(a: real, b: real, c: real, d: real, e: real, f: real, g: real, h: real, i: real)
    ensures Det(Mat(Vec(a, b, c), Vec(d, e, f), Vec(g, h, i)))
         == Times(a, Times(e, i) - Times(f, h)) + Times(b, Times(f, g) - Times(d, i))
           + Times(c, Times(d, h) - Times(e, g))
  {
    hide Times;
  }

  lemma GramNear(x: Mat)
    requires EntriesAtMost(Residual(x), 0.000001)
    ensures var g := Gram(x);
            && Near(g.r0.x, 1.0) && Near(g.r1.y, 1.0) && Near(g.r2.z, 1.0) && Near(g.r0.y, 0.0) && Near(g.r0.z, 0.0)
            && Near(g.r1.x, 0.0) && Near(g.r1.z, 0.0) && Near(g.r2.x, 0.0) && Near(g.r2.y, 0.0)
  {
    hide Gram;
  }

  lemma GramDet(x: Mat)
    ensures Det(Gram(x)) == Times(Det(x), Det(x))
  {
    hide Det, Mul, Transpose;
    DetMul(Transpose(x), x);
    DetTranspose(x);
  }

  lemma RootNearOne(d: real)
    requires d > 0.0 && 0.9999 <= Times(d, d) <= 1.0001
    ensures 0.99 <= d <= 1.01
  {
    if d < 0.99 {
      TimesMonotone(d, 0.99, d, 0.99);
    } else if d > 1.01 {
      TimesMonotone(1.01, d, 1.01, d);
    }
  }

  /** The thirtieth iterate has a residual I - X^T X with entries of at most e. */
  predicate Ends(h: Mat, e: real) {
    EntriesAtMost(Residual(Iterate(Start(h), 30)), e)
  }

  lemma ReadyEnds(h: Mat)
    requires Ready(h)
    ensures Ends(h, 0.000001)
  {
    hide Ready, Expands, Contracts, Iterate, Start, EntriesAtMost, Residual;
    ThirtyStepsConverge(h);
    ResidualEntries(Iterate(Start(h), 30), 0.000001);
  }

  /** The validity test itself bounds the residual, and refuses singular covariances. */
  lemma ValidEnds(h: Mat)
    requires Valid9(Ns30(h))
    ensures Ends(h, 0.01) && Det(h) != 0.0
  {
    hide Det, Iterate, Start, EntriesAtMost, Residual, Valid9, MakeProper;
    ValidResidual(Ns30(h));
    MakeProperResidual(Iterate(Start(h), 30), 0.01);
    Ns30Determinant(h);
    ValidDet(Ns30(h));
  }

  lemma ValidDet(r: Mat)
    requires Valid9(r)
    ensures Det(r) > 0.0
  {
    hide Det;
  }

  lemma ValidResidual(r: Mat)
    requires Valid9(r)
    ensures EntriesAtMost(Residual(r), 0.01)
  {
    hide Gram, MaxAbs, Det;
    MaxAbsBound(MSub(Gram(r), ID), 0.01);
  }

  /** Flipping a column changes signs in the residual and nothing else. */
  lemma MakeProperResidual(x: Mat, e: real)
    requires EntriesAtMost(Residual(MakeProper(x)), e)
    ensures EntriesAtMost(Residual(x), e)
  {
    hide Det, Residual;
    FlipResidual(x);
  }

  lemma FlipResidual(x: Mat)
    ensures var p, q := Residual(x), Residual(FlipColumn(x));
            && p.r0.x == q.r0.x && p.r0.y == q.r0.y && p.r0.z == -q.r0.z
            && p.r1.x == q.r1.x && p.r1.y == q.r1.y && p.r1.z == -q.r1.z
            && p.r2.x == -q.r2.x && p.r2.y == -q.r2.y && p.r2.z == q.r2.z
  {
    var t := Transpose(x);
    hide Dot;
    FlipProducts(t.r0, t.r2); FlipProducts(t.r1, t.r2); FlipProducts(t.r2, t.r2);
  }

  lemma FlipProducts(a: Vec, c: Vec)
    ensures var d := Vec(-c.x, -c.y, -c.z); Dot(a, d) == -Dot(a, c) && Dot(d, a) == -Dot(c, a) && Dot(d, d) == Dot(c, c)
  {
  }

  /** What the accepted answer does to lengths, for every covariance. */
  lemma AcceptedStretch(h: Mat)
    requires Valid9(Ns30(h))
    ensures Expands(Ns30(h), 0.97) && Contracts(Ns30(h), 1.0) && Det(Ns30(h)) > 0.0
    ensures Expands(Iterate(Start(h), 30), 0.97)
  {
    hide Det, Iterate, Start, EntriesAtMost, Residual, Valid9, MakeProper, Expands, Contracts;
    ValidEnds(h);
    ValidDet(Ns30(h));
    var x := Iterate(Start(h), 30);
    SmallResidualExpands(x, 0.01);
    NeverDiverges(h, 30);
    ProperKeepsBounds(x, 0.97, 1.0);
  }

  /** A covariance within reach of thirty steps never needs the Kabsch fallback: the Newton-Schulz result passes the
      validity test, with every entry of R^T R within 1e-6 of I. */
  lemma FastPathAccepted(h: Mat)
    requires Ready(h)
    ensures Valid9(Ns30(h))
    ensures Expands(Ns30(h), 0.999999) && Contracts(Ns30(h), 1.0)
  {
    hide Det, Ns30, Gram, EntriesAtMost, MaxAbs, MSub, Expands, Contracts, Ready, Residual;
    var r := Ns30(h);
    NearOrthogonal(h);
    ResidualSign(r);
    MaxAbsBound(MSub(Gram(r), ID), 0.01);
    DetFromResidual(r);
    Ns30Determinant(h);
    NonzeroRoot(Det(r));
    RootNearOne(Det(r));
  }

  lemma ResidualSign(r: Mat)
    requires EntriesAtMost(Residual(r), 0.000001)
    ensures EntriesAtMost(MSub(Gram(r), ID), 0.01)
  {
    hide Gram;
  }

  lemma NonzeroRoot(d: real)
    requires d >= 0.0 && Times(d, d) >= 0.9999
    ensures d > 0.0
  {
  }

  lemma NearOrthogonal(h: Mat)
    requires Ready(h)
    ensures EntriesAtMost(Residual(Ns30(h)), 0.000001)
    ensures Expands(Ns30(h), 0.999999) && Contracts(Ns30(h), 1.0)
  {
    hide Expands, Contracts, Iterate, Start, EntriesAtMost, Residual, MakeProper, Ready;
    ThirtyStepsConverge(h);
    ProperKeepsBounds(Iterate(Start(h), 30), 0.999999, 1.0);
    ResidualEntries(Ns30(h), 0.000001);
  }
}
