/**
 The top of the rotation solver: `sinew_align`, `sinew_finish_align` and `sinew_regularize`
 (src/gen/sinew_align.c:139-154, 283-343), and what they return on exact data.
 */
module Align {
  import opened LinAlg
  import opened Forms
  import opened Commuting
  import opened NewtonSchulz
  import opened FastPath
  import opened Optimality
  import opened MathLibrary
  import opened Kabsch
  import opened ShortestArc

  datatype Pair = Pair(target: Vec, source: Vec)

  /** The sum of target source^T, in order. */
  function Covariance(ps: seq<Pair>): Mat {
    if ps == [] then Mat(ZERO, ZERO, ZERO)
    else
      var last := ps[|ps| - 1];
      MAdd(Covariance(ps[..|ps| - 1]), Outer(last.target, last.source))
  }

  lemma CovarianceSnoc(ps: seq<Pair>, p: Pair)
    ensures Covariance(ps + [p]) == MAdd(Covariance(ps), Outer(p.target, p.source))
  {
    hide MAdd, Outer;
    assert (ps + [p])[..|ps|] == ps;
  }

  function Min(a: real, b: real): real {
    if b < a then b else a
  }

  function Scale(h: Mat): real {
    Max(MaxRowSum(h), EPS)
  }

  function Volume(h: Mat): real {
    Abs(Det(h)) / (Scale(h) * Scale(h) * Scale(h))
  }

  /** The share of the bump that applies, falling from 1 to 0 as the volume grows to 1e-6. */
  function Weight(h: Mat): real {
    Max(0.0, Min(1.0, (0.000001 - Volume(h)) / 0.000001))
  }

  /** What regularisation adds to the diagonal. */
  function Bump(h: Mat): real {
    0.05 * Weight(h) * Scale(h)
  }

  function Regularize(h: Mat): Mat {
    MAdd(h, MScale(Bump(h), ID))
  }

  const CROSS_EPS := 0.000000001

  /** The cross-product pair of the first two pairs, when both cross products are long enough. */
  function WithNormals(m: Libm, h: Mat, a0: Vec, a1: Vec, b0: Vec, b1: Vec): Mat {
    var ns, nd := Cross(a0, a1), Cross(b0, b1);
    var ln, ld := Norm(m, ns), Norm(m, nd);
    if ln > CROSS_EPS && ld > CROSS_EPS then
      MAdd(h, Outer(VScale(Norm(m, a0) / (ln + EPS), ns), VScale(Norm(m, b0) / (ld + EPS), nd)))
    else h
  }

  function SolveCovariance(m: Libm, h: Mat): Mat {
    var reg := Regularize(h);
    var r := Ns30(reg);
    if Valid9(r) then r else KabschFit(m, reg)
  }

  function FinishAlign(m: Libm, h: Mat, n: int, a0: Vec, a1: Vec, b0: Vec, b1: Vec): Mat
    requires m.Exact()
  {
    if n == 1 then Rodrigues(m, a0, b0) else SolveCovariance(m, WithNormals(m, h, a0, a1, b0, b1))
  }

  /** The conversion (int)count of a size_t on a 32-bit int. */
  function AsInt(count: nat): int {
    var w := count % 0x1_0000_0000;
    if w >= 0x8000_0000 then w - 0x1_0000_0000 else w
  }

  /** The int nearest in residue: equal to the count below 2^31, and congruent to it modulo 2^32 always. */
  lemma AsIntIs(count: nat)
    ensures -0x8000_0000 <= AsInt(count) < 0x8000_0000 && (AsInt(count) - count) % 0x1_0000_0000 == 0
    ensures count < 0x8000_0000 ==> AsInt(count) == count
  {
  }

  function TargetAt(ps: seq<Pair>, i: nat): Vec {
    if i < |ps| then ps[i].target else ZERO
  }

  function SourceAt(ps: seq<Pair>, i: nat): Vec {
    if i < |ps| then ps[i].source else ZERO
  }

  function AlignPairs(m: Libm, ps: seq<Pair>): Mat
    requires m.Exact()
  {
    FinishAlign(m, Covariance(ps), AsInt(|ps|),
                TargetAt(ps, 0), TargetAt(ps, 1), SourceAt(ps, 0), SourceAt(ps, 1))
  }

  // ----- regularisation

  /** Regularisation adds nothing exactly when the normalised volume reaches 1e-6, and never more than a
      twentieth of the scale. */
  lemma BumpFacts(h: Mat)
    ensures 0.0 <= Bump(h) <= 0.05 * Scale(h)
    ensures Bump(h) == 0.0 <==> Volume(h) >= 0.000001
  {
    hide Volume, Scale;
    WeightRange(h);
    ScalePositive(h);
    BumpScalar(Weight(h), Scale(h), Bump(h));
  }

  /** Regularisation, without its intermediate quantities. With s the largest row sum, at least 1e-8: nothing is added
      exactly when |det h| reaches 1e-6 s^3; below that the bump falls linearly from s / 20 to nothing. */
  lemma BumpExact(h: Mat)
    ensures var s, d := Max(MaxRowSum(h), 0.00000001), Abs(Det(h));
            && (Bump(h) == 0.0 <==> d >= 0.000001 * Times(s, Times(s, s)))
            && (d <= 0.000001 * Times(s, Times(s, s)) ==>
                  Times(Bump(h), Times(s, s)) == 0.05 * (Times(s, Times(s, s)) - 1000000.0 * d))
  {
    hide Det, MaxRowSum, Scale, Volume, Weight, Bump, Times;
    BumpParts(h);
    ScalePositive(h);
    BumpExactScalar(Scale(h), Abs(Det(h)), Volume(h), Weight(h), Bump(h));
  }

  lemma BumpParts(h: Mat)
    ensures Scale(h) == Max(MaxRowSum(h), 0.00000001) && Bump(h) == 0.05 * Weight(h) * Scale(h)
    ensures Scale(h) > 0.0 ==> Volume(h) == Abs(Det(h)) / (Scale(h) * Scale(h) * Scale(h))
    ensures Weight(h) == Max(0.0, Min(1.0, (0.000001 - Volume(h)) / 0.000001))
  {
    hide Det, MaxRowSum;
  }

  lemma BumpExactScalar(s: real, d: real, v: real, w: real, b: real)
    requires s > 0.0 && d >= 0.0 && v == d / (s * s * s) && w == Max(0.0, Min(1.0, (0.000001 - v) / 0.000001))
    requires b == 0.05 * w * s
    ensures b == 0.0 <==> d >= 0.000001 * Times(s, Times(s, s))
    ensures d <= 0.000001 * Times(s, Times(s, s)) ==>
              Times(b, Times(s, s)) == 0.05 * (Times(s, Times(s, s)) - 1000000.0 * d)
  {
    var k := Times(s, Times(s, s));
    TimesPositive(s, s);
    TimesPositive(s, Times(s, s));
    assert s * s * s == k;
    assert Times(v, k) == d;
    assert b == 0.05 * Times(w, s);
    assert Times(b, Times(s, s)) == 0.05 * Times(w, k);
    BumpRamp(v, k, d, w);
    hide Times;
    TimesComm(w, s);
    TimesZero(s, w);
  }

  lemma BumpRamp(v: real, k: real, d: real, w: real)
    requires k > 0.0 && d >= 0.0 && Times(v, k) == d && w == Max(0.0, Min(1.0, (0.000001 - v) / 0.000001))
    ensures w == 0.0 <==> d >= 0.000001 * k
    ensures d <= 0.000001 * k ==> Times(w, k) == k - 1000000.0 * d
  {
    assert Times(v - 0.000001, k) == d - 0.000001 * k;
    assert Times(0.000001 - v, k) == 0.000001 * k - d;
    assert Times(v, k) >= 0.0 && Times(-v, k) == -Times(v, k);
    if v < 0.0 {
      TimesPositive(-v, k);
    } else if v > 0.000001 {
      TimesPositive(v - 0.000001, k);
    } else if v < 0.000001 {
      TimesPositive(0.000001 - v, k);
    }
    if 0.0 <= v <= 0.000001 {
      assert w == 1.0 - 1000000.0 * v;
      assert Times(w, k) == k - 1000000.0 * Times(v, k);
    }
  }

  /** Regularisation does not depend on the unit of length, as long as the row sums stay above 1e-8. */
  lemma BumpScales(h: Mat, k: real)
    requires k > 0.0 && MaxRowSum(h) >= 0.00000001 && MaxRowSum(MScale(k, h)) >= 0.00000001
    ensures Bump(MScale(k, h)) == k * Bump(h)
  {
    hide Det, MaxRowSum, MScale;
    ScaledRowSums(k, h);
    DetScale(k, h);
    ScaledVolume(k, MaxRowSum(h), Det(h), Det(MScale(k, h)));
    TimesRaw(k, MaxRowSum(h));
    assert Scale(MScale(k, h)) == k * Scale(h);
    assert Volume(MScale(k, h)) == Volume(h);
    assert 0.05 * Weight(h) * (k * Scale(h)) == k * (0.05 * Weight(h) * Scale(h));
  }

  lemma ScaledRowSums(k: real, h: Mat)
    requires k > 0.0
    ensures MaxRowSum(MScale(k, h)) == Times(k, MaxRowSum(h))
  {
    hide RowSum, VScale;
    ScaledRowSum(k, h.r0); ScaledRowSum(k, h.r1); ScaledRowSum(k, h.r2);
    ZeroTimes(k);
    TimesOrder(k, 0.0, RowSum(h.r0));
    TimesOrder(k, Max(0.0, RowSum(h.r0)), RowSum(h.r1));
    TimesOrder(k, Max(Max(0.0, RowSum(h.r0)), RowSum(h.r1)), RowSum(h.r2));
    hide Times;
  }

  lemma TimesOrder(k: real, a: real, b: real)
    requires k > 0.0
    ensures Times(k, Max(a, b)) == Max(Times(k, a), Times(k, b))
  {
    if a < b {
      TimesPositive(k, b - a);
      assert Times(k, b - a) == Times(k, b) - Times(k, a);
    } else if b < a {
      TimesPositive(k, a - b);
      assert Times(k, a - b) == Times(k, a) - Times(k, b);
    }
  }

  lemma ScaledRowSum(k: real, v: Vec)
    requires k > 0.0
    ensures RowSum(VScale(k, v)) == Times(k, RowSum(v))
  {
    ScaledAbs(k, v.x); ScaledAbs(k, v.y); ScaledAbs(k, v.z);
    hide Abs, Times;
    TimesAdd(k, Abs(v.x) + Abs(v.y), Abs(v.z));
    TimesAdd(k, Abs(v.x), Abs(v.y));
  }

  lemma ScaledAbs(k: real, x: real)
    requires k > 0.0
    ensures Abs(Times(k, x)) == Times(k, Abs(x))
  {
    ZeroTimes(k);
    if x > 0.0 {
      TimesPositive(k, x);
    } else if x < 0.0 {
      TimesPositive(k, -x);
      assert Times(k, -x) == -Times(k, x);
    }
  }

  lemma ScaledVolume(k: real, s: real, d: real, e: real)
    requires k > 0.0 && s > 0.0 && e == k * k * k * d
    ensures var t := Times(k, s); t > 0.0 && Abs(e) / (t * t * t) == Abs(d) / (s * s * s)
  {
    var t := Times(k, s);
    TimesPositive(k, s);
    var c, u, w := Times(k, Times(k, k)), Times(s, Times(s, s)), Times(t, Times(t, t));
    CubeRaw(k); CubeRaw(s); CubeRaw(t);
    CubeOfProduct(k, s);
    TimesRaw(c, d);
    hide Times;
    TimesPositive(k, k); TimesPositive(k, Times(k, k));
    TimesPositive(s, s); TimesPositive(s, Times(s, s));
    ScaledAbs(c, d);
    CancelQuotient(c, Abs(d), u);
  }

  lemma CubeRaw(x: real)
    ensures x * x * x == Times(x, Times(x, x))
  {
  }

  lemma CubeOfProduct(k: real, s: real)
    ensures var t := Times(k, s); Times(t, Times(t, t)) == Times(Times(k, Times(k, k)), Times(s, Times(s, s)))
  {
  }

  lemma CancelQuotient(c: real, d: real, u: real)
    requires c > 0.0 && u > 0.0
    ensures Times(c, u) > 0.0 && Times(c, d) / Times(c, u) == d / u
  {
    TimesPositive(c, u);
    var q := d / u;
    assert Times(q, u) == d;
    assert Times(q, Times(c, u)) == Times(c, d);
  }

  lemma WeightRange(h: Mat)
    ensures 0.0 <= Weight(h) <= 1.0
    ensures Weight(h) == 0.0 <==> Volume(h) >= 0.000001
  {
    hide Volume;
  }

  lemma ScalePositive(h: Mat)
    ensures Scale(h) > 0.0
  {
  }

  lemma BumpScalar(r: real, s: real, b: real)
    requires 0.0 <= r <= 1.0 && s > 0.0 && b == 0.05 * r * s
    ensures 0.0 <= b <= 0.05 * s
    ensures b == 0.0 <==> r == 0.0
  {
    Shrink(r, s);
    TimesComm(r, s);
    TimesZero(s, r);
    assert b == 0.05 * Times(r, s);
  }

  lemma NoBump(h: Mat)
    requires Volume(h) >= 0.000001
    ensures Regularize(h) == h
  {
    BumpFacts(h);
    hide Bump, Volume;
    ScaleIdZero();
    PlusZero(h);
  }

  lemma ScaleIdZero()
    ensures MScale(0.0, ID) == Mat(ZERO, ZERO, ZERO)
  {
  }

  // ----- exact data

  /** Every target is R times its source. */
  predicate ExactData(ps: seq<Pair>, r: Mat) {
    forall i :: 0 <= i < |ps| ==> ps[i].target == Apply(r, ps[i].source)
  }

  /** The sum of source source^T. */
  function SourceMoment(ps: seq<Pair>): Mat {
    if ps == [] then Mat(ZERO, ZERO, ZERO)
    else
      var last := ps[|ps| - 1];
      MAdd(SourceMoment(ps[..|ps| - 1]), Outer(last.source, last.source))
  }

  lemma OuterImage(r: Mat, a: Vec, b: Vec)
    ensures Outer(Apply(r, a), b) == Mul(r, Outer(a, b))
  {
    hide Dot, Apply, Outer;
    forall v
      ensures Apply(Outer(Apply(r, a), b), v) == Apply(Mul(r, Outer(a, b)), v)
    {
      OuterApply(Apply(r, a), b, v);
      ApplyMul(r, Outer(a, b), v);
      OuterApply(a, b, v);
      ApplyScale(r, Dot(b, v), a);
    }
    MatExt(Outer(Apply(r, a), b), Mul(r, Outer(a, b)));
  }

  lemma OuterPsd(a: Vec)
    ensures Psd(Outer(a, a))
  {
    hide Dot, Apply, Times;
    forall v
      ensures Quad(Outer(a, a), v) >= 0.0
    {
      OuterApply(a, a, v);
      DotScale(v, Dot(a, v), a);
      DotComm(v, a);
      TimesSquare(Dot(a, v));
      TimesRaw(Dot(a, v), Dot(a, v));
    }
    OuterIsSymmetric(a);
  }

  lemma OuterIsSymmetric(a: Vec)
    ensures Symmetric(Outer(a, a))
  {
    TimesComm(a.x, a.y); TimesComm(a.x, a.z); TimesComm(a.y, a.z);
    hide Times;
  }

  lemma AddPsd(a: Mat, b: Mat)
    requires Psd(a) && Psd(b)
    ensures Psd(MAdd(a, b))
  {
    hide Dot, Apply;
    SubSymmetric(a, b);
    forall v
      ensures Quad(MAdd(a, b), v) >= 0.0
    {
      AddApply(a, b, v);
      DotAdd(v, Apply(a, v), Apply(b, v));
      assert Quad(a, v) >= 0.0 && Quad(b, v) >= 0.0;
    }
  }

  lemma ZeroFacts(r: Mat)
    ensures Psd(Mat(ZERO, ZERO, ZERO)) && Mul(r, Mat(ZERO, ZERO, ZERO)) == Mat(ZERO, ZERO, ZERO)
  {
    var z := Mat(ZERO, ZERO, ZERO);
    assert Transpose(z) == z;
    forall v
      ensures Apply(z, v) == ZERO
    {
      ZeroTimes(v.x); ZeroTimes(v.y); ZeroTimes(v.z);
    }
    hide Apply;
    forall v
      ensures Quad(z, v) >= 0.0
    {
      DotZero(v);
    }
  }

  /** On exact data the covariance is R times a psd matrix. */
  lemma {:induction false} ExactCovariance(ps: seq<Pair>, r: Mat)
    requires ExactData(ps, r)
    ensures Covariance(ps) == Mul(r, SourceMoment(ps)) && Psd(SourceMoment(ps))
  {
    hide Mul, MAdd, Outer, Apply, Psd;
    ZeroFacts(r);
    if ps != [] {
      var init, last := ps[..|ps| - 1], ps[|ps| - 1];
      ExactCovariance(init, r);
      OuterImage(r, last.source, last.source);
      MulAdd(r, SourceMoment(init), Outer(last.source, last.source));
      OuterPsd(last.source);
      AddPsd(SourceMoment(init), Outer(last.source, last.source));
    }
  }

  lemma RotationNorm(m: Libm, r: Mat, v: Vec)
    requires Rotation(r)
    ensures Norm(m, Apply(r, v)) == Norm(m, v)
  {
    hide Dot, Apply, Orthogonal;
    OrthogonalDot(r, v, v);
  }

  /** The factor with which the cross-product pair enters. */
  function NormalsFactor(m: Libm, a0: Vec, a1: Vec, b0: Vec, b1: Vec): real
    requires Norm(m, Cross(a0, a1)) > 0.000000001 && Norm(m, Cross(b0, b1)) > 0.000000001
  {
    Times(Norm(m, a0) / (Norm(m, Cross(a0, a1)) + 0.00000001), Norm(m, b0) / (Norm(m, Cross(b0, b1)) + 0.00000001))
  }

  /** What the cross-product pair does. When both cross products are longer than 1e-9 it adds, to the image of
      every v, a positive multiple of <b0 x b1, v> times a0 x a1: nothing for v orthogonal to the source normal.
      Otherwise the covariance stays as it was. */
  lemma NormalsAct(m: Libm, h: Mat, a0: Vec, a1: Vec, b0: Vec, b1: Vec, v: Vec)
    requires m.Exact()
    ensures var ns, nd := Cross(a0, a1), Cross(b0, b1);
            var g := WithNormals(m, h, a0, a1, b0, b1);
            if Norm(m, ns) > 0.000000001 && Norm(m, nd) > 0.000000001 then
              && NormalsFactor(m, a0, a1, b0, b1) > 0.0
              && Apply(g, v) == VAdd(Apply(h, v), VScale(Times(NormalsFactor(m, a0, a1, b0, b1), Dot(nd, v)), ns))
            else g == h
  {
    hide Dot, Cross, Norm, m.Exact, Outer, VScale, MAdd, Apply, VAdd, Times;
    var ns, nd := Cross(a0, a1), Cross(b0, b1);
    var ln, ld := Norm(m, ns), Norm(m, nd);
    if ln > CROSS_EPS && ld > CROSS_EPS {
      var j, k := Norm(m, a0) / (ln + EPS), Norm(m, b0) / (ld + EPS);
      LongCross(m, a0, a1);
      LongCross(m, b0, b1);
      PositiveQuotient(Norm(m, a0), ln + EPS);
      PositiveQuotient(Norm(m, b0), ld + EPS);
      TimesPositive(j, k);
      AddApply(h, Outer(VScale(j, ns), VScale(k, nd)), v);
      OuterApply(VScale(j, ns), VScale(k, nd), v);
      var e := Dot(VScale(k, nd), v);
      DotScale(nd, k, v);
      VScaleTwice(e, j, ns);
      NormalsScalar(j, k, Dot(nd, v), e);
    }
  }

  lemma PositiveQuotient(a: real, b: real)
    requires a > 0.0 && b > 0.0
    ensures a / b > 0.0
  {
  }

  lemma NormalsScalar(j: real, k: real, d: real, e: real)
    requires e == k * d
    ensures Times(e, j) == Times(Times(j, k), d)
  {
  }

  /** A vector with a nonzero cross product is not zero. */
  lemma LongCross(m: Libm, a: Vec, b: Vec)
    requires m.Exact() && Norm(m, Cross(a, b)) > 0.0
    ensures Norm(m, a) > 0.0
  {
    hide m.Exact, Dot, Cross, Times;
    DotSelf(a);
    DotSelf(Cross(a, b));
    m.SqrtSquare(Dot(a, a));
    m.SqrtSquare(Dot(Cross(a, b), Cross(a, b)));
    TimesSquare(Norm(m, Cross(a, b)));
    if a == ZERO {
      ZeroCross(b);
      DotZero(ZERO);
    }
    ZeroTimes(Norm(m, a));
  }

  /** The cross-product pair keeps that form: a rotation carries one cross product onto the other. */
  lemma ExactNormals(m: Libm, h: Mat, p: Mat, r: Mat, b0: Vec, b1: Vec) returns (p': Mat)
    requires Rotation(r) && Psd(p) && h == Mul(r, p)
    ensures WithNormals(m, h, Apply(r, b0), Apply(r, b1), b0, b1) == Mul(r, p') && Psd(p')
  {
    hide Mul, Apply, Cross, Outer, MAdd, Psd, VScale, Rotation, Dot;
    var nd := Cross(b0, b1);
    RotationCross(r, b0, b1);
    RotationNorm(m, r, nd);
    RotationNorm(m, r, b0);
    var ld := Norm(m, nd);
    if ld > CROSS_EPS {
      var vd := VScale(Norm(m, b0) / (ld + EPS), nd);
      ApplyScale(r, Norm(m, b0) / (ld + EPS), nd);
      OuterImage(r, vd, vd);
      MulAdd(r, p, Outer(vd, vd));
      OuterPsd(vd);
      AddPsd(p, Outer(vd, vd));
      p' := MAdd(p, Outer(vd, vd));
    } else {
      p' := p;
    }
  }

  // ----- end to end

  /** The covariance sinew_align solves for: the accumulated one plus the cross-product pair. */
  function FullCovariance(m: Libm, ps: seq<Pair>): Mat {
    WithNormals(m, Covariance(ps), TargetAt(ps, 0), TargetAt(ps, 1), SourceAt(ps, 0), SourceAt(ps, 1))
  }

  lemma ExactFull(m: Libm, ps: seq<Pair>, r: Mat) returns (p: Mat)
    requires ExactData(ps, r) && Rotation(r)
    ensures FullCovariance(m, ps) == Mul(r, p) && Psd(p)
  {
    ApplyZero(r);
    hide Mul, Psd, Apply, Rotation, Covariance, SourceMoment, WithNormals;
    ExactCovariance(ps, r);
    p := ExactNormals(m, Covariance(ps), SourceMoment(ps), r, SourceAt(ps, 0), SourceAt(ps, 1));
  }

  lemma ApplyZero(r: Mat)
    ensures Apply(r, ZERO) == ZERO
  {
    hide Dot;
    DotZero(r.r0); DotZero(r.r1); DotZero(r.r2);
  }

  /** One pair of equal norms, at least 1e-8: the answer is a rotation. It carries the source exactly onto the target,
      or, for a nearly antiparallel pair, misses by less than 2e-6 of the squared length. */
  lemma AlignOnePair(m: Libm, a: Vec, b: Vec)
    requires m.Exact() && Dot(a, a) == Dot(b, b) && Norm(m, b) >= EPS
    ensures Rotation(AlignPairs(m, [Pair(a, b)]))
    ensures !Antiparallel(m, a, b) ==> Apply(AlignPairs(m, [Pair(a, b)]), b) == a
    ensures var miss := VSub(Apply(AlignPairs(m, [Pair(a, b)]), b), a); Dot(miss, miss) < 0.000002 * Dot(a, a)
  {
    hide Dot, Unit, Cross, Norm, m.Exact, Cosine, Antiparallel, Rotation, Apply, Rodrigues, AlignPairs, VSub, VScale;
    OnePair(m, a, b);
    SameNorm(m, a, b);
    var au, bu, d := Unit(m, a), Unit(m, b), Cosine(m, a, b);
    UnitNorm(m, a);
    UnitNorm(m, b);
    var r, n := Rodrigues(m, a, b), Norm(m, b);
    Rescaled(m, a);
    Rescaled(m, b);
    ApplyScale(r, n, bu);
    if Antiparallel(m, a, b) {
      AntiparallelRotation(m, a, b);
    } else {
      Nondegenerate(m, a, b);
      GeneralRotation(m, a, b, au, bu, d, 1.0 / (1.0 + d), Cross(bu, au));
      NoMiss(au);
    }
    ScaledMiss(m, a, n, Apply(r, bu), au);
  }

  lemma OnePair(m: Libm, a: Vec, b: Vec)
    requires m.Exact()
    ensures AlignPairs(m, [Pair(a, b)]) == Rodrigues(m, a, b)
  {
    hide Rodrigues, Covariance, m.Exact;
    assert AsInt(|[Pair(a, b)]|) == 1;
  }

  lemma NoMiss(a: Vec)
    ensures Dot(VSub(a, a), VSub(a, a)) == 0.0
  {
  }

  lemma ScaledMiss(m: Libm, a: Vec, n: real, x: Vec, y: Vec)
    requires m.Exact() && n == Norm(m, a) && n >= EPS && Dot(VSub(x, y), VSub(x, y)) < 0.000002
    ensures var miss := VSub(VScale(n, x), VScale(n, y)); Dot(miss, miss) < 0.000002 * Dot(a, a)
  {
    hide Dot, VSub, VScale, m.Exact;
    DotSelf(a);
    m.SqrtSquare(Dot(a, a));
    var w := VSub(x, y);
    ScaledDifference(n, x, y);
    DotScale(VScale(n, w), n, w);
    DotScale(w, n, w);
    ScaledMissScalar(n, Dot(w, w), Dot(a, a));
  }

  lemma ScaledDifference(n: real, x: Vec, y: Vec)
    ensures VSub(VScale(n, x), VScale(n, y)) == VScale(n, VSub(x, y))
  {
  }

  lemma ScaledMissScalar(n: real, w: real, q: real)
    requires n > 0.0 && w < 0.000002 && Times(n, n) == q
    ensures n * (n * w) < 0.000002 * q
  {
    assert Times(Times(n, n), 0.000002 - w) == 0.000002 * q - n * (n * w);
    TimesPositive(n, n);
    TimesPositive(Times(n, n), 0.000002 - w);
  }

  lemma SameNorm(m: Libm, a: Vec, b: Vec)
    requires Dot(a, a) == Dot(b, b)
    ensures Norm(m, a) == Norm(m, b)
  {
  }

  lemma Rescaled(m: Libm, a: Vec)
    requires Norm(m, a) >= EPS
    ensures VScale(Norm(m, a), Unit(m, a)) == a
  {
    hide VScale, Norm, Times;
    var n := Norm(m, a);
    VScaleTwice(n, 1.0 / n, a);
    Reciprocal(n);
    OneScale(a);
  }
}
