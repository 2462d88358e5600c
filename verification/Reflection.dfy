/**
 The Newton-Schulz answer on a covariance with a negative determinant, where the code negates the last column
 (src/gen/sinew_align.c:131-135). For h = O S with det O = -1 and a final residual of at most e the answer stays within
 3e of O with its last column negated, and its score falls short of the best rotation's by twice the excess stretch of
 the last axis, give or take 3e tr S. That limit is a best rotation exactly when h stretches no direction less than the
 last axis. An accepted answer has e = 0.01, one within reach of the thirty steps e = 1e-6.

 The factors O and S, which every invertible h has, are given as witnesses.
 */
module Reflection {
  import opened LinAlg
  import opened Forms
  import opened Commuting
  import opened NewtonSchulz
  import opened Convergence
  import opened FastPath
  import opened Optimality
  import opened PolarFactor

  /** h = O S with O orthogonal of determinant -1 and S psd. */
  ghost predicate Reflected(h: Mat, o: Mat, s: Mat) {
    Orthogonal(o) && Det(o) == -1.0 && Psd(s) && h == Mul(o, s)
  }

  lemma FlipWithin(x: Mat, o: Mat, t: real)
    requires Within(x, o, t)
    ensures Within(FlipColumn(x), FlipColumn(o), t)
  {
    hide Dot, Norm2;
    forall v
      ensures Norm2(MSub(FlipColumn(o), FlipColumn(x)), v) <= t * t * Dot(v, v)
    {
      FlipDifference(o, x);
      FlipNorm(MSub(o, x), v);
      assert Norm2(MSub(o, x), Mirror(v)) <= t * t * Dot(Mirror(v), Mirror(v));
    }
  }

  lemma FlipDifference(o: Mat, x: Mat)
    ensures MSub(FlipColumn(o), FlipColumn(x)) == FlipColumn(MSub(o, x))
  {
  }

  lemma FlipNorm(d: Mat, v: Vec)
    ensures Norm2(FlipColumn(d), v) == Norm2(d, Mirror(v)) && Dot(Mirror(v), Mirror(v)) == Dot(v, v)
  {
    hide Dot, Apply, FlipColumn, Mirror;
    FlipApply(d, v);
  }

  /** An invertible covariance with a negative determinant: the code flips, and its answer is within 3e of the flipped
      orthogonal factor, which is a rotation. */
  lemma ReflectedLimit(h: Mat, o: Mat, s: Mat, e: real)
    requires Reflected(h, o, s) && Ends(h, e) && e > 0.0 && Det(h) != 0.0
    ensures Ns30(h) == FlipColumn(Iterate(Start(h), 30))
    ensures Rotation(FlipColumn(o)) && Within(Ns30(h), FlipColumn(o), 3.0 * e)
  {
    hide Mul, Psd, Contracts, Det, Orthogonal, Iterate, Start, EntriesAtMost, Residual, Within, FlipColumn;
    var x := Iterate(Start(h), 30);
    var q := IteratesFactor(h, o, s, 30);
    PsdDet(q);
    DetMul(o, q);
    DeterminantSign(h, 30);
    IterateNearFactor(h, o, s, e);
    FlipWithin(x, o, 3.0 * e);
    FlippedIsRotation(o);
  }

  // ----- what a small distance costs

  /** A form of at most t |v|^2 has an inner product of at most t tr S with a psd S. */
  lemma InnerAtMost(a: Mat, s: Mat, t: real)
    requires Psd(s) && forall v :: Quad(a, v) <= t * Dot(v, v)
    ensures Inner(a, s) <= t * Trace(s)
  {
    hide Dot, Apply, MSub, MScale, Psd, Inner, Trace, VSub, VScale;
    var b := MSub(MScale(t, ID), a);
    forall v
      ensures Quad(b, v) >= 0.0
    {
      SubApply(MScale(t, ID), a, v);
      ScaleApply(t, ID, v);
      IdApply(v);
      DotSub(v, VScale(t, v), Apply(a, v));
      DotScale(v, t, v);
      assert Quad(a, v) <= t * Dot(v, v);
    }
    InnerPsd(b, s);
    InnerOfShift(t, a, s);
  }

  lemma InnerOfShift(t: real, a: Mat, s: Mat)
    ensures Inner(MSub(MScale(t, ID), a), s) == t * Trace(s) - Inner(a, s)
  {
    hide Dot, VScale;
    DotSub(s.r0, VScale(t, E0), a.r0); DotSub(s.r1, VScale(t, E1), a.r1); DotSub(s.r2, VScale(t, E2), a.r2);
    DotScale(E0, t, s.r0); DotScale(E1, t, s.r1); DotScale(E2, t, s.r2);
    DotBasis(s.r0); DotBasis(s.r1); DotBasis(s.r2);
  }

  /** <O v, D v> <= t |v|^2 when O is orthogonal and |D v| <= t |v|. */
  lemma SmallCross(o: Mat, d: Mat, t: real, v: Vec)
    requires Orthogonal(o) && t > 0.0 && Norm2(d, v) <= t * t * Dot(v, v)
    ensures Quad(Mul(Transpose(o), d), v) <= t * Dot(v, v)
  {
    hide Dot, Apply, Mul, Transpose, Orthogonal, VSub, VScale;
    var a, b := Apply(o, v), Apply(d, v);
    ApplyMul(Transpose(o), d, v);
    Adjoint(Transpose(o), v, b);
    TransposeTwice(o);
    OrthogonalDot(o, v, v);
    NormDifference(t, a, 1.0, b);
    DotSelf(VSub(VScale(t, a), VScale(1.0, b)));
    SmallCrossScalar(t, Dot(v, v), Dot(b, b), Dot(a, b));
  }

  lemma SmallCrossScalar(t: real, n: real, bb: real, ab: real)
    requires t > 0.0 && bb <= t * t * n && t * t * n - 2.0 * (t * 1.0) * ab + 1.0 * 1.0 * bb >= 0.0
    ensures ab <= t * n
  {
    assert Times(t, ab - t * n) == t * ab - t * t * n;
    if ab > t * n {
      TimesPositive(t, ab - t * n);
    }
  }

  /** Moving the answer by at most t per unit vector moves its score by at most t tr S. */
  lemma ScoreNear(r: Mat, f: Mat, h: Mat, o: Mat, s: Mat, t: real)
    requires Orthogonal(o) && Psd(s) && h == Mul(o, s) && Within(r, f, t) && t > 0.0
    ensures Inner(f, h) - t * Trace(s) <= Inner(r, h) <= Inner(f, h) + t * Trace(s)
  {
    hide Dot, Mul, Transpose, MSub, Psd, Orthogonal, Inner, Trace, Norm2;
    var d, e := MSub(f, r), MSub(r, f);
    forall v
      ensures Quad(Mul(Transpose(o), d), v) <= t * Dot(v, v) && Quad(Mul(Transpose(o), e), v) <= t * Dot(v, v)
    {
      SwapDifference(f, r, v);
      SmallCross(o, d, t, v);
      SmallCross(o, e, t, v);
    }
    InnerAtMost(Mul(Transpose(o), d), s, t);
    InnerAtMost(Mul(Transpose(o), e), s, t);
    ScoreOfDifference(f, r, h, o, s);
    ScoreOfDifference(r, f, h, o, s);
  }

  lemma SwapDifference(f: Mat, r: Mat, v: Vec)
    ensures Norm2(MSub(r, f), v) == Norm2(MSub(f, r), v)
  {
    hide Dot, Apply, MSub;
    SubApply(r, f, v);
    SubApply(f, r, v);
    SwapNorm(Apply(r, v), Apply(f, v));
  }

  lemma SwapNorm(a: Vec, b: Vec)
    ensures Dot(VSub(a, b), VSub(a, b)) == Dot(VSub(b, a), VSub(b, a))
  {
  }

  lemma ScoreOfDifference(f: Mat, r: Mat, h: Mat, o: Mat, s: Mat)
    requires h == Mul(o, s)
    ensures Inner(Mul(Transpose(o), MSub(f, r)), s) == Inner(f, h) - Inner(r, h)
  {
    hide Mul, Transpose, Inner, MSub;
    InnerComm(Mul(Transpose(o), MSub(f, r)), s);
    InnerLeft(o, s, MSub(f, r));
    InnerDifference(h, f, r);
    InnerComm(h, f);
    InnerComm(h, r);
  }

  lemma InnerDifference(h: Mat, f: Mat, r: Mat)
    ensures Inner(h, MSub(f, r)) == Inner(h, f) - Inner(h, r)
  {
    hide Dot;
    DotSub(h.r0, f.r0, r.r0); DotSub(h.r1, f.r1, r.r1); DotSub(h.r2, f.r2, r.r2);
  }

  // ----- how far the flipped answer is from the best rotation

  lemma FlippedScore(h: Mat, o: Mat, s: Mat)
    requires Reflected(h, o, s)
    ensures Inner(FlipColumn(o), h) == Trace(s) - 2.0 * s.r2.z
  {
    hide Mul, Inner, Trace, Orthogonal, Det, Psd, FlipColumn;
    FlipIsProduct(o);
    InnerOrthogonal(o, FLIP, s);
    InnerFlip(s);
  }

  /** The shortfall of the code's answer against the best rotation is twice what the last axis stretches beyond the
      least stretch of S, give or take 3e tr S. Above: if every direction stretches by at least z. */
  lemma ShortfallAtMost(h: Mat, o: Mat, s: Mat, e: real, q: Mat, z: real)
    requires Reflected(h, o, s) && Ends(h, e) && e > 0.0 && Det(h) != 0.0 && Rotation(q)
    requires z >= 0.0 && forall v :: Quad(s, v) >= z * Dot(v, v)
    ensures Inner(q, h) <= Inner(Ns30(h), h) + 2.0 * (s.r2.z - z) + 3.0 * e * Trace(s)
  {
    hide Mul, Inner, Trace, Orthogonal, Det, Psd, FlipColumn, Ns30, Ends, Start, Within, Quad, Dot, StretchOf;
    ReflectedLimit(h, o, s, e);
    ScoreNear(Ns30(h), FlipColumn(o), h, o, s, 3.0 * e);
    FlippedScore(h, o, s);
    FlipBeats(o, s, h, q, z);
  }

  /** Below: for every direction v there is a rotation that gains on the answer what v stretches less. */
  lemma ShortfallAtLeast(h: Mat, o: Mat, s: Mat, e: real, v: Vec) returns (q: Mat)
    requires Reflected(h, o, s) && Ends(h, e) && e > 0.0 && Det(h) != 0.0 && Dot(v, v) > 0.0
    ensures Rotation(q)
    ensures Inner(q, h) >= Inner(Ns30(h), h) + 2.0 * (s.r2.z - StretchOf(s, v)) - 3.0 * e * Trace(s)
  {
    hide Mul, Inner, Trace, Orthogonal, Det, Psd, FlipColumn, Ns30, Ends, Start, Within, Quad, Dot, StretchOf;
    ReflectedLimit(h, o, s, e);
    ScoreNear(Ns30(h), FlipColumn(o), h, o, s, 3.0 * e);
    FlippedScore(h, o, s);
    q := Reflecting(o, s, h, v);
  }

  /** So an answer within d of every rotation forces the last axis to be, nearly, a direction of least stretch. */
  lemma NearBestOnlyIf(h: Mat, o: Mat, s: Mat, e: real, v: Vec, d: real)
    requires Reflected(h, o, s) && Ends(h, e) && e > 0.0 && Det(h) != 0.0 && Dot(v, v) > 0.0
    requires forall q :: Rotation(q) ==> Inner(q, h) <= Inner(Ns30(h), h) + d
    ensures StretchOf(s, v) >= s.r2.z - d / 2.0 - 1.5 * e * Trace(s)
  {
    hide Reflected, Inner, Trace, Rotation, Ns30, Ends, Start, Quad, Dot, Det, StretchOf;
    var q := ShortfallAtLeast(h, o, s, e, v);
  }

  // ----- the condition, on the covariance

  /** No direction is stretched less by h than the last axis. */
  ghost predicate LeastLast(h: Mat) {
    forall v :: Norm2(h, v) >= Norm2(h, E2) * Dot(v, v)
  }

  /** S psd with |S v| >= m |v| for all v has <v, S v> >= m |v|^2. */
  lemma RootMonotone(s: Mat, m: real, v: Vec)
    requires Psd(s) && m >= 0.0 && forall x :: Norm2(s, x) >= m * m * Dot(x, x)
    ensures Quad(s, v) >= m * Dot(v, v)
  {
    hide Dot, Norm2, MSub, MAdd, MScale, Quad, Symmetric, Det, Mul;
    if m == 0.0 {
      assert Quad(s, v) >= 0.0;
    } else {
      var a, b := MSub(s, MScale(m, ID)), MAdd(s, MScale(m, ID));
      ShiftedFacts(s, m);
      PositiveDefiniteDet(b);
      var i := Inverse(b);
      InverseRight(b);
      SymmetricInverse(b, i);
      var c := Mul(b, a);
      ShiftedProduct(s, m);
      CommutingPsd(b, c);
      QuotientPsd(b, i, c);
      MulAssoc(i, b, a);
      MulId(a);
      assert Quad(a, v) >= 0.0;
      ShiftedQuad(s, m, v);
    }
  }

  lemma ShiftedQuad(s: Mat, m: real, v: Vec)
    ensures Quad(MSub(s, MScale(m, ID)), v) == Quad(s, v) - m * Dot(v, v)
    ensures Quad(MAdd(s, MScale(m, ID)), v) == Quad(s, v) + m * Dot(v, v)
  {
    hide Dot, Apply, MScale, MSub, VSub, VScale;
    SubApply(s, MScale(m, ID), v);
    ScaleApply(m, ID, v);
    IdApply(v);
    DotSub(v, Apply(s, v), VScale(m, v));
    DotScale(v, m, v);
    ShiftQuad(s, m, v);
  }

  lemma ShiftedFacts(s: Mat, m: real)
    requires Psd(s) && m > 0.0
    ensures Symmetric(MSub(s, MScale(m, ID))) && Psd(MAdd(s, MScale(m, ID)))
    ensures forall x :: x != ZERO ==> Quad(MAdd(s, MScale(m, ID)), x) > 0.0
  {
    hide Dot, MSub, MAdd, MScale, Quad, Symmetric;
    ScaledIdSymmetric(m);
    SubSymmetric(s, MScale(m, ID));
    forall x
      ensures Quad(MAdd(s, MScale(m, ID)), x) >= 0.0 && (x != ZERO ==> Quad(MAdd(s, MScale(m, ID)), x) > 0.0)
    {
      ShiftedQuad(s, m, x);
      DotSelf(x);
      assert Quad(s, x) >= 0.0;
      LinearBound(m, 0.0, Dot(x, x));
      if x != ZERO {
        TimesPositive(m, Dot(x, x));
        TimesRaw(m, Dot(x, x));
      }
    }
  }

  /** (S + m)(S - m) is psd and commutes with S + m. */
  lemma ShiftedProduct(s: Mat, m: real)
    requires Psd(s) && m > 0.0 && forall x :: Norm2(s, x) >= m * m * Dot(x, x)
    ensures var a, b := MSub(s, MScale(m, ID)), MAdd(s, MScale(m, ID));
            Psd(Mul(b, a)) && Commute(b, Mul(b, a)) && Commute(Mul(b, a), b)
  {
    hide Dot, Norm2, MSub, MAdd, MScale, Quad, Symmetric, Mul, Psd;
    var a, b := MSub(s, MScale(m, ID)), MAdd(s, MScale(m, ID));
    ShiftsCommute(s, m);
    CommuteMul(b, b, a);
    CommuteSwap(b, Mul(b, a));
    assert Symmetric(a) && Symmetric(b) by {
      ShiftedFacts(s, m);
      PsdSymmetric(b);
    }
    ProductSymmetric(b, a);
    forall x
      ensures Quad(Mul(b, a), x) >= 0.0
    {
      ShiftedProductQuad(s, m, x);
    }
    MakePsd(Mul(b, a));
  }

  lemma MakePsd(c: Mat)
    requires Symmetric(c) && forall x :: Quad(c, x) >= 0.0
    ensures Psd(c)
  {
  }

  lemma ProductSymmetric(b: Mat, a: Mat)
    requires Symmetric(a) && Symmetric(b) && Commute(b, a)
    ensures Symmetric(Mul(b, a))
  {
    hide Mul, Transpose;
    TransposeMul(b, a);
  }

  lemma ShiftsCommute(s: Mat, m: real)
    ensures Commute(MAdd(s, MScale(m, ID)), MSub(s, MScale(m, ID)))
  {
    hide Mul, MScale, MSub, MAdd;
    var k := MScale(m, ID);
    MulSub(MAdd(s, k), s, k);
    MulAdd(MSub(s, k), s, k);
    MulAdd(s, s, k); MulAdd(k, s, k);
    MulSub(s, s, k); MulSub(k, s, k);
    ScalarCommutes(s, m);
    FourTerms(Mul(s, s), Mul(k, s), Mul(s, k), Mul(k, k));
  }

  lemma ScalarCommutes(s: Mat, m: real)
    ensures Mul(s, MScale(m, ID)) == Mul(MScale(m, ID), s)
  {
    hide Mul, MScale;
    MulScale(s, m, ID);
    MulScale(ID, m, s);
    MulId(s);
  }

  lemma FourTerms(a: Mat, b: Mat, c: Mat, d: Mat)
    requires b == c
    ensures MSub(MAdd(a, b), MAdd(c, d)) == MAdd(MSub(a, b), MSub(c, d))
  {
  }

  lemma ShiftedProductQuad(s: Mat, m: real, x: Vec)
    requires Psd(s) && m > 0.0 && Norm2(s, x) >= m * m * Dot(x, x)
    ensures Quad(Mul(MAdd(s, MScale(m, ID)), MSub(s, MScale(m, ID))), x) >= 0.0
  {
    hide Dot, Apply, MSub, MAdd, MScale, Mul, VAdd, VSub, VScale, Symmetric;
    var a, b := MSub(s, MScale(m, ID)), MAdd(s, MScale(m, ID));
    ShiftedFacts(s, m);
    ProductQuad(b, a, x);
    SubApply(s, MScale(m, ID), x);
    AddApply(s, MScale(m, ID), x);
    ScaleApply(m, ID, x);
    IdApply(x);
    var u, w := Apply(s, x), VScale(m, x);
    DotAdd(VSub(u, w), u, w);
    DotSub(u, u, w);
    DotSub(w, u, w);
    DotComm(u, VSub(u, w));
    DotComm(w, VSub(u, w));
    DotComm(u, w);
    DotScale(w, m, x);
    DotScale(x, m, x);
    assert m * (m * Dot(x, x)) == m * m * Dot(x, x);
  }

  lemma FactorNorm(h: Mat, o: Mat, s: Mat, v: Vec)
    requires Orthogonal(o) && h == Mul(o, s)
    ensures Norm2(h, v) == Norm2(s, v)
  {
    hide Dot, Apply, Mul, Orthogonal;
    ApplyMul(o, s, v);
    OrthogonalDot(o, Apply(s, v), Apply(s, v));
  }

  /** <e2, S e2>^2 <= |S e2|^2 */
  lemma LastEntryBelow(s: Mat)
    ensures Times(s.r2.z, s.r2.z) <= Norm2(s, E2)
  {
    hide Dot, Times;
    CauchySchwarz(E2, Apply(s, E2));
    DotBasis(Apply(s, E2));
    DotBasis(s.r2);
    DotBasis(E2);
    TimesOne(Dot(Apply(s, E2), Apply(s, E2)));
  }

  /** The condition can be read off h: the last axis is a direction of least stretch of S exactly when h stretches no
      direction less than the last axis. */
  lemma LeastLastIff(h: Mat, o: Mat, s: Mat)
    requires Reflected(h, o, s)
    ensures LeastLast(h) <==> LastAxisLeast(s)
  {
    hide Dot, Norm2, Quad, Orthogonal, Det, Mul, Psd;
    if LeastLast(h) {
      LeastLastDown(h, o, s);
    }
    if LastAxisLeast(s) {
      LeastLastUp(h, o, s);
    }
  }

  lemma LeastLastDown(h: Mat, o: Mat, s: Mat)
    requires Reflected(h, o, s) && LeastLast(h)
    ensures LastAxisLeast(s)
  {
    hide Dot, Norm2, Quad, Orthogonal, Det, Mul, Psd;
    var m := s.r2.z;
    LastNonNegative(s);
    LastEntryBelow(s);
    TimesRaw(m, m);
    FactorNorm(h, o, s, E2);
    forall x
      ensures Norm2(s, x) >= m * m * Dot(x, x)
    {
      FactorNorm(h, o, s, x);
      DotSelf(x);
      LinearBound(Dot(x, x), m * m, Norm2(h, E2));
    }
    forall v
      ensures Quad(s, v) >= m * Dot(v, v)
    {
      RootMonotone(s, m, v);
    }
  }

  lemma LeastLastUp(h: Mat, o: Mat, s: Mat)
    requires Reflected(h, o, s) && LastAxisLeast(s)
    ensures LeastLast(h)
  {
    hide Dot, Norm2, Quad, Orthogonal, Det, Mul, Psd, MSub, MScale;
    var m := s.r2.z;
    var t := MSub(s, MScale(m, ID));
    LastNonNegative(s);
    ShiftedPsd(s, m);
    ShiftedQuad(s, m, E2);
    LastEntry(s);
    PsdKernel(t, E2);
    SplitNorm(s, m, E2);
    FactorNorm(h, o, s, E2);
    KernelNorm(t);
    forall v
      ensures Norm2(h, v) >= Norm2(h, E2) * Dot(v, v)
    {
      SplitNorm(s, m, v);
      FactorNorm(h, o, s, v);
      PsdAt(t, v);
      DotSelf(Apply(t, v));
      LinearBound(m, 0.0, Quad(t, v));
    }
  }

  lemma LastEntry(s: Mat)
    ensures Quad(s, E2) == s.r2.z && Dot(E2, E2) == 1.0
  {
    hide Dot;
    DotBasis(E2);
    DotBasis(s.r2);
    DotBasis(Apply(s, E2));
  }

  lemma KernelNorm(t: Mat)
    ensures Apply(t, E2) == ZERO ==> Dot(Apply(t, E2), Apply(t, E2)) == 0.0 && Quad(t, E2) == 0.0
  {
    hide Dot;
    DotZero(ZERO);
    DotZero(E2);
    DotBasis(ZERO);
  }

  /** |S v|^2 for S = T + m I. */
  lemma SplitNorm(s: Mat, m: real, v: Vec)
    ensures var t := MSub(s, MScale(m, ID));
            Norm2(s, v) == Dot(Apply(t, v), Apply(t, v)) + 2.0 * (m * Quad(t, v)) + m * m * Dot(v, v)
  {
    hide Dot, Apply, MSub, MScale, VAdd, VSub, VScale;
    var t := MSub(s, MScale(m, ID));
    var u, w := Apply(s, v), Apply(t, v);
    SubApply(s, MScale(m, ID), v);
    ScaleApply(m, ID, v);
    IdApply(v);
    NormLine(w, m, v);
    DotComm(w, v);
    BackTogether(u, m, v);
  }

  lemma BackTogether(u: Vec, m: real, v: Vec)
    ensures VAdd(VSub(u, VScale(m, v)), VScale(m, v)) == u
  {
  }

  // ----- the code's answer on a reflection

  /** An invertible covariance with a negative determinant. If h stretches no direction less than the last axis, the
      answer of the fast path scores within a factor 1 - 9e of every rotation. If it does stretch some direction less,
      the rotation the answer is within 3e of is beaten by another. */
  lemma ReflectedAnswer(h: Mat, o: Mat, s: Mat, e: real)
    requires Reflected(h, o, s) && Ends(h, e) && 0.0 < e <= 0.1 && Det(h) != 0.0
    ensures LeastLast(h) <==> BestRotation(FlipColumn(o), h)
    ensures LeastLast(h) ==> forall q :: Rotation(q) ==> (1.0 - 9.0 * e) * Inner(q, h) <= Inner(Ns30(h), h)
  {
    hide Mul, Inner, Orthogonal, Det, Psd, FlipColumn, Ns30, Ends, Start, Within, Quad, Dot, Norm2, Trace;
    LeastLastIff(h, o, s);
    FlipBestIff(o, s, h);
    if LeastLast(h) {
      ReflectedLimit(h, o, s, e);
      ScoreNear(Ns30(h), FlipColumn(o), h, o, s, 3.0 * e);
      FlippedScore(h, o, s);
      LastNonNegative(s);
      LeastTrace(s);
      forall q | Rotation(q)
        ensures (1.0 - 9.0 * e) * Inner(q, h) <= Inner(Ns30(h), h)
      {
        FlipBeats(o, s, h, q, s.r2.z);
        ReflectedScalar(Inner(q, h), Inner(Ns30(h), h), Trace(s), s.r2.z, e);
      }
    }
  }

  lemma ReflectedScalar(q: real, r: real, t: real, z: real, e: real)
    requires q <= t - 2.0 * z && r >= t - 2.0 * z - 3.0 * e * t && t >= 3.0 * z >= 0.0 && 0.0 < e <= 0.1
    ensures (1.0 - 9.0 * e) * q <= r
  {
    var f := t - 2.0 * z;
    TimesRaw(1.0 - 9.0 * e, q);
    TimesRaw(3.0 * e, t);
    assert Times(1.0 - 9.0 * e, f) == f - Times(3.0 * e, 3.0 * f);
    hide Times;
    TimesUp(1.0 - 9.0 * e, q, f);
    TimesUp(3.0 * e, t, 3.0 * f);
  }

  lemma LeastTrace(s: Mat)
    requires LastAxisLeast(s)
    ensures Trace(s) >= 3.0 * s.r2.z
  {
    hide Dot, Quad;
    assert Quad(s, E0) >= s.r2.z * Dot(E0, E0) && Quad(s, E1) >= s.r2.z * Dot(E1, E1);
    QuadBasis(s);
    DotBasis(E0); DotBasis(E1);
  }
}
