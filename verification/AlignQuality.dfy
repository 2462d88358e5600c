/**
 How good the answer of `sinew_align` is (src/gen/sinew_align.c:283-343), for every covariance and with regularisation
 counted in: against every rotation, on exact data, and whether it is a rotation at all.
 */
module AlignQuality {
  import opened LinAlg
  import opened Forms
  import opened Commuting
  import opened Rotations
  import opened NewtonSchulz
  import opened Convergence
  import opened FastPath
  import opened Optimality
  import opened Conditioning
  import opened PolarFactor
  import opened Reflection
  import opened MathLibrary
  import opened Jacobi
  import opened JacobiEnds
  import opened Kabsch
  import opened KabschNear
  import opened ShortestArc
  import opened NegativeDeterminant
  import opened Align

  // ----- what regularisation costs

  /** A score against the regularised covariance is the score against the covariance plus the bump times the trace. */
  lemma RegularisedScore(q: Mat, h: Mat)
    ensures Inner(q, Regularize(h)) == Inner(q, h) + Bump(h) * Trace(q)
  {
    hide Dot, Bump, MScale;
    var k := MScale(Bump(h), ID);
    ScaledIdentity(Bump(h));
    DotAdd(q.r0, h.r0, k.r0); DotAdd(q.r1, h.r1, k.r1); DotAdd(q.r2, h.r2, k.r2);
    AxisDot(Bump(h), q);
  }

  lemma AxisDot(t: real, q: Mat)
    ensures Dot(q.r0, Vec(t, 0.0, 0.0)) == t * q.r0.x && Dot(q.r1, Vec(0.0, t, 0.0)) == t * q.r1.y
    ensures Dot(q.r2, Vec(0.0, 0.0, t)) == t * q.r2.z
  {
    hide Dot;
    DotRaw(q.r0, Vec(t, 0.0, 0.0)); DotRaw(q.r1, Vec(0.0, t, 0.0)); DotRaw(q.r2, Vec(0.0, 0.0, t));
  }

  /** An answer of trace at most 3 loses at most four bumps, a fifth of the scale, on the covariance itself. */
  lemma BumpCost(h: Mat, q: Mat, r: Mat, k: real)
    requires Rotation(q) && 0.0 <= k <= 1.0 && Trace(r) <= 3.0
    requires k * Inner(q, Regularize(h)) <= Inner(r, Regularize(h))
    ensures k * Inner(q, h) <= Inner(r, h) + 4.0 * Bump(h)
    ensures 4.0 * Bump(h) <= 0.2 * Scale(h)
  {
    hide Inner, Regularize, Bump, Scale, Rotation, Volume, Trace;
    BumpFacts(h);
    RegularisedScore(q, h);
    RegularisedScore(r, h);
    TraceAbove(q);
    BumpCostScalar(k, Inner(q, h), Inner(r, h), Bump(h), Trace(q), Trace(r));
  }

  lemma TraceAbove(q: Mat)
    requires Rotation(q)
    ensures Trace(q) >= -1.0
  {
    hide Rotation;
    RotationSums(q);
  }

  lemma BumpCostScalar(k: real, q: real, r: real, b: real, s: real, t: real)
    requires 0.0 <= k <= 1.0 && b >= 0.0 && s >= -1.0 && t <= 3.0 && k * (q + b * s) <= r + b * t
    ensures k * q <= r + 4.0 * b
  {
    TimesNonNegative(Times(k, b), s + 1.0);
    TimesNonNegative(1.0 - k, b);
    TimesNonNegative(b, 3.0 - t);
    assert Times(Times(k, b), s + 1.0) == k * (b * s) + k * b;
    assert Times(1.0 - k, b) == b - k * b;
    assert Times(b, 3.0 - t) == 3.0 * b - b * t;
    assert k * (q + b * s) == k * q + k * (b * s);
  }

  lemma ContractionTrace(r: Mat)
    requires Contracts(r, 1.0)
    ensures Trace(r) <= 3.0
  {
    hide Contracts;
    ContractionEntries(r);
  }

  lemma RotationTrace(r: Mat)
    requires Rotation(r)
    ensures Trace(r) <= 3.0
  {
    hide Rotation;
    DiagonalBelowOne(r);
  }

  // ----- the score of the answer, for every covariance

  /** With g = Regularize(h), the covariance the solver works on, and r its answer, for every rotation q:
      an accepted answer for det g > 0 scores at least 0.97 of q, and 0.999999 within reach of the thirty steps. */
  lemma PositiveQuality(m: Libm, h: Mat, q: Mat)
    requires m.Exact() && Rotation(q) && Det(Regularize(h)) > 0.0
    ensures var g, r := Regularize(h), SolveCovariance(m, h);
            && (Valid9(Ns30(g)) ==>
                  0.97 * Inner(q, g) <= Inner(r, g) && 0.97 * Inner(q, h) <= Inner(r, h) + 4.0 * Bump(h))
            && (Ready(g) ==> Valid9(Ns30(g)) && 0.999999 * Inner(q, g) <= Inner(r, g)
                             && 0.999999 * Inner(q, h) <= Inner(r, h) + 4.0 * Bump(h))
  {
    hide Valid9, Ns30, KabschFit, Regularize, Inner, Det, Expands, Ready, Bump, Contracts, Orthogonal, Trace, Scale,
         Iterate, Start;
    var g := Regularize(h);
    FastPathNearOptimal(g, q);
    if Ready(g) {
      FastPathAccepted(g);
    }
    if Valid9(Ns30(g)) {
      AcceptedStretch(g);
      ContractionTrace(Ns30(g));
      BumpCost(h, q, Ns30(g), 0.97);
      if Ready(g) {
        BumpCost(h, q, Ns30(g), 0.999999);
      }
    }
  }

  /** For det g < 0, when g stretches no direction less than the last axis: at least 0.75 of q when accepted, 0.999975
      within reach of the thirty steps. */
  lemma NegativeQuality(m: Libm, h: Mat, q: Mat)
    requires m.Exact() && Rotation(q) && Det(Regularize(h)) < 0.0 && LeastLast(Regularize(h))
    ensures var g, r := Regularize(h), SolveCovariance(m, h);
            && (Valid9(Ns30(g)) ==>
                  0.75 * Inner(q, g) <= Inner(r, g) && 0.75 * Inner(q, h) <= Inner(r, h) + 4.0 * Bump(h))
            && (Ready(g) ==> Valid9(Ns30(g)) && 0.999975 * Inner(q, g) <= Inner(r, g)
                             && 0.999975 * Inner(q, h) <= Inner(r, h) + 4.0 * Bump(h))
  {
    hide Valid9, Ns30, KabschFit, Regularize, Inner, Det, Expands, Ready, Bump, Contracts, Rotation, Trace, Scale,
         LeastLast, Ends, Iterate, Start, m.Exact;
    var g := Regularize(h);
    if Ready(g) {
      FastPathAccepted(g);
      ReadyEnds(g);
      NegativeAnswer(m, g, q, 0.000001);
    }
    if Valid9(Ns30(g)) {
      ValidEnds(g);
      NegativeAnswer(m, g, q, 0.01);
      AcceptedStretch(g);
      ContractionTrace(Ns30(g));
      BumpCost(h, q, Ns30(g), 0.75);
      if Ready(g) {
        BumpCost(h, q, Ns30(g), 0.999975);
      }
    }
  }

  /** And exactly then: with a final residual of at most e the accepted answer is within 3e of the flipped orthogonal
      factor of g, which is a best rotation if and only if g stretches no direction less than the last axis. */
  lemma NegativeLimit(m: Libm, h: Mat, o: Mat, s: Mat, e: real)
    requires m.Exact() && Valid9(Ns30(Regularize(h))) && Reflected(Regularize(h), o, s)
    requires Ends(Regularize(h), e) && 0.0 < e <= 0.1
    ensures Within(SolveCovariance(m, h), FlipColumn(o), 3.0 * e)
    ensures LeastLast(Regularize(h)) <==> BestRotation(FlipColumn(o), Regularize(h))
  {
    hide Valid9, Ns30, KabschFit, Regularize, Det, Reflected, Ends, Within, FlipColumn, LeastLast, BestRotation,
         m.Exact;
    var g := Regularize(h);
    ValidEnds(g);
    ReflectedLimit(g, o, s, e);
    ReflectedAnswer(g, o, s, e);
  }

  /** The fallback: a best rotation when g^T g was diagonalised exactly and two singular values exceed 1e-12, a nearly
      best one when the Jacobi stage left little off the diagonal, for rank three and for rank two. */
  lemma FallbackQuality(m: Libm, h: Mat, q: Mat)
    requires m.Exact() && Rotation(q) && !Valid9(Ns30(Regularize(h)))
    ensures var g, r := Regularize(h), SolveCovariance(m, h);
            && (IsDiagonal(Jacobi9(m, Gram(g)).a) && MiddleSigma(m, g) > RANK_EPS ==>
                  Inner(q, g) <= Inner(r, g) && Inner(q, h) <= Inner(r, h) + 4.0 * Bump(h))
            && (forall t :: Settled(m, g, t) ==> Inner(q, g) <= Inner(r, g) + 4.0 * (t * LeastSigma(m, g)))
            && forall t :: SettledFlat(m, g, t) ==> Inner(q, g) <= Inner(r, g) + 2.0 * RANK_EPS
  {
    hide Valid9, Ns30, KabschFit, Regularize, Inner, Bump, Rotation, Trace, Scale, Jacobi9, Gram, MiddleSigma,
         IsDiagonal, Settled, SettledFlat, LeastSigma, m.Exact;
    var g := Regularize(h);
    if IsDiagonal(Jacobi9(m, Gram(g)).a) && MiddleSigma(m, g) > RANK_EPS {
      KabschBestIff(m, g);
      RotationTrace(KabschFit(m, g));
      assert 1.0 * Inner(q, g) <= Inner(KabschFit(m, g), g);
      BumpCost(h, q, KabschFit(m, g), 1.0);
    }
    forall t | Settled(m, g, t)
      ensures Inner(q, g) <= Inner(SolveCovariance(m, h), g) + 4.0 * (t * LeastSigma(m, g))
    {
      KabschNearBest(m, g, t);
    }
    forall t | SettledFlat(m, g, t)
      ensures Inner(q, g) <= Inner(SolveCovariance(m, h), g) + 2.0 * RANK_EPS
    {
      KabschFlatBest(m, g, t);
    }
  }

  // ----- whether it is a rotation at all

  /** More than one pair (or none). An accepted answer has a positive determinant and changes no squared length by more
      than 3%. A refused one is singular if at most one singular value of g exceeds 1e-12; with g^T g diagonalised
      exactly it is a rotation otherwise, and with off-diagonal entries of at most t times the square of the smallest
      singular value above 1e-12 it changes no squared length by more than 2t. */
  lemma AlignOutcome(m: Libm, ps: seq<Pair>)
    requires m.Exact() && AsInt(|ps|) != 1
    ensures var g, r := Regularize(FullCovariance(m, ps)), AlignPairs(m, ps);
            && (Valid9(Ns30(g)) ==> Expands(r, 0.97) && Contracts(r, 1.0) && Det(r) > 0.0)
            && (!Valid9(Ns30(g)) && IsDiagonal(Jacobi9(m, Gram(g)).a) ==>
                  (Rotation(r) <==> MiddleSigma(m, g) > RANK_EPS))
            && (!Valid9(Ns30(g)) && MiddleSigma(m, g) <= RANK_EPS ==> Det(r) == 0.0)
            && forall t :: !Valid9(Ns30(g)) && (Settled(m, g, t) || SettledFlat(m, g, t)) ==>
                 Expands(r, 1.0 - 2.0 * t) && Contracts(r, 1.0 + 2.0 * t)
  {
    hide Valid9, Ns30, KabschFit, Regularize, Det, Expands, Contracts, Jacobi9, Gram, MiddleSigma, IsDiagonal, Settled,
         SettledFlat, Rotation, m.Exact, Covariance, WithNormals, Rodrigues;
    var g := Regularize(FullCovariance(m, ps));
    if Valid9(Ns30(g)) {
      AcceptedStretch(g);
    } else {
      if IsDiagonal(Jacobi9(m, Gram(g)).a) {
        KabschBestIff(m, g);
      }
      if MiddleSigma(m, g) <= RANK_EPS {
        KabschDeficient(m, g);
      }
      forall t | Settled(m, g, t) || SettledFlat(m, g, t)
        ensures Expands(KabschFit(m, g), 1.0 - 2.0 * t) && Contracts(KabschFit(m, g), 1.0 + 2.0 * t)
      {
        SettledStretch(m, g, t);
      }
    }
  }

  lemma SettledStretch(m: Libm, g: Mat, t: real)
    requires m.Exact() && (Settled(m, g, t) || SettledFlat(m, g, t))
    ensures Expands(KabschFit(m, g), 1.0 - 2.0 * t) && Contracts(KabschFit(m, g), 1.0 + 2.0 * t)
  {
    hide Settled, SettledFlat, KabschFit, Norm2, Dot, m.Exact;
    if Settled(m, g, t) {
      KabschNearBest(m, g, t);
    } else {
      KabschFlatBest(m, g, t);
    }
  }

  /** A refused answer, for every finite g and with nothing asked of the Jacobi stage. It is singular if at most one
      singular value exceeds 1e-12. Otherwise, with sigma the least one above 1e-12 and t >= 1e-19 / sigma^2, it changes
      no squared length by more than 2t, and no rotation scores more than 4 t sigma above it (2e-12 at rank two). */
  lemma RefusedOutcome(m: Libm, ps: seq<Pair>, t: real)
    requires var g := Regularize(FullCovariance(m, ps));
             m.Exact() && AsInt(|ps|) != 1 && !Valid9(Ns30(g)) && Finite(g)
    ensures var g, r := Regularize(FullCovariance(m, ps)), AlignPairs(m, ps);
            var s2, s3 := MiddleSigma(m, g), LeastSigma(m, g);
            if s2 <= 0.000000000001 then Det(r) == 0.0
            else
              var full := s3 > 0.000000000001;
              Resolves(t, if full then s3 else s2) ==>
                && Expands(r, 1.0 - 2.0 * t) && Contracts(r, 1.0 + 2.0 * t)
                && forall q :: Rotation(q) ==>
                     Inner(q, g) <= Inner(r, g) + (if full then 4.0 * (t * s3) else 0.000000000002)
  {
    hide Valid9, Ns30, KabschFit, Regularize, Det, Expands, Contracts, Jacobi9, Gram, MiddleSigma, LeastSigma, Settled,
         SettledFlat, Rotation, m.Exact, Covariance, WithNormals, Rodrigues, Finite, Resolves, Inner, Norm2, Dot;
    var g := Regularize(FullCovariance(m, ps));
    if MiddleSigma(m, g) <= 0.000000000001 {
      KabschDeficient(m, g);
    } else if LeastSigma(m, g) > 0.000000000001 {
      if Resolves(t, LeastSigma(m, g)) {
        FiniteSettles(m, g, t);
        SettledStretch(m, g, t);
        KabschNearBest(m, g, t);
      }
    } else if Resolves(t, MiddleSigma(m, g)) {
      FiniteSettlesFlat(m, g, t);
      SettledStretch(m, g, t);
      KabschFlatBest(m, g, t);
    }
  }

  // ----- exact data

  /** Regularisation left the covariance R times a psd matrix. */
  ghost predicate KeepsForm(h: Mat, r: Mat) {
    Psd(Mul(Transpose(r), Regularize(h)))
  }

  /** R^T g = P + b R^T for h = R P and a bump b. */
  lemma BumpForm(h: Mat, r: Mat, p: Mat)
    requires Orthogonal(r) && h == Mul(r, p)
    ensures Mul(Transpose(r), Regularize(h)) == MAdd(p, MScale(Bump(h), Transpose(r)))
    ensures Regularize(h) == Mul(r, Mul(Transpose(r), Regularize(h)))
  {
    hide Mul, Transpose, MScale, MAdd, Bump;
    var t, b := Transpose(r), Bump(h);
    OrthogonalFacts(r);
    MulAdd(t, h, MScale(b, ID));
    MulAssoc(t, r, p);
    MulId(p);
    MulScale(t, b, ID);
    MulId(t);
    MulAssoc(r, t, Regularize(h));
    MulId(Regularize(h));
  }

  /** Exactly when regularisation keeps the form R times psd on exact data: it added nothing, or R is symmetric (the
      identity or a half turn) and P + b R has a non-negative form. The factor is then the only one. */
  lemma KeepsFormIff(h: Mat, r: Mat, p: Mat)
    requires Orthogonal(r) && Psd(p) && h == Mul(r, p)
    ensures KeepsForm(h, r) <==> exists q :: Psd(q) && Regularize(h) == Mul(r, q)
    ensures KeepsForm(h, r)
       <==> Bump(h) == 0.0 || (Symmetric(r) && forall v :: Quad(p, v) + Bump(h) * Quad(r, v) >= 0.0)
  {
    hide Mul, Transpose, MScale, MAdd, Bump, Psd, Orthogonal, Regularize, Symmetric, Quad;
    BumpForm(h, r, p);
    forall q | Psd(q) && Regularize(h) == Mul(r, q)
      ensures Mul(Transpose(r), Regularize(h)) == q
    {
      OnlyFactor(r, q);
    }
    BumpFacts(h);
    FormPsdIff(p, r, Bump(h));
  }

  lemma OnlyFactor(r: Mat, q: Mat)
    requires Orthogonal(r)
    ensures Mul(Transpose(r), Mul(r, q)) == q
  {
    hide Mul, Transpose;
    MulAssoc(Transpose(r), r, q);
    MulId(q);
  }

  lemma FormPsdIff(p: Mat, r: Mat, b: real)
    requires Psd(p) && b >= 0.0
    ensures Psd(MAdd(p, MScale(b, Transpose(r))))
       <==> b == 0.0 || (Symmetric(r) && forall v :: Quad(p, v) + b * Quad(r, v) >= 0.0)
  {
    hide Dot, Quad;
    var f := MAdd(p, MScale(b, Transpose(r)));
    forall v
      ensures Quad(f, v) == Quad(p, v) + b * Quad(r, v)
    {
      FormQuad(p, r, b, v);
    }
    if b == 0.0 {
      NoForm(p, r);
    } else {
      FormSymmetric(p, r, b);
    }
  }

  lemma NoForm(p: Mat, r: Mat)
    ensures MAdd(p, MScale(0.0, Transpose(r))) == p
  {
  }

  lemma FormQuad(p: Mat, r: Mat, b: real, v: Vec)
    ensures Quad(MAdd(p, MScale(b, Transpose(r))), v) == Quad(p, v) + b * Quad(r, v)
  {
    hide Dot, Apply, MScale, MAdd, VAdd, VScale, Transpose;
    AddApply(p, MScale(b, Transpose(r)), v);
    ScaleApply(b, Transpose(r), v);
    DotAdd(v, Apply(p, v), VScale(b, Apply(Transpose(r), v)));
    DotScale(v, b, Apply(Transpose(r), v));
    Adjoint(r, v, v);
    DotComm(v, Apply(Transpose(r), v));
    DotComm(v, Apply(r, v));
  }

  lemma FormSymmetric(p: Mat, r: Mat, b: real)
    requires Symmetric(p) && b > 0.0
    ensures Symmetric(MAdd(p, MScale(b, Transpose(r)))) <==> Symmetric(r)
  {
    SameFactor(b, r.r0.y, r.r1.x); SameFactor(b, r.r0.z, r.r2.x); SameFactor(b, r.r1.z, r.r2.y);
    hide Times;
  }

  lemma SameFactor(b: real, x: real, y: real)
    requires b > 0.0
    ensures Times(b, x) == Times(b, y) <==> x == y
  {
    assert Times(b, x - y) == Times(b, x) - Times(b, y) && Times(b, y - x) == Times(b, y) - Times(b, x);
    if x > y {
      TimesPositive(b, x - y);
    } else if x < y {
      TimesPositive(b, y - x);
    }
  }

  // ----- the orthogonal factor is unique

  /** An invertible psd matrix, scaled as the solver scales it, stretches every direction by at least some c > 0. */
  lemma PositiveLower(s: Mat) returns (c: real)
    requires Psd(s) && Det(s) != 0.0
    ensures c > 0.0 && Psd(Start(s)) && forall v :: Quad(Start(s), v) >= c * Dot(v, v)
  {
    hide Det, Psd, Start, Frobenius, Norm2, Quad, Dot, Expands, Times;
    var t := Start(s);
    StartPsd(s);
    StartBounded(s);
    DetExpands(t);
    StartSign(s);
    TimesSquare(Det(t));
    var d := Times(Det(t), Det(t)) / 3.0;
    c := if d < 1.0 then d else 1.0;
    TimesRaw(c, c);
    TimesUp(c, c, 1.0);
    TimesOne(c);
    forall x
      ensures Norm2(t, x) >= c * c * Dot(x, x)
    {
      ExpandsAt(t, d, x);
      DotSelf(x);
      LinearBound(Dot(x, x), c * c, d);
    }
    forall v
      ensures Quad(t, v) >= c * Dot(v, v)
    {
      RootMonotone(t, c, v);
    }
  }

  lemma StartPsd(s: Mat)
    requires Psd(s)
    ensures Psd(Start(s))
  {
    hide MScale, MaxRowSum, Psd;
    MaxNonNegative(s);
    ScaledPsd(s, 1.0 / (MaxRowSum(s) + EPS));
  }

  /** W S psd with W orthogonal and S psd and invertible leaves only W = I. */
  lemma PsdProductTrivial(w: Mat, s: Mat)
    requires Orthogonal(w) && Psd(s) && Det(s) != 0.0 && Psd(Mul(w, s))
    ensures w == ID
  {
    hide Mul, Transpose, Inner, Trace, Psd, Det, Orthogonal, Quad, Dot, MSub, MScale, Start;
    var q, t := Mul(w, s), Transpose(w);
    OrthogonalFacts(w);
    TraceAtMost(t, s);
    TraceAtMost(w, q);
    TraceOfProduct(w, s);
    OnlyFactor(w, s);
    TraceOfProduct(t, q);
    TransposeTwice(w);
    // so <W^T, S> = tr S, and a positive lower bound on S forces tr W = 3
    var c := PositiveLower(s);
    var n := MSub(ID, t);
    forall v
      ensures Quad(n, v) >= 0.0
    {
      DefectNonNegative(t, v);
    }
    var p := Start(s);
    ShiftedPsd(p, c);
    InnerPsd(n, MSub(p, MScale(c, ID)));
    InnerComm(n, MSub(p, MScale(c, ID)));
    InnerShift(p, c, n);
    InnerOfDifference(t, p);
    InnerComm(n, p);
    StartInner(t, s);
    TraceOfDefect(t);
    if Trace(n) > 0.0 {
      TimesPositive(c, Trace(n));
      TimesRaw(c, Trace(n));
    }
    FullTrace(t);
    TransposeOfId();
  }

  lemma TraceAtMost(t: Mat, s: Mat)
    requires Orthogonal(t) && Psd(s)
    ensures Inner(t, s) <= Trace(s)
  {
    hide Orthogonal, Psd, Quad, Dot, Inner, Trace;
    forall v
      ensures Quad(t, v) <= Dot(v, v)
    {
      OrthogonalQuad(t, v);
    }
    InnerTraceBound(t, s);
  }

  /** tr (W S) = <W^T, S> */
  lemma TraceOfProduct(w: Mat, s: Mat)
    ensures Trace(Mul(w, s)) == Inner(Transpose(w), s)
  {
    hide Mul, Transpose;
    InnerTrace(Transpose(w), s);
    TransposeTwice(w);
  }

  lemma DefectNonNegative(t: Mat, v: Vec)
    requires Orthogonal(t)
    ensures Quad(MSub(ID, t), v) >= 0.0
  {
    hide Orthogonal, Dot, Apply, MSub, VSub;
    OrthogonalQuad(t, v);
    SubApply(ID, t, v);
    IdApply(v);
    DotSub(v, v, Apply(t, v));
  }

  lemma TraceOfDefect(t: Mat)
    ensures Trace(MSub(ID, t)) == 3.0 - Trace(t)
  {
  }

  /** Scaling by a factor keeps the gap between <T, S> and tr S at zero. */
  lemma StartInner(t: Mat, s: Mat)
    requires Inner(t, s) == Trace(s)
    ensures Inner(t, Start(s)) == Trace(Start(s))
  {
    hide Dot, MaxRowSum, VScale;
    MaxNonNegative(s);
    var k := 1.0 / (MaxRowSum(s) + EPS);
    DotScale(t.r0, k, s.r0); DotScale(t.r1, k, s.r1); DotScale(t.r2, k, s.r2);
    ScaledTrace(k, s);
  }

  lemma ScaledTrace(k: real, s: Mat)
    ensures Trace(MScale(k, s)) == k * Trace(s)
  {
    TimesRaw(k, s.r0.x); TimesRaw(k, s.r1.y); TimesRaw(k, s.r2.z);
    hide Times;
  }

  /** An orthogonal matrix of trace 3 or more is the identity. */
  lemma FullTrace(t: Mat)
    requires Orthogonal(t) && Trace(t) >= 3.0
    ensures t == ID
  {
    hide Orthogonal, Times;
    DiagonalAtMostOne(t);
    OrthogonalRows(t);
    UnitRow(t.r0.x, t.r0.y, t.r0.z);
    UnitRow(t.r1.y, t.r1.x, t.r1.z);
    UnitRow(t.r2.z, t.r2.x, t.r2.y);
  }

  lemma DiagonalAtMostOne(t: Mat)
    requires Orthogonal(t)
    ensures t.r0.x <= 1.0 && t.r1.y <= 1.0 && t.r2.z <= 1.0
  {
    hide Dot, Quad, Orthogonal;
    OrthogonalQuad(t, E0); OrthogonalQuad(t, E1); OrthogonalQuad(t, E2);
    QuadBasis(t);
    DotBasis(E0); DotBasis(E1); DotBasis(E2);
  }

  lemma OrthogonalRows(t: Mat)
    requires Orthogonal(t)
    ensures Times(t.r0.x, t.r0.x) + Times(t.r0.y, t.r0.y) + Times(t.r0.z, t.r0.z) == 1.0
    ensures Times(t.r1.y, t.r1.y) + Times(t.r1.x, t.r1.x) + Times(t.r1.z, t.r1.z) == 1.0
    ensures Times(t.r2.z, t.r2.z) + Times(t.r2.x, t.r2.x) + Times(t.r2.y, t.r2.y) == 1.0
  {
    OrthogonalFacts(t);
    hide Times, Orthogonal, Det;
    assert Mul(t, Transpose(t)).r0.x == 1.0 && Mul(t, Transpose(t)).r1.y == 1.0 && Mul(t, Transpose(t)).r2.z == 1.0;
    TransposeTwice(t);
  }

  lemma UnitRow(a: real, b: real, c: real)
    requires a <= 1.0 && Times(a, a) + Times(b, b) + Times(c, c) == 1.0
    ensures a >= 1.0 ==> b == 0.0 && c == 0.0
  {
    TimesSquare(b);
    TimesSquare(c);
    if a >= 1.0 {
      assert Times(a, a) == 1.0;
    }
  }

  /** An invertible matrix has at most one orthogonal factor. */
  lemma FactorUnique(o: Mat, s: Mat, r: Mat, q: Mat)
    requires Orthogonal(o) && Orthogonal(r) && Psd(s) && Psd(q) && Mul(o, s) == Mul(r, q) && Det(Mul(o, s)) != 0.0
    ensures o == r
  {
    hide Mul, Transpose, Psd, Det, Orthogonal;
    var w := Mul(Transpose(r), o);
    OrthogonalFacts(r);
    OrthogonalMul(Transpose(r), o);
    DetMul(o, s);
    MulAssoc(Transpose(r), o, s);
    OnlyFactor(r, q);
    NonzeroSecond(Det(o), Det(s));
    PsdProductTrivial(w, s);
    MulAssoc(r, Transpose(r), o);
    MulId(o);
    MulId(r);
  }

  lemma NonzeroSecond(a: real, b: real)
    requires a * b != 0.0
    ensures b != 0.0
  {
  }

  // ----- end to end on exact data

  /** Regularisation left the covariance R times a psd matrix, or R with its last column negated times one; in that case
      the column flip undoes the negation. */
  ghost predicate KeepsRotation(h: Mat, r: Mat) {
    KeepsForm(h, r) || KeepsForm(h, FlipColumn(r))
  }

  lemma FlipTwice(r: Mat)
    ensures FlipColumn(FlipColumn(r)) == r
  {
  }

  lemma FlippedImproper(r: Mat)
    requires Rotation(r)
    ensures Orthogonal(FlipColumn(r)) && Det(FlipColumn(r)) == -1.0
  {
    hide Mul, Det, Orthogonal, FlipColumn;
    FlipIsProduct(r);
    FlipFacts();
    OrthogonalMul(r, FLIP);
  }

  /** g = O (O^T g) for every orthogonal O. */
  lemma FactorBack(o: Mat, g: Mat)
    requires Orthogonal(o)
    ensures g == Mul(o, Mul(Transpose(o), g))
  {
    hide Mul, Transpose;
    OrthogonalFacts(o);
    MulAssoc(o, Transpose(o), g);
    MulId(g);
  }

  /** Either form puts the answer within 3e of R. */
  lemma RecoversWithin(h: Mat, r: Mat, e: real)
    requires Rotation(r) && KeepsRotation(h, r)
    requires var g := Regularize(h); Ends(g, e) && e > 0.0 && Det(g) != 0.0
    ensures Within(Ns30(Regularize(h)), r, 3.0 * e)
  {
    hide Mul, Psd, Ns30, Within, Regularize, Ends, FlipColumn, Det, Orthogonal, Transpose;
    var g := Regularize(h);
    if KeepsForm(h, r) {
      FactorBack(r, g);
      ProperLimit(g, r, Mul(Transpose(r), g), e);
    } else {
      var f := FlipColumn(r);
      FlippedImproper(r);
      FactorBack(f, g);
      ReflectedLimit(g, f, Mul(Transpose(f), g), e);
      FlipTwice(r);
    }
  }

  /** Exact data, more than one pair (or none), every volume. If regularisation kept the rotation, which it does
      whenever it added nothing: an accepted answer is within 3% of the true rotation on every vector, and within 3e-6
      if the covariance is within reach of the thirty steps. If it kept the form R times psd, the fallback, with g^T g
      diagonalised exactly and two singular values above 1e-12, answers with the true rotation. */
  lemma AlignRecoversRotation(m: Libm, ps: seq<Pair>, r: Mat)
    requires m.Exact() && ExactData(ps, r) && Rotation(r) && AsInt(|ps|) != 1
    ensures var h := FullCovariance(m, ps);
            var g := Regularize(h);
            && (Volume(h) >= 0.000001 ==> KeepsForm(h, r))
            && (KeepsRotation(h, r) && Valid9(Ns30(g)) ==> Within(AlignPairs(m, ps), r, 0.03))
            && (KeepsRotation(h, r) && Ready(g) ==> Valid9(Ns30(g)) && Within(AlignPairs(m, ps), r, 0.000003))
            && (KeepsForm(h, r) && !Valid9(Ns30(g)) && IsDiagonal(Jacobi9(m, Gram(g)).a) && MiddleSigma(m, g) > RANK_EPS
                ==> AlignPairs(m, ps) == r)
  {
    hide Mul, Psd, Rotation, Ns30, Volume, Valid9, Within, Ready, Ends, Regularize, KabschFit, Jacobi9, MiddleSigma,
         m.Exact, WithNormals, Covariance, IsDiagonal, Bump, Transpose, Rodrigues, Symmetric, Quad, FlipColumn, Det;
    var h := FullCovariance(m, ps);
    var g := Regularize(h);
    var p := ExactFull(m, ps, r);
    RotationIsOrthogonal(r);
    KeepsFormIff(h, r, p);
    BumpFacts(h);
    if Ready(g) {
      FastPathAccepted(g);
      ReadyEnds(g);
    }
    if KeepsRotation(h, r) && Valid9(Ns30(g)) {
      ValidEnds(g);
      RecoversWithin(h, r, 0.01);
      if Ready(g) {
        RecoversWithin(h, r, 0.000001);
      }
    }
    if KeepsForm(h, r) && !Valid9(Ns30(g)) && IsDiagonal(Jacobi9(m, Gram(g)).a) && MiddleSigma(m, g) > RANK_EPS {
      BumpForm(h, r, p);
      KabschRecovers(m, g, r, Mul(Transpose(r), g));
    }
  }

  /** The rotation the Newton-Schulz answer approximates: the orthogonal factor, flipped if it is improper. */
  function LimitOf(o: Mat): Mat {
    if Det(o) == 1.0 then o else FlipColumn(o)
  }

  /** And only then: an accepted answer, with a final residual of at most e, is within 3e of the rotation LimitOf(O) for
      the orthogonal factor O of g, and that rotation is the true one if and only if regularisation kept it. */
  lemma AlignLimit(m: Libm, ps: seq<Pair>, r: Mat, o: Mat, s: Mat, e: real)
    requires m.Exact() && ExactData(ps, r) && Rotation(r) && AsInt(|ps|) != 1
    requires var g := Regularize(FullCovariance(m, ps));
             Valid9(Ns30(g)) && Ends(g, e) && e > 0.0 && Orthogonal(o) && Psd(s) && g == Mul(o, s)
    ensures Rotation(LimitOf(o)) && Within(AlignPairs(m, ps), LimitOf(o), 3.0 * e)
    ensures LimitOf(o) == r <==> KeepsRotation(FullCovariance(m, ps), r)
  {
    hide Mul, Psd, Ns30, Valid9, Within, Regularize, KabschFit, m.Exact, Ends, FlipColumn, Det, Orthogonal, WithNormals,
         Covariance, Transpose, Rodrigues;
    var h := FullCovariance(m, ps);
    var g := Regularize(h);
    ValidEnds(g);
    OrthogonalDet(o);
    if Det(o) == 1.0 {
      ProperLimit(g, o, s, e);
    } else {
      ReflectedLimit(g, o, s, e);
    }
    LimitIff(h, r, o, s);
  }

  lemma LimitIff(h: Mat, r: Mat, o: Mat, s: Mat)
    requires Rotation(r) && Orthogonal(o) && Psd(s) && Regularize(h) == Mul(o, s) && Det(Regularize(h)) != 0.0
    ensures LimitOf(o) == r <==> KeepsRotation(h, r)
  {
    hide Mul, Psd, Regularize, FlipColumn, Det, Orthogonal, Transpose;
    OrthogonalDet(o);
    FlippedImproper(r);
    FlipTwice(r);
    FlipTwice(o);
    FactorIff(h, r, o, s);
    FactorIff(h, FlipColumn(r), o, s);
  }

  /** The orthogonal factor of g is R if and only if g has the form R times psd. */
  lemma FactorIff(h: Mat, r: Mat, o: Mat, s: Mat)
    requires Orthogonal(r) && Orthogonal(o) && Psd(s) && Regularize(h) == Mul(o, s) && Det(Regularize(h)) != 0.0
    ensures o == r <==> KeepsForm(h, r)
  {
    hide Mul, Psd, Regularize, Det, Orthogonal, Transpose;
    OnlyFactor(o, s);
    if KeepsForm(h, r) {
      FactorBack(r, Regularize(h));
      FactorUnique(o, s, r, Mul(Transpose(r), Regularize(h)));
    }
  }

  lemma ProperLimit(g: Mat, o: Mat, s: Mat, e: real)
    requires Rotation(o) && Psd(s) && g == Mul(o, s) && Ends(g, e) && e > 0.0
    ensures Within(Ns30(g), o, 3.0 * e)
  {
    hide Mul, Psd, Ns30, Within, Rotation, Iterate, Start, EntriesAtMost, Residual;
    RotationIsOrthogonal(o);
    NoFlip(g, o, s);
    IterateNearFactor(g, o, s, e);
  }
}
