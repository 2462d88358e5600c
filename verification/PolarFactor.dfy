/**
 The Newton-Schulz iterates and the orthogonal factor of the covariance (src/gen/sinew_align.c:103-137): for h = R P
 with R orthogonal and P psd every iterate is R times a psd matrix, and its residual bounds its distance to R.
 */
module PolarFactor {
  import opened LinAlg
  import opened Forms
  import opened Commuting
  import opened NewtonSchulz
  import opened Convergence
  import opened FastPath
  import opened Optimality

  // ----- Newton-Schulz stays on the orthogonal factor

  lemma StepFactor(r: Mat, p: Mat)
    requires Orthogonal(r) && Psd(p)
    ensures Gram(Mul(r, p)) == Mul(p, p) == Gram(p)
    ensures Step(Mul(r, p)) == Mul(r, Step(p))
  {
    hide Mul, Transpose, MScale, MSub;
    TransposeMul(r, p);
    MulAssoc(Transpose(p), Transpose(r), Mul(r, p));
    MulAssoc(Transpose(r), r, p);
    MulId(p);
    MulAssoc(r, p, Corrector(p));
    MulScale(r, 0.5, Mul(p, Corrector(p)));
  }

  lemma FactorContracts(r: Mat, p: Mat, c: real)
    requires Orthogonal(r) && Contracts(Mul(r, p), c)
    ensures Contracts(p, c)
  {
    hide Dot, Mul, Apply, Orthogonal;
    forall v
      ensures Norm2(p, v) <= c * Dot(v, v)
    {
      ContractsAt(Mul(r, p), c, v);
      ApplyMul(r, p, v);
      OrthogonalDot(r, Apply(p, v), Apply(p, v));
    }
  }

  lemma StepPsd(p: Mat)
    requires Psd(p) && Contracts(p, 3.0)
    ensures Psd(Step(p))
  {
    hide Mul, MScale, Corrector, Contracts, Symmetric, NonNegative;
    CorrectorPsd(p);
    SelfCommute(p);
    CommuteCorrector(p, p);
    CommutingPsd(p, Corrector(p));
    ScaledPsd(Mul(p, Corrector(p)), 0.5);
  }

  lemma SelfCommute(p: Mat)
    requires Psd(p)
    ensures Commute(p, Gram(p))
  {
    hide Mul;
    MulAssoc(p, p, p);
  }

  lemma StartFactor(h: Mat, r: Mat, p: Mat) returns (q: Mat)
    requires Psd(p) && h == Mul(r, p)
    ensures Start(h) == Mul(r, q) && Psd(q)
  {
    hide Mul, MScale, MaxRowSum, Psd;
    MaxNonNegative(h);
    var s := 1.0 / (MaxRowSum(h) + EPS);
    MulScale(r, s, p);
    ScaledPsd(p, s);
    q := MScale(s, p);
  }

  /** For h = R P with R orthogonal and P psd every iterate is R P_k with P_k psd. */
  lemma {:induction false} IteratesFactor(h: Mat, r: Mat, p: Mat, k: nat) returns (q: Mat)
    requires Orthogonal(r) && Psd(p) && h == Mul(r, p)
    ensures Iterate(Start(h), k) == Mul(r, q) && Psd(q)
    ensures Contracts(q, if k == 0 then 3.0 else 1.0)
  {
    hide Mul, Start, Step, Psd, Contracts, Det;
    if k == 0 {
      q := StartFactor(h, r, p);
    } else {
      var t := IteratesFactor(h, r, p, k - 1);
      ContractsWeaken(t, if k - 1 == 0 then 3.0 else 1.0, 3.0);
      StepFactor(r, t);
      StepPsd(t);
      q := Step(t);
    }
    NeverDiverges(h, k);
    FactorContracts(r, q, if k == 0 then 3.0 else 1.0);
  }

  /** For a rotation R no column is flipped. */
  lemma NoFlip(h: Mat, r: Mat, p: Mat)
    requires Rotation(r) && Psd(p) && h == Mul(r, p)
    ensures Ns30(h) == Iterate(Start(h), 30)
  {
    hide Mul, Start, Iterate, Psd, Contracts, Det, Orthogonal, FlipColumn;
    var q := IteratesFactor(h, r, p, 30);
    PsdDet(q);
    DetMul(r, q);
  }

  /** The Newton-Schulz answer on exact data is R P with P psd and no column is flipped. */
  lemma Ns30Factor(h: Mat, r: Mat, p: Mat) returns (q: Mat)
    requires Rotation(r) && Psd(p) && h == Mul(r, p)
    ensures Ns30(h) == Mul(r, q) && Psd(q) && Contracts(q, 1.0)
  {
    hide Mul, Start, Iterate, Psd, Contracts, Det, Orthogonal, FlipColumn;
    NoFlip(h, r, p);
    q := IteratesFactor(h, r, p, 30);
  }

  // ----- how far the answer is from the true rotation

  /** P psd and not stretching: 0 <= I - P <= I - P^2. */
  lemma DefectForm(p: Mat, v: Vec)
    requires Psd(p) && Contracts(p, 1.0)
    ensures 0.0 <= Quad(MSub(ID, p), v) <= Quad(Residual(p), v)
  {
    hide Dot, Apply, Symmetric, Residual, Contracts;
    assert AtMost(p, 1.0) by {
      forall x
        ensures Quad(p, x) <= 1.0 * Dot(x, x)
      {
        ContractsAt(p, 1.0, x);
        QuadBelow(p, x);
      }
    }
    SquareBelow(p, 1.0, v);
    ResidualQuad(p, v);
    SubApply(ID, p, v);
    IdApply(v);
    DotSub(v, v, Apply(p, v));
    assert Quad(p, v) <= 1.0 * Dot(v, v);
  }

  lemma QuadBelow(p: Mat, x: Vec)
    requires Norm2(p, x) <= 1.0 * Dot(x, x)
    ensures Quad(p, x) <= 1.0 * Dot(x, x)
  {
    hide Dot, Apply, VSub;
    var y := Apply(p, x);
    DotSelf(VSub(x, y));
    DotSub(VSub(x, y), x, y);
    DotSub(x, x, y);
    DotSub(y, x, y);
    DotComm(x, y);
  }

  /** With residual entries at most e, |P x - x| <= 3 e |x| for every x. */
  lemma DefectBound(p: Mat, e: real, x: Vec)
    requires Psd(p) && Contracts(p, 1.0) && EntriesAtMost(Residual(p), e) && e > 0.0
    ensures Norm2(MSub(ID, p), x) <= (3.0 * e) * (3.0 * e) * Dot(x, x)
  {
    hide Dot, Quad, Apply, Residual, Contracts, Psd;
    var f := MSub(ID, p);
    assert Psd(f) by { DefectPsd(p); }
    DefectTrace(p, e);
    forall v
      ensures Quad(f, v) <= (3.0 * e) * Dot(v, v)
    {
      TraceDominates(f, v);
      DotSelf(v);
      LinearBound(Dot(v, v), Trace(f), 3.0 * e);
    }
    assert AtMost(f, 3.0 * e);
    SquareBelow(f, 3.0 * e, x);
    LinearBound(3.0 * e, Quad(f, x), (3.0 * e) * Dot(x, x));
    assert (3.0 * e) * ((3.0 * e) * Dot(x, x)) == (3.0 * e) * (3.0 * e) * Dot(x, x);
  }

  lemma DefectPsd(p: Mat)
    requires Psd(p) && Contracts(p, 1.0)
    ensures Psd(MSub(ID, p))
  {
    hide Dot, Quad, Residual, Contracts;
    TransposeOfId();
    SubSymmetric(ID, p);
    forall v
      ensures Quad(MSub(ID, p), v) >= 0.0
    {
      DefectForm(p, v);
    }
  }

  lemma DefectTrace(p: Mat, e: real)
    requires Psd(p) && Contracts(p, 1.0) && EntriesAtMost(Residual(p), e)
    ensures Trace(MSub(ID, p)) <= 3.0 * e
  {
    hide Dot, Quad, Residual, Contracts, Psd, MSub;
    DefectForm(p, E0); DefectForm(p, E1); DefectForm(p, E2);
    QuadBasis(MSub(ID, p));
    QuadBasis(Residual(p));
  }

  lemma QuadBasis(m: Mat)
    ensures Quad(m, E0) == m.r0.x && Quad(m, E1) == m.r1.y && Quad(m, E2) == m.r2.z
  {
    hide Dot;
    DotBasis(m.r0); DotBasis(m.r1); DotBasis(m.r2);
    DotBasis(Apply(m, E0)); DotBasis(Apply(m, E1)); DotBasis(Apply(m, E2));
  }

  /** |Q x - R x|^2 <= t^2 |x|^2 for every x. */
  ghost predicate Within(q: Mat, r: Mat, t: real) {
    forall x :: Norm2(MSub(r, q), x) <= t * t * Dot(x, x)
  }

  /** For h = R P with R orthogonal, any bound e on the residual of the thirtieth iterate bounds its distance to R. */
  lemma IterateNearFactor(h: Mat, r: Mat, p: Mat, e: real)
    requires Orthogonal(r) && Psd(p) && h == Mul(r, p)
    requires EntriesAtMost(Residual(Iterate(Start(h), 30)), e) && e > 0.0
    ensures Within(Iterate(Start(h), 30), r, 3.0 * e)
  {
    hide Mul, Psd, Contracts, Orthogonal, Iterate, Start, EntriesAtMost, Dot, Residual, Apply, MSub;
    var q := IteratesFactor(h, r, p, 30);
    SameResidual(r, q);
    forall x
      ensures Norm2(MSub(r, Iterate(Start(h), 30)), x) <= (3.0 * e) * (3.0 * e) * Dot(x, x)
    {
      DefectBound(q, e, x);
      MulSub(r, ID, q);
      MulId(r);
      ApplyMul(r, MSub(ID, q), x);
      var y := Apply(MSub(ID, q), x);
      OrthogonalDot(r, y, y);
    }
  }

  /** On exact data h = R P, any bound e on the residual of the Newton-Schulz answer bounds its distance to R. */
  lemma FastPathNearTruth(h: Mat, r: Mat, p: Mat, e: real)
    requires Rotation(r) && Psd(p) && h == Mul(r, p)
    requires EntriesAtMost(Residual(Ns30(h)), e) && e > 0.0
    ensures Within(Ns30(h), r, 3.0 * e)
  {
    hide Mul, Psd, Det, Orthogonal, EntriesAtMost, Residual, Within, Iterate, Start, FlipColumn;
    NoFlip(h, r, p);
    IterateNearFactor(h, r, p, e);
  }

  lemma SameResidual(r: Mat, q: Mat)
    requires Orthogonal(r) && Psd(q)
    ensures Residual(Mul(r, q)) == Residual(q)
  {
    hide Mul, Psd, MSub;
    StepFactor(r, q);
  }
}
