/**
 When the Newton-Schulz loop of `sinew_ns30` (src/gen/sinew_align.c:103-130) converges: for every invertible covariance
 and for no other, and within the thirty steps the code takes whenever |det h| is at least 0.18 of the cubed row sum.
 */
module Conditioning {
  import opened LinAlg
  import opened Forms
  import opened NewtonSchulz
  import opened Convergence
  import opened FastPath
  import opened Optimality

  // ----- the determinant bounds the smallest singular value

  /** The principal 2x2 minors of a Gram matrix add up to at most a third of the squared trace. */
  lemma MinorSum(a: real, b: real, c: real, d: real, e: real, f: real, t: real)
    requires a >= 0.0 && d >= 0.0 && f >= 0.0 && t == a + d + f && t < 3.0
    ensures (d * f - e * e) + (f * a - c * c) + (a * d - b * b) <= 3.0
  {
    SquareRaw(e); SquareRaw(c); SquareRaw(b); SquareRaw(a - d); SquareRaw(d - f); SquareRaw(f - a);
    assert t * t - 3.0 * (d * f + f * a + a * d) == ((a - d) * (a - d) + (d - f) * (d - f) + (f - a) * (f - a)) / 2.0;
    TimesMonotone(t, 3.0, t, 3.0);
  }

  lemma SquareRaw(a: real)
    ensures a * a >= 0.0
  {
    TimesRaw(a, a);
    TimesSquare(a);
  }

  lemma GramMinors(x: Mat)
    requires Frobenius(x) < 3.0
    ensures Trace(Cof(Gram(x))) <= 3.0
  {
    hide Dot, Mul, Cof, Quad;
    GramPsd(x);
    InnerTrace(x, x);
    var Mat(Vec(a, b, c), Vec(b', d, e), Vec(c', e', f)) := Gram(x);
    DiagonalNonNegative(Gram(x));
    CofTrace(a, b, c, b', d, e, c', e', f);
    MinorSum(a, b, c, d, e, f, a + d + f);
  }

  lemma DiagonalNonNegative(g: Mat)
    requires Psd(g)
    ensures g.r0.x >= 0.0 && g.r1.y >= 0.0 && g.r2.z >= 0.0 && g.r1.x == g.r0.y && g.r2.x == g.r0.z && g.r2.y == g.r1.z
  {
    hide Dot;
    DotBasis(g.r0); DotBasis(g.r1); DotBasis(g.r2);
    DotBasis(Apply(g, E0)); DotBasis(Apply(g, E1)); DotBasis(Apply(g, E2));
    assert Quad(g, E0) >= 0.0 && Quad(g, E1) >= 0.0 && Quad(g, E2) >= 0.0;
  }

  /** The inverse of an invertible Gram matrix is psd. */
  lemma InversePsd(x: Mat, i: Mat)
    requires Mul(Gram(x), i) == ID
    ensures Psd(i) && forall v :: Norm2(x, Apply(i, v)) == Quad(i, v)
  {
    hide Dot, Apply, Mul, Gram, Symmetric;
    GramSymmetric(x);
    SymmetricInverse(Gram(x), i);
    forall v
      ensures Quad(i, v) >= 0.0 && Norm2(x, Apply(i, v)) == Quad(i, v)
    {
      var u := Apply(i, v);
      GramDot(x, u, u);
      ApplyMul(Gram(x), i, v);
      IdApply(v);
      DotComm(u, v);
      DotSelf(Apply(x, u));
    }
  }

  lemma InverseTrace(g: Mat)
    requires Det(g) != 0.0
    ensures Trace(Inverse(g)) == 1.0 / Det(g) * Trace(Cof(g))
  {
    hide Det, Cof;
    var s, c := 1.0 / Det(g), Cof(g);
    TimesRaw(s, c.r0.x); TimesRaw(s, c.r1.y); TimesRaw(s, c.r2.z);
  }

  /** With a sum of squares below 3 the squared singular values are at least det^2 / 3. */
  lemma DetExpands(x: Mat)
    requires Frobenius(x) < 3.0
    ensures Expands(x, Times(Det(x), Det(x)) / 3.0)
  {
    hide Dot, Det, Gram, Inverse, Norm2, Quad, Psd, Frobenius, Times;
    var d := Det(Gram(x));
    GramDet(x);
    TimesSquare(Det(x));
    if d == 0.0 {
      forall v
        ensures Norm2(x, v) >= d / 3.0 * Dot(v, v)
      {
        NormNonNegative(x, v);
      }
    } else {
      var i := Inverse(Gram(x));
      InverseRight(Gram(x));
      InversePsd(x, i);
      InverseTrace(Gram(x));
      GramMinors(x);
      forall v
        ensures Norm2(x, v) >= d / 3.0 * Dot(v, v)
      {
        DetExpandsAt(x, i, d, Trace(Cof(Gram(x))), v);
      }
    }
  }

  lemma NormNonNegative(x: Mat, v: Vec)
    ensures Norm2(x, v) >= 0.0
  {
    hide Dot, Apply;
    DotSelf(Apply(x, v));
  }

  lemma DetExpandsAt(x: Mat, i: Mat, d: real, c: real, v: Vec)
    requires Mul(Gram(x), i) == ID && Psd(i) && Norm2(x, Apply(i, v)) == Quad(i, v)
    requires d > 0.0 && Trace(i) == 1.0 / d * c && c <= 3.0
    ensures Norm2(x, v) >= d / 3.0 * Dot(v, v)
  {
    hide Dot, Apply, Mul, Gram, Psd, Quad, Trace, Times;
    var u := Apply(i, v);
    var p, q := Apply(x, v), Apply(x, u);
    GramDot(x, v, u);
    ApplyMul(Gram(x), i, v);
    IdApply(v);
    CauchySchwarz(p, q);
    TraceDominates(i, v);
    DotSelf(v);
    DotSelf(p);
    DetExpandsScalar(d, c, Dot(v, v), Norm2(x, v), Quad(i, v), Trace(i));
  }

  lemma DetExpandsScalar(d: real, c: real, n: real, y: real, q: real, t: real)
    requires d > 0.0 && c <= 3.0 && n >= 0.0 && y >= 0.0 && t == 1.0 / d * c
    requires Times(n, n) <= Times(y, q) && q <= t * n
    ensures y >= d / 3.0 * n
  {
    assert Times(d, t) == c;
    TimesRaw(t, n);
    hide Times;
    if n > 0.0 {
      // d n^2 <= d y t n = c y n <= 3 y n
      TimesUp(y, q, Times(t, n));
      TimesUp(d, Times(n, n), Times(y, Times(t, n)));
      Rearrange(d, y, t, n);
      TimesUp(Times(y, n), c, 3.0);
      TimesComm(Times(y, n), c);
      CancelFactor(n, d, y);
    }
  }

  lemma Rearrange(d: real, y: real, t: real, n: real)
    ensures Times(d, Times(y, Times(t, n))) == Times(Times(d, t), Times(y, n))
  {
  }

  lemma CancelFactor(n: real, d: real, y: real)
    requires n > 0.0 && Times(d, Times(n, n)) <= Times(Times(y, n), 3.0)
    ensures y >= d / 3.0 * n
  {
    assert Times(n, d * n - 3.0 * y) == Times(d, Times(n, n)) - Times(Times(y, n), 3.0);
    if d * n - 3.0 * y > 0.0 {
      TimesPositive(n, d * n - 3.0 * y);
    }
  }

  /** A condition on h that a caller can compute: it puts the covariance within reach of the thirty steps, so the fast
      path is taken. */
  lemma WellConditioned(h: Mat)
    requires var c := MaxRowSum(h) + EPS; Abs(Det(h)) >= 0.18 * (c * c * c)
    ensures Expands(Start(h), 0.01) && Ready(h) && Valid9(Ns30(h))
  {
    hide Det, Expands, MaxRowSum, Frobenius, Start, Valid9, Ns30, Contracts, Ready;
    StartBounded(h);
    DetExpands(Start(h));
    StartDet(h);
    ExpandsWeaken(Start(h), Times(Det(Start(h)), Det(Start(h))) / 3.0, 0.01);
    StartReady(h);
    FastPathAccepted(h);
  }

  lemma StartDet(h: Mat)
    requires var c := MaxRowSum(h) + EPS; Abs(Det(h)) >= 0.18 * (c * c * c)
    ensures Times(Det(Start(h)), Det(Start(h))) >= 0.03
  {
    hide Det, MaxRowSum, MScale;
    MaxNonNegative(h);
    var c := MaxRowSum(h) + EPS;
    DetScale(1.0 / c, h);
    StartDetScalar(c, 1.0 / c, Det(h), Det(Start(h)));
  }

  lemma StartDetScalar(c: real, s: real, d: real, e: real)
    requires c > 0.0 && s == 1.0 / c && Abs(d) >= 0.18 * (c * c * c) && e == s * s * s * d
    ensures Times(e, e) >= 0.03
  {
    var k := Times(c, Times(c, c));
    var g := Times(s, Times(s, s));
    CubeInverse(c, s);
    assert e == Times(g, d) && Abs(d) >= 0.18 * k;
    hide Times;
    TimesPositive(s, s);
    TimesPositive(s, Times(s, s));
    if d >= 0.0 {
      BoundBelow(g, k, d);
      TimesMonotone(0.18, Times(g, d), 0.18, Times(g, d));
    } else {
      BoundBelow(g, k, -d);
      NegatedTwice(g, d);
      TimesMonotone(0.18, Times(g, -d), 0.18, Times(g, -d));
    }
    SmallSquare();
  }

  lemma SmallSquare()
    ensures Times(0.18, 0.18) >= 0.03
  {
  }

  lemma NegatedTwice(g: real, d: real)
    ensures Times(Times(g, -d), Times(g, -d)) == Times(Times(g, d), Times(g, d))
  {
  }

  lemma CubeInverse(c: real, s: real)
    requires c > 0.0 && s == 1.0 / c
    ensures Times(Times(s, Times(s, s)), Times(c, Times(c, c))) == 1.0 && s > 0.0
  {
    assert s * c == 1.0;
    assert (s * (s * s)) * (c * (c * c)) == (s * c) * ((s * c) * (s * c));
  }

  lemma BoundBelow(g: real, k: real, d: real)
    requires g > 0.0 && Times(g, k) == 1.0 && d >= 0.18 * k
    ensures Times(g, d) >= 0.18
  {
    TimesUp(g, 0.18 * k, d);
    assert Times(g, 0.18 * k) == 0.18 * Times(g, k);
  }

  // ----- convergence for every invertible covariance

  function ResidualSum(h: Mat, k: nat): real {
    MaxRowSum(Residual(Iterate(Start(h), k)))
  }

  ghost predicate Reaches(h: Mat, e: real) {
    exists k :: ResidualSum(h, k) <= e
  }

  /** One more step from any lower bound between 0 and 1. */
  lemma NextBound(h: Mat, k: nat, p: real, l: real)
    requires k >= 1 && 0.0 < p < 1.0 && Expands(Iterate(Start(h), k), p) && l <= NextLevel(p)
    ensures Expands(Iterate(Start(h), k + 1), l)
  {
    hide Expands, Contracts, Step, Climb, NextLevel, Start;
    NeverDiverges(h, k);
    StepExpands(Iterate(Start(h), k), p);
    NextLevelBelowClimb(p);
    ExpandsWeaken(Iterate(Start(h), k + 1), Climb(p), l);
  }

  /** A positive lower bound doubles until it reaches 0.17. */
  lemma {:induction false} Doubles(h: Mat, k: nat, p: real, n: nat) returns (j: nat)
    requires k >= 1 && 0.0 < p < 1.0 && Expands(Iterate(Start(h), k), p) && Exp2(n) as real * p >= 0.17
    ensures j >= 1 && Expands(Iterate(Start(h), j), 0.17)
    decreases n
  {
    hide Expands, Start, Iterate;
    if p >= 0.17 {
      ExpandsWeaken(Iterate(Start(h), k), p, 0.17);
      j := k;
    } else {
      NextBound(h, k, p, 2.0 * p);
      DoubledShare(n, p);
      j := Doubles(h, k + 1, 2.0 * p, n - 1);
    }
  }

  lemma DoubledShare(n: nat, p: real)
    requires 0.0 < p < 0.17 && Exp2(n) as real * p >= 0.17
    ensures n >= 1 && Exp2(n - 1) as real * (2.0 * p) >= 0.17
  {
    if n >= 1 {
      var e := Exp2(n - 1);
      assert Exp2(n) as real == 2.0 * e as real;
      assert 2.0 * e as real * p == e as real * (2.0 * p);
    }
  }

  /** From 0.17 six steps reach 1 - 1e-6. */
  lemma SixSteps(h: Mat, k: nat)
    requires k >= 1 && Expands(Iterate(Start(h), k), 0.17)
    ensures Expands(Iterate(Start(h), k + 6), 0.999999)
  {
    hide Expands, Start, Iterate;
    NextBound(h, k, 0.17, 0.34);
    NextBound(h, k + 1, 0.34, 0.6);
    NextBound(h, k + 2, 0.6, 0.86);
    NextBound(h, k + 3, 0.86, 0.984);
    NextBound(h, k + 4, 0.984, 0.9998);
    NextBound(h, k + 5, 0.9998, 0.999999);
  }

  lemma {:induction false} Exp2Above(n: nat)
    ensures Exp2(n) >= n + 1
  {
    if n > 0 {
      Exp2Above(n - 1);
    }
  }

  /** A number of doublings that carries p to 0.17. */
  lemma EnoughDoublings(p: real) returns (n: nat)
    requires 0.0 < p < 1.0
    ensures Exp2(n) as real * p >= 0.17
  {
    var r := 0.17 / p;
    assert r * p == 0.17;
    assert r > 0.0;
    n := r.Floor;
    Exp2Above(n);
    LinearBound(p, r, Exp2(n) as real);
  }

  /** The first step leaves a positive lower bound. */
  lemma FirstBound(h: Mat) returns (p: real)
    requires Det(h) != 0.0
    ensures 0.0 < p < 1.0 && Expands(Iterate(Start(h), 1), p)
  {
    hide Det, Expands, Contracts, Start, Step, Frobenius;
    var x := Start(h);
    StartBounded(h);
    DeterminantSign(h, 0);
    assert Iterate(x, 0) == x;
    DetExpands(x);
    TimesSquare(Det(x));
    var m := Times(Det(x), Det(x)) / 3.0;
    UpperFromLower(x, m);
    var d := 2.0 * m;
    FirstStepExpands(x, m, d);
    var c := m * d * d / 4.0;
    TimesPositive(m, m);
    TimesPositive(m, Times(m, m));
    CubeOf(m, d);
    p := if c < 0.5 then c else 0.5;
    assert Iterate(x, 1) == Step(x);
    ExpandsWeaken(Step(x), c, p);
  }

  lemma CubeOf(m: real, d: real)
    requires d == 2.0 * m
    ensures m * d * d / 4.0 == Times(m, Times(m, m))
  {
  }

  lemma {:induction false} IterateTwice(x: Mat, k: nat, j: nat)
    ensures Iterate(Iterate(x, k), j) == Iterate(x, k + j)
  {
    hide Step;
    if j > 0 {
      IterateTwice(x, k, j - 1);
    }
  }

  /** (1/2)^n <= 1 / (n + 1) */
  lemma {:induction false} HalvesShrink(n: nat)
    ensures Pow(0.5, n) * (n + 1) as real <= 1.0 && Pow(0.5, n) >= 0.0
  {
    if n > 0 {
      HalvesShrink(n - 1);
      var p := Pow(0.5, n - 1);
      assert Pow(0.5, n) == 0.5 * p;
      assert 0.5 * p * (n + 1) as real <= p * n as real;
    }
  }

  lemma HalvesBelow(e: real) returns (j: nat)
    requires e > 0.0
    ensures Pow(0.5, Exp2(j)) <= e
  {
    var r := 1.0 / e;
    assert r * e == 1.0;
    assert r > 0.0;
    j := r.Floor;
    Exp2Above(j);
    var n := Exp2(j);
    HalvesShrink(n);
    var p := Pow(0.5, n);
    LinearBound(e, r, (n + 1) as real);
    if p > e {
      StrictlyAbove(p, e, (n + 1) as real);
    }
  }

  lemma StrictlyAbove(p: real, e: real, n: real)
    requires p > e && n > 0.0 && e * n >= 1.0
    ensures p * n > 1.0
  {
    TimesPositive(p - e, n);
    TimesRaw(p - e, n);
  }

  /** Every invertible covariance: the residual falls below any e > 0. */
  lemma AlwaysReaches(h: Mat, e: real)
    requires Det(h) != 0.0 && e > 0.0
    ensures Reaches(h, e)
  {
    hide Det, Expands, Contracts, Start, Iterate, Residual, MaxRowSum, EntriesAtMost;
    var p := FirstBound(h);
    var n := EnoughDoublings(p);
    var k := Doubles(h, 1, p, n);
    SixSteps(h, k);
    NeverDiverges(h, k + 6);
    var x := Iterate(Start(h), k + 6);
    ResidualEntries(x, 0.000001);
    SmallEntries(Residual(x));
    var j := HalvesBelow(e);
    QuadraticConvergence(x, 0.5, j);
    IterateTwice(Start(h), k + 6, j);
    assert ResidualSum(h, k + 6 + j) <= e;
  }

  lemma SmallEntries(e: Mat)
    requires EntriesAtMost(e, 0.000001)
    ensures MaxRowSum(e) <= 0.5
  {
    hide MaxRowSum;
    MaxOfThree(e, 0.5);
  }

  // ----- and for no other

  /** A residual row sum below 1 leaves an invertible iterate. */
  lemma SmallResidualInvertible(x: Mat)
    requires MaxRowSum(Residual(x)) < 1.0
    ensures Det(x) != 0.0
  {
    hide Det, Dot, Norm2, Residual, MaxRowSum, Gram, Quad, Symmetric, Times;
    GramSymmetric(x);
    forall v | v != ZERO
      ensures Quad(Gram(x), v) > 0.0
    {
      ResidualSymmetric(x);
      RowSumForm(Residual(x), v);
      ResidualQuad(x, v);
      GramQuad(x, v);
      DotSelf(v);
      var m, n := MaxRowSum(Residual(x)), Dot(v, v);
      TimesRaw(1.0 - m, n);
      TimesPositive(1.0 - m, n);
    }
    PositiveDefiniteDet(Gram(x));
    GramDet(x);
    ZeroTimes(Det(x));
  }

  lemma GramQuad(x: Mat, v: Vec)
    ensures Quad(Gram(x), v) == Norm2(x, v)
  {
    hide Dot, Apply, Gram;
    GramDot(x, v, v);
  }

  /** The loop converges, that is brings I - X^T X below every bound, if and only if the covariance is invertible. */
  lemma ConvergesIff(h: Mat)
    ensures Det(h) != 0.0 <==> forall e :: e > 0.0 ==> Reaches(h, e)
  {
    hide Det, Residual, MaxRowSum, Iterate, Start;
    if Det(h) != 0.0 {
      forall e | e > 0.0
        ensures Reaches(h, e)
      {
        AlwaysReaches(h, e);
      }
    } else if forall e :: e > 0.0 ==> Reaches(h, e) {
      assert Reaches(h, 0.5);
      var k :| ResidualSum(h, k) <= 0.5;
      SmallResidualInvertible(Iterate(Start(h), k));
      DeterminantSign(h, k);
    }
  }
}
