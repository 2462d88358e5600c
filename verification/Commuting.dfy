/**
 The product of two commuting positive semidefinite matrices is positive semidefinite.
 The proof damps one factor, B -> B - B^2, which costs a non-negative term at each step,
 until what is left is smaller than any given bound.
 */
module Commuting {
  import opened LinAlg
  import opened Forms

  ghost predicate AtMost(m: Mat, c: real) {
    forall v :: Quad(m, v) <= c * Dot(v, v)
  }

  predicate Commute(a: Mat, b: Mat) {
    Mul(a, b) == Mul(b, a)
  }

  /** B (cI - B) is non-negative for 0 <= B <= cI, so |Bx|^2 <= c <x, Bx>. */
  lemma SquareBelow(b: Mat, c: real, x: Vec)
    requires Psd(b) && AtMost(b, c) && c > 0.0
    ensures Dot(Apply(b, x), Apply(b, x)) <= c * Quad(b, x)
  {
    hide Dot, Apply, VAdd, VScale, Symmetric;
    var y := Apply(b, x);
    QuadLine(b, y, -c, x);
    assert Quad(b, VAdd(y, VScale(-c, x))) >= 0.0;
    assert Quad(b, y) <= c * Dot(y, y);
    SquareBelowScalar(c, Quad(b, x), Dot(y, y), Quad(b, y), Quad(b, VAdd(y, VScale(-c, x))));
  }

  lemma SquareBelowScalar(c: real, m1: real, m2: real, m3: real, q: real)
    requires c > 0.0 && q >= 0.0 && m3 <= c * m2
    requires q == m3 + 2.0 * (-c) * m2 + (-c) * (-c) * m1
    ensures m2 <= c * m1
  {
    var d := c * m1 - m2;
    assert (-c) * (-c) * m1 == c * (c * m1);
    assert c * d == c * (c * m1) - c * m2;
    if d < 0.0 {
      NegativeProduct(c, d);
    }
  }

  lemma NegativeProduct(c: real, d: real)
    requires c > 0.0 && d < 0.0
    ensures c * d < 0.0
  {
  }

  function Damp(b: Mat): Mat {
    MSub(b, Mul(b, b))
  }

  lemma DampQuad(b: Mat, x: Vec)
    requires Symmetric(b)
    ensures Quad(Damp(b), x) == Quad(b, x) - Dot(Apply(b, x), Apply(b, x))
  {
    hide Dot, Apply, Symmetric, MSub, VSub;
    SubApply(b, Mul(b, b), x);
    ApplyMul(b, b, x);
    DotSub(x, Apply(b, x), Apply(b, Apply(b, x)));
    SymmetricDot(b, x, Apply(b, x));
  }

  lemma DampSymmetric(b: Mat)
    requires Symmetric(b)
    ensures Symmetric(Damp(b))
  {
    hide Transpose, Mul, MSub;
    TransposeMul(b, b);
    SubSymmetric(b, Mul(b, b));
  }

  lemma DampCommutes(a: Mat, b: Mat)
    requires Commute(a, b)
    ensures Commute(a, Damp(b))
  {
    hide Mul, MSub;
    var bb := Mul(b, b);
    MulSub(a, b, bb);
    MulAssoc(a, b, b);
    MulAssoc(b, a, b);
    MulAssoc(b, b, a);
  }

  lemma MulSub(a: Mat, b: Mat, c: Mat)
    ensures Mul(a, MSub(b, c)) == MSub(Mul(a, b), Mul(a, c))
    ensures Mul(MSub(b, c), a) == MSub(Mul(b, a), Mul(c, a))
  {
    hide Dot, Apply;
    var tb, tc := Transpose(b), Transpose(c);
    assert Transpose(MSub(b, c)) == MSub(tb, tc);
    SubApply(tb, tc, a.r0); SubApply(tb, tc, a.r1); SubApply(tb, tc, a.r2);
    var ta := Transpose(a);
    ApplySub(ta, b.r0, c.r0); ApplySub(ta, b.r1, c.r1); ApplySub(ta, b.r2, c.r2);
  }

  lemma MulAdd(a: Mat, b: Mat, c: Mat)
    ensures Mul(a, MAdd(b, c)) == MAdd(Mul(a, b), Mul(a, c))
    ensures Mul(MAdd(b, c), a) == MAdd(Mul(b, a), Mul(c, a))
  {
    hide Dot, Apply;
    var tb, tc := Transpose(b), Transpose(c);
    assert Transpose(MAdd(b, c)) == MAdd(tb, tc);
    AddApply(tb, tc, a.r0); AddApply(tb, tc, a.r1); AddApply(tb, tc, a.r2);
    var ta := Transpose(a);
    ApplyAdd(ta, b.r0, c.r0); ApplyAdd(ta, b.r1, c.r1); ApplyAdd(ta, b.r2, c.r2);
  }

  /** 0 <= B <= I/k becomes 0 <= B - B^2 <= I/(k+1). */
  lemma DampBounds(b: Mat, k: nat)
    requires k >= 2 && Psd(b) && AtMost(b, 1.0 / k as real)
    ensures Psd(Damp(b)) && AtMost(Damp(b), 1.0 / (k + 1) as real)
  {
    hide Dot, Quad, Symmetric, Damp;
    DampSymmetric(b);
    forall v
      ensures 0.0 <= Quad(Damp(b), v) <= 1.0 / (k + 1) as real * Dot(v, v)
    {
      DampBoundsAt(b, k, v);
    }
  }

  lemma DampBoundsAt(b: Mat, k: nat, v: Vec)
    requires k >= 2 && Psd(b) && AtMost(b, 1.0 / k as real)
    ensures 0.0 <= Quad(Damp(b), v) <= 1.0 / (k + 1) as real * Dot(v, v)
  {
    hide Dot, Apply, VAdd, VScale, Damp, Psd, AtMost;
    var c, d := 1.0 / k as real, 1.0 / (k + 1) as real;
    var y := Apply(b, v);
    PsdSymmetric(b);
    DampQuad(b, v);
    BelowTwice(b, c, v);
    PsdAt(b, v);
    var w := VAdd(y, VScale(-c, v));
    DotSelf(w);
    DotSelf(v);
    NormLine(y, -c, v);
    DotComm(y, v);
    hide Quad;
    DampScalar(k, c, d, Dot(v, v), Quad(b, v), Dot(y, y), Dot(w, w));
  }

  lemma NormLine(u: Vec, t: real, e: Vec)
    ensures Dot(VAdd(u, VScale(t, e)), VAdd(u, VScale(t, e))) == Dot(u, u) + 2.0 * t * Dot(u, e) + t * t * Dot(e, e)
  {
    hide Dot, VAdd, VScale;
    var w := VScale(t, e);
    DotAdd(VAdd(u, w), u, w);
    DotAdd(u, u, w);
    DotAdd(w, u, w);
    DotScale(u, t, e);
    DotScale(e, t, u);
    DotScale(w, t, e);
    DotScale(e, t, e);
    DotComm(u, e);
  }

  lemma DampScalar(k: nat, c: real, d: real, m0: real, m1: real, m2: real, w: real)
    requires k >= 2 && c == 1.0 / k as real && d == 1.0 / (k + 1) as real
    requires m0 >= 0.0 && 0.0 <= m1 <= c * m0 && m2 <= c * m1
    requires w >= 0.0 && w == m2 + 2.0 * (-c) * m1 + (-c) * (-c) * m0
    ensures 0.0 <= m1 - m2 <= d * m0
  {
    assert 0.0 < c <= 0.5 && d >= c - c * c by { Reciprocals(k, c, d); }
    Shrink(c, m1);
    var e := c * m0 - m1;
    assert (1.0 - 2.0 * c) * e >= 0.0;
    assert (1.0 - 2.0 * c) * e == c * m0 - m1 - 2.0 * (c * (c * m0)) + 2.0 * (c * m1);
    assert (-c) * (-c) * m0 == c * (c * m0);
    assert (d - c + c * c) * m0 >= 0.0;
    assert (d - c + c * c) * m0 == d * m0 - c * m0 + c * (c * m0);
  }

  lemma Reciprocals(k: nat, c: real, d: real)
    requires k >= 2 && c == 1.0 / k as real && d == 1.0 / (k + 1) as real
    ensures 0.0 < c <= 0.5 && d >= c - c * c
  {
    var r := k as real;
    var cc := c * c;
    assert c * r == 1.0;
    assert cc * r == c * (c * r) == c;
    assert d * (r + 1.0) == 1.0;
    var e := d - (c - cc);
    assert e * (r + 1.0) == d * (r + 1.0) - c * r - c + cc * r + cc == cc;
    if e < 0.0 {
      NegativeProduct(r + 1.0, e);
    }
  }

  /** Quad(AB) = Quad(A) at Bx + Quad(A (B - B^2)). */
  lemma DampSplit(a: Mat, b: Mat, x: Vec)
    requires Symmetric(a) && Symmetric(b) && Commute(a, b)
    ensures Quad(Mul(a, b), x) == Quad(a, Apply(b, x)) + Quad(Mul(a, Damp(b)), x)
  {
    hide Dot, Apply, Symmetric, Mul, MSub, VSub;
    var y := Apply(b, x);
    var bb := Mul(b, b);
    MulSub(a, b, bb);
    SubApply(Mul(a, b), Mul(a, bb), x);
    DotSub(x, Apply(Mul(a, b), x), Apply(Mul(a, bb), x));
    MulAssoc(a, b, b);
    ApplyMul(Mul(a, b), b, x);
    ApplyMul(b, a, y);
    SymmetricDot(b, x, Apply(a, y));
  }

  lemma CommutingBound(a: Mat, b: Mat, k: nat, n: nat, x: Vec)
    requires Psd(a) && Psd(b) && Commute(a, b)
    requires k >= 2 && AtMost(b, 1.0 / k as real)
    ensures Quad(Mul(a, b), x) >= -(Dot(Apply(a, x), Apply(a, x)) + Dot(x, x)) / (k + n) as real
    decreases n
  {
    hide Dot, Apply, Mul, Damp;
    if n == 0 {
      CommutingBase(a, b, k, x);
    } else {
      DampBounds(b, k);
      DampCommutes(a, b);
      CommutingBound(a, Damp(b), k + 1, n - 1, x);
      DampSplit(a, b, x);
      assert Quad(a, Apply(b, x)) >= 0.0;
    }
  }

  lemma CommutingBase(a: Mat, b: Mat, k: nat, x: Vec)
    requires Psd(a) && Psd(b) && k >= 2 && AtMost(b, 1.0 / k as real)
    ensures Quad(Mul(a, b), x) >= -(Dot(Apply(a, x), Apply(a, x)) + Dot(x, x)) / k as real
  {
    hide Dot, Apply, Mul, VAdd, VScale, Psd, AtMost, Quad;
    var c := 1.0 / k as real;
    var p, q := Apply(a, x), Apply(b, x);
    BelowTwice(b, c, x);
    ProductQuad(a, b, x);
    var w := VAdd(q, VScale(c, p));
    DotSelf(w);
    DotSelf(p);
    DotSelf(x);
    NormLine(q, c, p);
    BaseScalar(k, c, Dot(q, p), Dot(p, p), Dot(x, x), Quad(b, x), Dot(q, q), Dot(w, w));
  }

  lemma ProductQuad(a: Mat, b: Mat, x: Vec)
    requires Psd(a)
    ensures Quad(Mul(a, b), x) == Dot(Apply(b, x), Apply(a, x))
  {
    hide Dot, Apply, Mul, Symmetric;
    ApplyMul(a, b, x);
    SymmetricDot(a, x, Apply(b, x));
    DotComm(Apply(b, x), Apply(a, x));
  }

  lemma BelowTwice(b: Mat, c: real, x: Vec)
    requires Psd(b) && AtMost(b, c) && c > 0.0
    ensures Quad(b, x) <= c * Dot(x, x) && Dot(Apply(b, x), Apply(b, x)) <= c * Quad(b, x)
  {
    hide Dot, Apply, Quad, Psd;
    SquareBelow(b, c, x);
  }

  lemma BaseScalar(k: nat, c: real, pq: real, pp: real, m0: real, m1: real, m2: real, w: real)
    requires k >= 2 && c == 1.0 / k as real && pp >= 0.0 && m0 >= 0.0
    requires m1 <= c * m0 && m2 <= c * m1 && w >= 0.0 && w == m2 + 2.0 * c * pq + c * c * pp
    ensures pq >= -(pp + m0) / k as real
  {
    assert -(pp + m0) / k as real == -(c * (pp + m0));
    LinearBound(c, m1, c * m0);
    assert c * (c * m0 + 2.0 * pq + c * pp) == c * (c * m0) + 2.0 * c * pq + c * c * pp;
    var e := c * m0 + 2.0 * pq + c * pp;
    if e < 0.0 {
      NegativeProduct(c, e);
    }
    assert c * pp >= 0.0 && c * m0 >= 0.0;
    assert c * (pp + m0) == c * pp + c * m0;
  }

  /** For q < 0 <= k some denominator makes -k/n larger than q. */
  lemma Archimedes(q: real, k: real) returns (n: nat)
    requires q < 0.0 <= k
    ensures q < -k / (2 + n) as real
  {
    var r := k / -q;
    assert r * -q == k;
    assert r >= 0.0 by { if r < 0.0 { NegativeProduct(-q, r); } }
    n := r.Floor + 1;
    Clear(q, k, r, (2 + n) as real);
  }

  lemma Clear(q: real, k: real, r: real, m: real)
    requires q < 0.0 && r * -q == k && m > r >= 0.0
    ensures q < -k / m
  {
    assert (-k / m) * m == -k;
    var e := q - -k / m;
    assert e * m == q * m + k == q * (m - r);
    if e >= 0.0 {
      assert e * m >= 0.0;
      NegativeProduct(m - r, q);
    }
  }

  lemma CommutingSmall(a: Mat, c: Mat, x: Vec)
    requires Psd(a) && Psd(c) && Commute(a, c) && AtMost(c, 1.0 / 2 as real)
    ensures Quad(Mul(a, c), x) >= 0.0
  {
    hide *;
    var k := Dot(Apply(a, x), Apply(a, x)) + Dot(x, x);
    DotSelf(x);
    DotSelf(Apply(a, x));
    var q := Quad(Mul(a, c), x);
    if q < 0.0 {
      var n := Archimedes(q, k);
      CommutingBound(a, c, 2, n, x);
    }
  }

  lemma CommutingPsd(a: Mat, b: Mat)
    requires Psd(a) && Psd(b) && Commute(a, b)
    ensures Psd(Mul(a, b))
  {
    hide Mul, Quad, Trace, MScale, AtMost, Transpose;
    TraceNonNegative(b);
    var s := 1.0 / (2.0 * (Trace(b) + 1.0));
    var c := MScale(s, b);
    ScaledPsd(b, s);
    ScaledBound(b, s);
    MulScale(a, s, b);
    MulScale(b, s, a);
    forall x
      ensures Quad(Mul(a, b), x) >= 0.0
    {
      CommutingSmall(a, c, x);
      ScaleQuad(s, Mul(a, b), x);
      if Quad(Mul(a, b), x) < 0.0 {
        NegativeProduct(s, Quad(Mul(a, b), x));
      }
    }
    TransposeMul(a, b);
  }

  lemma TraceNonNegative(b: Mat)
    requires Psd(b)
    ensures Trace(b) >= 0.0
  {
    assert Quad(b, E0) == b.r0.x;
    assert Quad(b, E1) == b.r1.y;
    assert Quad(b, E2) == b.r2.z;
  }

  lemma ScaleQuad(s: real, m: Mat, x: Vec)
    ensures Quad(MScale(s, m), x) == s * Quad(m, x)
  {
    hide Dot, Apply, MScale;
    ScaleApply(s, m, x);
    DotScale(x, s, Apply(m, x));
  }

  lemma ScaledPsd(b: Mat, s: real)
    requires Psd(b) && s >= 0.0
    ensures Psd(MScale(s, b))
  {
    TransposeScale(s, b);
    forall x
      ensures Quad(MScale(s, b), x) >= 0.0
    {
      ScaleQuad(s, b, x);
      NonNegativeAt(b, s, x);
    }
  }

  lemma ScaledBound(b: Mat, s: real)
    requires Psd(b) && Trace(b) >= 0.0 && s == 1.0 / (2.0 * (Trace(b) + 1.0))
    ensures AtMost(MScale(s, b), 1.0 / 2 as real)
  {
    hide Dot, Trace, Quad, MScale, Psd;
    forall x
      ensures Quad(MScale(s, b), x) <= 1.0 / 2 as real * Dot(x, x)
    {
      ScaleQuad(s, b, x);
      TraceDominates(b, x);
      DotSelf(x);
      ScaledScalar(s, Trace(b), Dot(x, x), Quad(b, x));
    }
  }

  lemma ScaledScalar(s: real, t: real, n: real, q: real)
    requires t >= 0.0 && n >= 0.0 && q <= t * n && s == 1.0 / (2.0 * (t + 1.0))
    ensures s * q <= 0.5 * n
  {
    assert s * (t + 1.0) == 0.5;
    LinearBound(s, q, t * n);
    assert s * (t * n) == (s * (t + 1.0)) * n - s * n;
    assert s * n >= 0.0;
  }
}
