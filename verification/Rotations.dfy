/**
 What every rotation of 3-space satisfies: the four signed trace sums are non-negative, the
 matrix (1 - tr Q) I + Q + Q^T is positive semidefinite, and orthogonal maps do not stretch.
 */
module Rotations {
  import opened LinAlg
  import opened Forms

  /** The scalar facts about a rotation [a b c; d e f; g h i]: unit rows and columns, and R = cof(R). */
  predicate RotationEntries(a: real, b: real, c: real, d: real, e: real, f: real, g: real, h: real, i: real) {
    && a == Times(e, i) - Times(f, h) && b == Times(f, g) - Times(d, i) && c == Times(d, h) - Times(e, g)
    && d == Times(h, c) - Times(i, b) && e == Times(i, a) - Times(g, c) && f == Times(g, b) - Times(h, a)
    && g == Times(b, f) - Times(c, e) && h == Times(c, d) - Times(a, f) && i == Times(a, e) - Times(b, d)
    && Times(a, a) + Times(b, b) + Times(c, c) == 1.0
    && Times(d, d) + Times(e, e) + Times(f, f) == 1.0
    && Times(g, g) + Times(h, h) + Times(i, i) == 1.0
    && Times(a, a) + Times(d, d) + Times(g, g) == 1.0
    && Times(b, b) + Times(e, e) + Times(h, h) == 1.0
    && Times(c, c) + Times(f, f) + Times(i, i) == 1.0
    && Times(b, c) + Times(e, f) + Times(h, i) == 0.0
    && Times(d, g) + Times(e, h) + Times(f, i) == 0.0
    && Times(a, c) + Times(d, f) + Times(g, i) == 0.0
    && Times(a, g) + Times(b, h) + Times(c, i) == 0.0
    && Times(a, b) + Times(d, e) + Times(g, h) == 0.0
    && Times(a, d) + Times(b, e) + Times(c, f) == 0.0
  }

  lemma EntriesOf(r: Mat)
    requires Rotation(r)
    ensures RotationEntries(r.r0.x, r.r0.y, r.r0.z, r.r1.x, r.r1.y, r.r1.z, r.r2.x, r.r2.y, r.r2.z)
  {
    hide Times, Det;
    OrthogonalFacts(r);
    ScaleByOne(r);
  }

  /** Renaming the axes cyclically keeps a rotation a rotation. */
  lemma Cycle(a: real, b: real, c: real, d: real, e: real, f: real, g: real, h: real, i: real)
    requires RotationEntries(a, b, c, d, e, f, g, h, i)
    ensures RotationEntries(e, f, d, h, i, g, b, c, a)
  {
  }

  lemma ScaleByOne(r: Mat)
    ensures MScale(1.0, r) == r
  {
  }

  /** The diagonal of N = (1 - tr Q) I + Q + Q^T and 1 + tr Q, as functions of the diagonal of Q. */
  predicate FourSums(a: real, e: real, i: real) {
    1.0 + a + e + i >= 0.0 && 1.0 + a - e - i >= 0.0 && 1.0 - a + e - i >= 0.0 && 1.0 - a - e + i >= 0.0
  }

  lemma SumProducts(a: real, b: real, c: real, d: real, e: real, f: real, g: real, h: real, i: real)
    requires RotationEntries(a, b, c, d, e, f, g, h, i)
    ensures Times(1.0 + a + e + i, 1.0 + a - e - i) == Times(h - f, h - f)
    ensures Times(1.0 - a + e - i, 1.0 - a - e + i) == Times(f + h, f + h)
  {
    hide RotationEntries;
    RowsAndColumns(a, b, c, d, e, f, g, h, i);
    SumProductsScalar(a, e, f, h, i);
  }

  lemma RowsAndColumns(a: real, b: real, c: real, d: real, e: real, f: real, g: real, h: real, i: real)
    requires RotationEntries(a, b, c, d, e, f, g, h, i)
    ensures Times(e, i) - Times(f, h) == a
    ensures 1.0 + Times(a, a) == Times(e, e) + Times(f, f) + Times(h, h) + Times(i, i)
  {
  }

  lemma SumProductsScalar(a: real, e: real, f: real, h: real, i: real)
    requires Times(e, i) - Times(f, h) == a
    requires 1.0 + Times(a, a) == Times(e, e) + Times(f, f) + Times(h, h) + Times(i, i)
    ensures Times(1.0 + a + e + i, 1.0 + a - e - i) == Times(h - f, h - f)
    ensures Times(1.0 - a + e - i, 1.0 - a - e + i) == Times(f + h, f + h)
  {
    assert Times(1.0 + a + e + i, 1.0 + a - e - i)
        == 1.0 + 2.0 * a + Times(a, a) - Times(e, e) - 2.0 * Times(e, i) - Times(i, i);
    assert Times(1.0 - a + e - i, 1.0 - a - e + i)
        == 1.0 - 2.0 * a + Times(a, a) - Times(e, e) + 2.0 * Times(e, i) - Times(i, i);
    assert Times(h - f, h - f) == Times(h, h) - 2.0 * Times(f, h) + Times(f, f);
    assert Times(f + h, f + h) == Times(h, h) + 2.0 * Times(f, h) + Times(f, f);
  }

  /** The cyclic renamings of the four sums are the same numbers. */
  lemma SumOrders(a: real, e: real, i: real)
    ensures 1.0 + e + i + a == 1.0 + i + a + e == 1.0 + a + e + i
    ensures 1.0 + e - i - a == 1.0 - i - a + e == 1.0 - a + e - i
    ensures 1.0 - e + i - a == 1.0 - a - e + i == 1.0 + i - a - e
    ensures 1.0 - e - i + a == 1.0 - i + a - e == 1.0 + a - e - i
  {
  }

  /** The four sums of a rotation are non-negative: they total 4 and their products are squares. */
  lemma RotationSums(r: Mat)
    requires Rotation(r)
    ensures FourSums(r.r0.x, r.r1.y, r.r2.z)
  {
    hide Times, Rotation;
    EntriesOf(r);
    var Mat(Vec(a, b, c), Vec(d, e, f), Vec(g, h, i)) := r;
    Cycle(a, b, c, d, e, f, g, h, i);
    Cycle(e, f, d, h, i, g, b, c, a);
    SumProducts(a, b, c, d, e, f, g, h, i);
    SumProducts(e, f, d, h, i, g, b, c, a);
    SumProducts(i, g, h, c, a, b, f, d, e);
    SumOrders(a, e, i);
    SquaresTotal(1.0 + a + e + i, 1.0 + a - e - i, 1.0 - a + e - i, 1.0 - a - e + i,
                 h - f, f + h, c - g, g + c, d - b, b + d);
  }

  lemma SquaresTotal(t0: real, t1: real, t2: real, t3: real,
                     p: real, p': real, q: real, q': real, s: real, s': real)
    requires t0 + t1 + t2 + t3 == 4.0
    requires Times(t0, t1) == Times(p, p) && Times(t2, t3) == Times(p', p')
    requires Times(t0, t2) == Times(q, q) && Times(t3, t1) == Times(q', q')
    requires Times(t0, t3) == Times(s, s) && Times(t1, t2) == Times(s', s')
    ensures t0 >= 0.0 && t1 >= 0.0 && t2 >= 0.0 && t3 >= 0.0
  {
    hide Times;
    TimesSquare(p); TimesSquare(p'); TimesSquare(q); TimesSquare(q'); TimesSquare(s); TimesSquare(s');
    SameSign(t0, t1); SameSign(t2, t3); SameSign(t0, t2); SameSign(t3, t1); SameSign(t0, t3); SameSign(t1, t2);
  }

  lemma SameSign(a: real, b: real)
    requires Times(a, b) >= 0.0
    ensures a < 0.0 ==> b <= 0.0
    ensures b < 0.0 ==> a <= 0.0
  {
    assert Times(-a, b) == -Times(a, b) && Times(a, -b) == -Times(a, b);
    if a < 0.0 && b > 0.0 {
      TimesPositive(-a, b);
    } else if b < 0.0 && a > 0.0 {
      TimesPositive(a, -b);
    }
  }

  // ----- the psd matrix of a rotation

  /** N = (1 - tr Q) I + Q + Q^T as a quadratic form. */
  function Turn(q: Mat, x: Vec): real {
    (1.0 - Trace(q)) * Dot(x, x) + 2.0 * Quad(q, x)
  }

  lemma CrossTerms(a: real, b: real, c: real, d: real, e: real, f: real, g: real, h: real, i: real)
    requires RotationEntries(a, b, c, d, e, f, g, h, i)
    ensures Times(1.0 + a - e - i, f + h) == Times(b + d, c + g)
  {
    assert Times(b + d, c + g) == Times(b, c) + Times(g, b) + Times(c, d) + Times(d, g);
    assert Times(1.0 + a - e - i, f + h)
        == f + h + Times(a, f) + Times(h, a) - Times(e, f) - Times(e, h) - Times(f, i) - Times(h, i);
  }

  /** The quadratic form with diagonal t1, t2, t3 and off-diagonal p, q, r. */
  function Form(t1: real, t2: real, t3: real, p: real, q: real, r: real, x: real, y: real, z: real): real {
    t1 * (x * x) + t2 * (y * y) + t3 * (z * z) + 2.0 * p * (x * y) + 2.0 * q * (x * z) + 2.0 * r * (y * z)
  }

  lemma FormCycle(t1: real, t2: real, t3: real, p: real, q: real, r: real, x: real, y: real, z: real)
    ensures Form(t1, t2, t3, p, q, r, x, y, z) == Form(t2, t3, t1, r, p, q, y, z, x)
  {
  }

  /** t1 * N(x) is a square, so N(x) >= 0 wherever t1 > 0. */
  lemma TurnTimes(t1: real, t2: real, t3: real, p: real, q: real, r: real, x: real, y: real, z: real, n: real)
    requires Times(t1, t2) == Times(p, p) && Times(t1, t3) == Times(q, q) && Times(t1, r) == Times(p, q)
    requires n == Form(t1, t2, t3, p, q, r, x, y, z)
    ensures Times(t1, n) == Times(t1 * x + p * y + q * z, t1 * x + p * y + q * z)
  {
    assert t1 * n == (t1 * t1) * (x * x) + (t1 * t2) * (y * y) + (t1 * t3) * (z * z)
                     + 2.0 * (t1 * p) * (x * y) + 2.0 * (t1 * q) * (x * z) + 2.0 * (t1 * r) * (y * z);
    assert (t1 * t2) * (y * y) == (p * p) * (y * y);
    assert (t1 * t3) * (z * z) == (q * q) * (z * z);
    assert (t1 * r) * (y * z) == (p * q) * (y * z);
  }

  lemma TurnNonNegativeAt(t1: real, t2: real, t3: real, p: real, q: real, r: real, x: real, y: real, z: real, n: real)
    requires Times(t1, t2) == Times(p, p) && Times(t1, t3) == Times(q, q) && Times(t1, r) == Times(p, q)
    requires n == Form(t1, t2, t3, p, q, r, x, y, z)
    requires t1 > 0.0
    ensures n >= 0.0
  {
    hide Times;
    TurnTimes(t1, t2, t3, p, q, r, x, y, z, n);
    TimesSquare(t1 * x + p * y + q * z);
    SameSign(t1, n);
  }

  /** (1 - tr Q)|x|^2 + 2 <x, Qx> >= 0 for every rotation Q. */
  lemma TurnNonNegative(m: Mat, x: Vec)
    requires Rotation(m)
    ensures Turn(m, x) >= 0.0
  {
    RotationSums(m);
    EntriesOf(m);
    TurnExpanded(m, x);
    var Mat(Vec(a, b, c), Vec(d, e, f), Vec(g, h, i)) := m;
    hide Times, RotationEntries, Turn, Rotation, Form;
    var t1, t2, t3 := 1.0 + a - e - i, 1.0 - a + e - i, 1.0 - a - e + i;
    var p, q, r := b + d, c + g, f + h;
    var n := Turn(m, x);
    Cycle(a, b, c, d, e, f, g, h, i);
    Cycle(e, f, d, h, i, g, b, c, a);
    SumProducts(a, b, c, d, e, f, g, h, i);
    SumProducts(e, f, d, h, i, g, b, c, a);
    SumProducts(i, g, h, c, a, b, f, d, e);
    SumOrders(a, e, i);
    CrossTerms(a, b, c, d, e, f, g, h, i);
    CrossTerms(e, f, d, h, i, g, b, c, a);
    CrossTerms(i, g, h, c, a, b, f, d, e);
    TimesComm(t1, t2); TimesComm(t1, t3); TimesComm(t2, t3); TimesComm(p, q); TimesComm(p, r); TimesComm(q, r);
    FormCycle(t1, t2, t3, p, q, r, x.x, x.y, x.z);
    FormCycle(t2, t3, t1, r, p, q, x.y, x.z, x.x);
    if t1 > 0.0 {
      TurnNonNegativeAt(t1, t2, t3, p, q, r, x.x, x.y, x.z, n);
    } else if t2 > 0.0 {
      TurnNonNegativeAt(t2, t3, t1, r, p, q, x.y, x.z, x.x, n);
    } else if t3 > 0.0 {
      TurnNonNegativeAt(t3, t1, t2, q, r, p, x.z, x.x, x.y, n);
    } else {
      AllZero(p, q, r, t1, t2, t3, x.x, x.y, x.z, n);
    }
  }

  lemma AllZero(p: real, q: real, r: real, t1: real, t2: real, t3: real, x: real, y: real, z: real, n: real)
    requires t1 == 0.0 && t2 == 0.0 && t3 == 0.0
    requires Times(t1, t2) == Times(p, p) && Times(t1, t3) == Times(q, q) && Times(t2, t3) == Times(r, r)
    requires n == Form(t1, t2, t3, p, q, r, x, y, z)
    ensures n >= 0.0
  {
    assert Times(t1, t2) == 0.0 && Times(t1, t3) == 0.0 && Times(t2, t3) == 0.0;
    assert p == 0.0 && q == 0.0 && r == 0.0 by {
      hide Times;
      TimesSquare(p); TimesSquare(q); TimesSquare(r);
    }
  }

  lemma TurnExpanded(m: Mat, x: Vec)
    ensures Turn(m, x) == Form(1.0 + m.r0.x - m.r1.y - m.r2.z, 1.0 - m.r0.x + m.r1.y - m.r2.z,
                               1.0 - m.r0.x - m.r1.y + m.r2.z, m.r0.y + m.r1.x, m.r0.z + m.r2.x, m.r1.z + m.r2.y,
                               x.x, x.y, x.z)
  {
    hide Form, Times;
    var y := Apply(m, x);
    var Mat(Vec(a, b, c), Vec(d, e, f), Vec(g, h, i)) := m;
    TimesRaw(1.0 - Trace(m), Dot(x, x));
    TurnScalar(a, b, c, d, e, f, g, h, i, x.x, x.y, x.z, Dot(x, x), y.x, y.y, y.z, Quad(m, x), Turn(m, x));
  }

  lemma TurnScalar(a: real, b: real, c: real, d: real, e: real, f: real, g: real, h: real, i: real,
                   x: real, y: real, z: real, n: real, u: real, v: real, w: real, q: real, t: real)
    requires n == Times(x, x) + Times(y, y) + Times(z, z)
    requires u == Times(a, x) + Times(b, y) + Times(c, z) && v == Times(d, x) + Times(e, y) + Times(f, z)
    requires w == Times(g, x) + Times(h, y) + Times(i, z)
    requires q == Times(x, u) + Times(y, v) + Times(z, w) && t == Times(1.0 - (a + e + i), n) + 2.0 * q
    ensures t == Form(1.0 + a - e - i, 1.0 - a + e - i, 1.0 - a - e + i, b + d, c + g, f + h, x, y, z)
  {
    assert x * u == a * (x * x) + b * (x * y) + c * (x * z);
    assert y * v == d * (x * y) + e * (y * y) + f * (y * z);
    assert z * w == g * (x * z) + h * (y * z) + i * (z * z);
    assert (1.0 - (a + e + i)) * n
      == (1.0 - (a + e + i)) * (x * x) + (1.0 - (a + e + i)) * (y * y) + (1.0 - (a + e + i)) * (z * z);
  }

  // ----- orthogonal maps

  lemma OrthogonalQuad(w: Mat, v: Vec)
    requires Orthogonal(w)
    ensures Quad(w, v) <= Dot(v, v)
  {
    hide Dot, Apply, VSub, Orthogonal;
    var u := Apply(w, v);
    OrthogonalDot(w, v, v);
    DotSelf(VSub(u, v));
    DotSub(VSub(u, v), u, v);
    DotSub(u, u, v);
    DotSub(v, u, v);
    DotComm(u, v);
  }

  /** The negative of an orthogonal matrix: determinant and trace change sign. */
  lemma Negate(w: Mat)
    requires Orthogonal(w)
    ensures Orthogonal(MScale(-1.0, w)) && Det(MScale(-1.0, w)) == -Det(w) && Trace(MScale(-1.0, w)) == -Trace(w)
  {
    hide Mul, Det, Transpose, MScale;
    DetScale(-1.0, w);
    TransposeScale(-1.0, w);
    MulScale(Transpose(w), -1.0, w);
    MulScale(MScale(-1.0, Transpose(w)), -1.0, w);
    NegateTwice(w);
    NegateTrace(w);
  }

  lemma NegateTrace(w: Mat)
    ensures Trace(MScale(-1.0, w)) == -Trace(w)
  {
  }

  lemma NegateTwice(w: Mat)
    ensures MScale(-1.0, MScale(-1.0, ID)) == ID
  {
  }

  /** An improper orthogonal matrix has trace at most 1. */
  lemma ImproperTrace(w: Mat)
    requires Orthogonal(w) && Det(w) == -1.0
    ensures Trace(w) <= 1.0
  {
    hide Mul, Det, MScale;
    Negate(w);
    RotationSums(MScale(-1.0, w));
  }
}
