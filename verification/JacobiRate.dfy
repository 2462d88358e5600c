/**
 How fast the sweeps of `sinew_jacobi9` (src/gen/sinew_align.c:181-209) diagonalise. Every rotation moves the smaller
 eigenvalue of its plane to the front, so the gap between the last and the first diagonal entry never shrinks; once it
 dominates the off-diagonal entries, each sweep squares them.
 */
module JacobiRate {
  import opened LinAlg
  import opened Forms
  import opened NewtonSchulz
  import opened Convergence
  import opened MathLibrary
  import opened Jacobi

  // ----- one rotation

  /** D = cos(2 phi) d + 2 sin(2 phi) p, the new gap: D >= 0 and D^2 = d^2 + 4 p^2. */
  lemma NewGap(c: real, s: real, p: real, d: real, n: real)
    requires Times(c, c) + Times(s, s) == 1.0 && Times(Times(c, c) - Times(s, s), p) == Times(Times(c, s), d)
    requires n == Times(Times(c, c) - Times(s, s), d) + 4.0 * Times(Times(c, s), p) && n >= 0.0
    ensures n >= d && n >= -d
    ensures d > 0.0 ==> Times(Times(s, s), Times(d, d)) <= 2.0 * Times(p, p)
  {
    var k, l := Times(c, c) - Times(s, s), 2.0 * Times(c, s);
    DoubleAngle(c, s);
    assert Times(Times(c, s), p) == 0.5 * Times(l, p) && Times(Times(c, s), d) == 0.5 * Times(l, d);
    GapSquare(k, l, p, d, n);
    TimesSquare(p);
    hide Times;
    SquareOrder(d, n);
    if d > 0.0 {
      SmallSine(c, s, k, l, p, d, n);
    }
  }

  lemma DoubleAngle(c: real, s: real)
    requires Times(c, c) + Times(s, s) == 1.0
    ensures var k, l := Times(c, c) - Times(s, s), 2.0 * Times(c, s); Times(k, k) + Times(l, l) == 1.0
  {
    var u, w := Times(c, c), Times(s, s);
    assert Times(Times(c, s), Times(c, s)) == Times(u, w);
    assert Times(u - w, u - w) + 4.0 * Times(u, w) == Times(u + w, u + w);
    assert Times(2.0 * Times(c, s), 2.0 * Times(c, s)) == 4.0 * Times(Times(c, s), Times(c, s));
  }

  /** With 2 p k = d l and k^2 + l^2 = 1. */
  lemma GapSquare(k: real, l: real, p: real, d: real, n: real)
    requires Times(k, k) + Times(l, l) == 1.0 && 2.0 * Times(k, p) == Times(l, d)
    requires n == Times(k, d) + 2.0 * Times(l, p)
    ensures Times(n, n) == Times(d, d) + 4.0 * Times(p, p)
    ensures Times(k, Times(n, n)) == Times(d, n)
  {
    GapIdentity(k, l, p, d);
    var e, one, q := 2.0 * (k * p) - l * d, k * k + l * l, d * d + 4.0 * (p * p);
    assert e == 0.0 && one == 1.0;
    GapFold(e, one, q, n, k, p, Times(n, n), Times(d, n));
  }

  lemma GapIdentity(k: real, l: real, p: real, d: real)
    ensures (k * d + 2.0 * (l * p)) * (k * d + 2.0 * (l * p)) + (2.0 * (k * p) - l * d) * (2.0 * (k * p) - l * d)
         == (k * k + l * l) * (d * d + 4.0 * (p * p))
    ensures d * (k * d + 2.0 * (l * p)) == k * (d * d + 4.0 * (p * p)) - 2.0 * p * (2.0 * (k * p) - l * d)
  {
  }

  lemma GapFold(e: real, one: real, q: real, n: real, k: real, p: real, nn: real, dn: real)
    requires e == 0.0 && one == 1.0 && nn + e * e == one * q && dn == k * q - 2.0 * p * e
    ensures nn == q && dn == Times(k, nn)
  {
  }

  lemma SmallSine(c: real, s: real, k: real, l: real, p: real, d: real, n: real)
    requires Times(c, c) + Times(s, s) == 1.0 && k == Times(c, c) - Times(s, s) && l == 2.0 * Times(c, s)
    requires Times(k, k) + Times(l, l) == 1.0 && 2.0 * Times(k, p) == Times(l, d)
    requires Times(k, Times(n, n)) == Times(d, n) && d > 0.0 && n >= d
    ensures Times(Times(s, s), Times(d, d)) <= 2.0 * Times(p, p)
  {
    var u, w, dd, pp := Times(c, c), Times(s, s), Times(d, d), Times(p, p);
    PositiveCosine(k, d, n);
    TimesSquare(s);
    TimesSquare(d);
    TimesSquare(l);
    TimesSquare(p);
    // (l d)^2 = 4 c^2 s^2 d^2 = 4 k^2 p^2 <= 4 p^2, and c^2 >= 1/2
    FourProducts(c, s, d, l);
    FourProducts(k, p, 1.0, 2.0 * Times(k, p));
    SmallSineScalar(u, w, dd, pp, Times(k, k), Times(Times(l, d), Times(l, d)));
  }

  lemma FourProducts(c: real, s: real, d: real, l: real)
    requires l == 2.0 * Times(c, s)
    ensures Times(Times(l, d), Times(l, d)) == 4.0 * Times(Times(c, c), Times(Times(s, s), Times(d, d)))
  {
    SquareOfTimes(l, d);
    SquareOfTimes(c, s);
    assert Times(l, l) == 4.0 * Times(Times(c, s), Times(c, s));
    TimesAssoc(Times(c, c), Times(s, s), Times(d, d));
    assert Times(4.0 * Times(Times(c, c), Times(s, s)), Times(d, d))
        == 4.0 * Times(Times(Times(c, c), Times(s, s)), Times(d, d));
  }

  lemma SmallSineScalar(u: real, w: real, dd: real, pp: real, kk: real, q: real)
    requires u + w == 1.0 && u >= w >= 0.0 && dd >= 0.0 && pp >= 0.0 && kk <= 1.0
    requires q == 4.0 * Times(u, Times(w, dd)) && q == 4.0 * Times(kk, pp)
    ensures Times(w, dd) <= 2.0 * pp
  {
    TimesNonNegative(1.0 - kk, pp);
    assert Times(1.0 - kk, pp) == pp - Times(kk, pp);
    var e := Times(w, dd);
    TimesNonNegative(w, dd);
    hide Times;
    TimesNonNegative(u - 0.5, e);
    HalfOff(u, e);
  }

  lemma HalfOff(u: real, e: real)
    ensures Times(u - 0.5, e) == Times(u, e) - 0.5 * e
  {
  }

  lemma PositiveCosine(k: real, d: real, n: real)
    requires Times(k, Times(n, n)) == Times(d, n) && d > 0.0 && n >= d
    ensures k > 0.0
  {
    TimesPositive(d, n);
    TimesPositive(n, n);
    ZeroTimes(Times(n, n));
    if k < 0.0 {
      assert Times(-k, Times(n, n)) == -Times(k, Times(n, n));
      TimesPositive(-k, Times(n, n));
    }
  }

  /** The diagonal entries of the plane after the rotation. */
  lemma RotatedPair(c: real, s: real, x: real, p: real, y: real)
    requires Times(c, c) + Times(s, s) == 1.0
    ensures var f := Times(c, Times(c, x) - Times(s, p)) - Times(s, Times(c, p) - Times(s, y));
            var g := Times(s, Times(s, x) + Times(c, p)) + Times(c, Times(s, p) + Times(c, y));
            f + g == x + y && g - f == Times(Times(c, c) - Times(s, s), y - x) + 4.0 * Times(Times(c, s), p)
  {
    PairIdentity(c, s, x, p, y);
    var one := c * c + s * s;
    assert one == 1.0;
    OneFold(one, x + y);
  }

  lemma PairIdentity(c: real, s: real, x: real, p: real, y: real)
    ensures c * (c * x - s * p) - s * (c * p - s * y) + (s * (s * x + c * p) + c * (s * p + c * y))
         == (c * c + s * s) * (x + y)
    ensures s * (s * x + c * p) + c * (s * p + c * y) - (c * (c * x - s * p) - s * (c * p - s * y))
         == (c * c - s * s) * (y - x) + 4.0 * (c * s * p)
  {
  }

  lemma OneFold(one: real, t: real)
    requires one == 1.0
    ensures one * t == t
  {
  }

  /** x after a rotation of (x, z): its square is at most 2 x^2 + 2 s^2 z^2. */
  lemma RotatedSquare(c: real, s: real, x: real, z: real)
    requires Times(c, c) + Times(s, s) == 1.0
    ensures var t := Times(c, x) - Times(s, z);
            Times(t, t) <= 2.0 * Times(x, x) + 2.0 * Times(Times(s, s), Times(z, z))
  {
    var a, b := Times(c, x), Times(s, z);
    SumAndDifference(a, b);
    TimesSquare(a + b);
    TimesSquare(x);
    TimesSquare(s);
    SquareOfTimes(c, x);
    SquareOfTimes(s, z);
    hide Times;
    TimesAdd(Times(x, x), Times(c, c), Times(s, s));
    TimesOne(Times(x, x));
    TimesComm(Times(x, x), Times(c, c));
    TimesComm(Times(x, x), Times(s, s));
    TimesNonNegative(Times(s, s), Times(x, x));
  }

  lemma SumAndDifference(a: real, b: real)
    ensures Times(a + b, a + b) + Times(a - b, a - b) == 2.0 * Times(a, a) + 2.0 * Times(b, b)
  {
  }

  lemma SquareOfTimes(a: real, b: real)
    ensures Times(Times(a, b), Times(a, b)) == Times(Times(a, a), Times(b, b))
  {
  }

  // ----- the three rotations of a sweep, on the six entries

  function Square(x: real): real {
    Times(x, x)
  }

  /** a22 - a00 */
  function Spread(a: Mat): real {
    a.r2.z - a.r0.x
  }

  const TAU2 := Times(TINY, TINY)

  lemma BelowTiny(x: real)
    requires Abs(x) < TINY
    ensures Square(x) <= TAU2
  {
    TimesMonotone(Abs(x), TINY, Abs(x), TINY);
    assert Times(Abs(x), Abs(x)) == Times(x, x);
  }

  /** The first rotation: (0, 1). */
  lemma First(m: Libm, d: Decomposition)
    requires m.Exact() && Symmetric(d.a)
    ensures var a, b := d.a, Rotate(m, d, P01).a;
            && Square(b.r0.y) <= TAU2
            && Square(b.r0.z) + Square(b.r1.z) == Square(a.r0.z) + Square(a.r1.z)
            && Spread(b) >= Spread(a)
  {
    var a, p := d.a, d.a.r0.y;
    if Abs(p) < TINY {
      BelowTiny(p);
    } else {
      var gap := a.r1.y - a.r0.x;
      var phi := 0.5 * m.atan2(2.0 * p, gap);
      var c, s := m.cos(phi), m.sin(phi);
      m.JacobiAngle(p, gap, c, s);
      m.JacobiDirection(p, gap, c, s);
      RotatedPair(c, s, a.r0.x, p, a.r1.y);
      SquaresKept(c, s, a.r0.z, a.r1.z);
      PivotZero(c, s, a.r0.x, p, a.r1.y);
      NewGap(c, s, p, gap, Times(Times(c, c) - Times(s, s), gap) + 4.0 * Times(Times(c, s), p));
      TinySquare();
      ZeroSquare();
      hide Times, m.Exact, Abs;
    }
  }

  lemma TinySquare()
    ensures TAU2 > 0.0
  {
    TimesPositive(TINY, TINY);
  }

  /** The second rotation: (0, 2), across the spread. */
  lemma Second(m: Libm, d: Decomposition, g: real)
    requires m.Exact() && Symmetric(d.a) && Square(d.a.r0.y) <= TAU2 && Spread(d.a) >= g > 0.0
    ensures var a, b := d.a, Rotate(m, d, P02).a;
            && Times(Square(b.r0.y) + Square(b.r0.z), Square(g))
               <= 2.0 * Times(TAU2, Square(g)) + 4.0 * Times(Square(a.r0.z), Square(a.r1.z))
            && Spread(b) >= Spread(a)
  {
    var a, p := d.a, d.a.r0.z;
    if Abs(p) < TINY {
      BelowTiny(p);
      SecondSkipped(Square(a.r0.y), Square(p), Square(a.r1.z), g);
    } else {
      var gap := Spread(a);
      var phi := 0.5 * m.atan2(2.0 * p, gap);
      var c, s := m.cos(phi), m.sin(phi);
      m.JacobiAngle(p, gap, c, s);
      m.JacobiDirection(p, gap, c, s);
      RotatedPair(c, s, a.r0.x, p, a.r2.z);
      RotatedSquare(c, s, a.r0.y, a.r1.z);
      PivotZero(c, s, a.r0.x, p, a.r2.z);
      NewGap(c, s, p, gap, Times(Times(c, c) - Times(s, s), gap) + 4.0 * Times(Times(c, s), p));
      ZeroSquare();
      hide Times, m.Exact, Abs;
      SecondRotated(Square(Times(c, a.r0.y) - Times(s, a.r1.z)), Square(a.r0.y), Times(s, s), Square(p),
                    Square(a.r1.z), gap, g);
    }
  }

  lemma SecondSkipped(x: real, p: real, z: real, g: real)
    requires 0.0 <= x <= TAU2 && 0.0 <= p <= TAU2 && z >= 0.0
    ensures Times(x + p, Square(g)) <= 2.0 * Times(TAU2, Square(g)) + 4.0 * Times(p, z)
  {
    TimesSquare(g);
    TimesNonNegative(p, z);
    TimesNonNegative(2.0 * TAU2 - x - p, Square(g));
    assert Times(2.0 * TAU2 - x - p, Square(g)) == 2.0 * Times(TAU2, Square(g)) - Times(x + p, Square(g));
  }

  lemma SecondRotated(y: real, x: real, w: real, p: real, z: real, gap: real, g: real)
    requires 0.0 <= x <= TAU2 && w >= 0.0 && z >= 0.0 && y <= 2.0 * x + 2.0 * Times(w, z) && gap >= g > 0.0
    requires Times(w, Times(gap, gap)) <= 2.0 * p
    ensures Times(y + 0.0, Square(g)) <= 2.0 * Times(TAU2, Square(g)) + 4.0 * Times(p, z)
  {
    var q := Square(g);
    TimesSquare(g);
    TimesMonotone(g, gap, g, gap);
    TimesMonotone(w, w, q, Times(gap, gap));
    TimesNonNegative(z, 2.0 * p - Times(w, q));
    assert Times(z, 2.0 * p - Times(w, q)) == 2.0 * Times(p, z) - Times(Times(w, z), q);
    TimesNonNegative(TAU2 - x, q);
    assert Times(TAU2 - x, q) == Times(TAU2, q) - Times(x, q);
    TimesNonNegative(2.0 * x + 2.0 * Times(w, z) - y, q);
    assert Times(2.0 * x + 2.0 * Times(w, z) - y, q) == 2.0 * Times(x, q) + 2.0 * Times(Times(w, z), q) - Times(y, q);
  }

  /** The third rotation: (1, 2). */
  lemma Third(m: Libm, d: Decomposition)
    requires m.Exact() && Symmetric(d.a)
    ensures var a, b := d.a, Rotate(m, d, P12).a;
            && Square(b.r0.y) + Square(b.r0.z) + Square(b.r1.z) <= Square(a.r0.y) + Square(a.r0.z) + TAU2
            && Spread(b) >= Spread(a)
  {
    var a, p := d.a, d.a.r1.z;
    if Abs(p) < TINY {
      BelowTiny(p);
    } else {
      var gap := a.r2.z - a.r1.y;
      var phi := 0.5 * m.atan2(2.0 * p, gap);
      var c, s := m.cos(phi), m.sin(phi);
      m.JacobiAngle(p, gap, c, s);
      m.JacobiDirection(p, gap, c, s);
      RotatedPair(c, s, a.r1.y, p, a.r2.z);
      SquaresKept(c, s, a.r0.y, a.r0.z);
      PivotZero(c, s, a.r1.y, p, a.r2.z);
      NewGap(c, s, p, gap, Times(Times(c, c) - Times(s, s), gap) + 4.0 * Times(Times(c, s), p));
      TinySquare();
      ZeroSquare();
      hide Times, m.Exact, Abs;
    }
  }

  // ----- one sweep

  /** Half the off-diagonal sum of squares. */
  function Off(a: Mat): real {
    Square(a.r0.y) + Square(a.r0.z) + Square(a.r1.z)
  }

  lemma OffNonNegative(a: Mat)
    ensures Off(a) >= 0.0 && Square(a.r0.y) >= 0.0 && Square(a.r0.z) >= 0.0 && Square(a.r1.z) >= 0.0
  {
    TimesSquare(a.r0.y); TimesSquare(a.r0.z); TimesSquare(a.r1.z);
  }

  /** One sweep across a spread of at least g: the spread does not shrink, and g^2 times the new off-diagonal sum is at
      most the square of the old one, up to the entries too small to be rotated away. */
  lemma SweepRate(m: Libm, d: Decomposition, a: Mat, g: real)
    requires m.Exact() && Similar(d, a) && Symmetric(a) && Spread(d.a) >= g > 0.0
    ensures Similar(Sweep(m, d), a) && Spread(Sweep(m, d).a) >= g
    ensures Times(Off(Sweep(m, d).a), Square(g)) <= Square(Off(d.a)) + 3.0 * Times(TAU2, Square(g))
  {
    hide m.Exact, Rotate, Similar, Spread, Square, Off, Times;
    var d1 := Rotate(m, d, P01);
    var d2 := Rotate(m, d1, P02);
    var d3 := Rotate(m, d2, P12);
    RotateKeepsSimilar(m, d, P01, a);
    RotateKeepsSimilar(m, d1, P02, a);
    RotateKeepsSimilar(m, d2, P12, a);
    SimilarKeeps(d, a); SimilarKeeps(d1, a); SimilarKeeps(d2, a);
    First(m, d);
    Second(m, d1, g);
    Third(m, d2);
    OffIs(d.a); OffIs(d3.a);
    OffNonNegative(d.a); OffNonNegative(d1.a); OffNonNegative(d2.a);
    SweepScalar(Square(d1.a.r0.z), Square(d1.a.r1.z), Off(d.a), Square(d2.a.r0.y) + Square(d2.a.r0.z), Off(d3.a), g);
  }

  lemma OffIs(a: Mat)
    ensures Off(a) == Square(a.r0.y) + Square(a.r0.z) + Square(a.r1.z)
  {
  }

  lemma SweepScalar(y: real, z: real, e: real, f: real, e3: real, g: real)
    requires y >= 0.0 && z >= 0.0 && y + z <= e && e3 <= f + TAU2
    requires Times(f, Square(g)) <= 2.0 * Times(TAU2, Square(g)) + 4.0 * Times(y, z)
    ensures Times(e3, Square(g)) <= Square(e) + 3.0 * Times(TAU2, Square(g))
  {
    var q := Square(g);
    TimesSquare(g);
    TimesSquare(y - z);
    TimesMonotone(y + z, e, y + z, e);
    FourTimes(y, z);
    TimesNonNegative(f + TAU2 - e3, q);
    assert Times(f + TAU2 - e3, q) == Times(f, q) + Times(TAU2, q) - Times(e3, q);
  }

  lemma FourTimes(y: real, z: real)
    ensures 4.0 * Times(y, z) == Times(y + z, y + z) - Times(y - z, y - z)
  {
  }

  // ----- all sweeps

  lemma {:induction false} PowSquare(w: real, k: nat)
    ensures Pow(Times(w, w), k) == Pow(w, 2 * k)
  {
    if k > 0 {
      PowSquare(w, k - 1);
      assert Pow(w, 2 * k) == Times(w, Pow(w, 2 * k - 1)) == Times(w, Times(w, Pow(w, 2 * k - 2)));
      TimesAssoc(w, w, Pow(w, 2 * k - 2));
    }
  }

  /** If twice the off-diagonal sum is at most w G + 12 T, with G the squared spread and T = 1e-40, the next is at most
      w^2 G + 12 T. */
  lemma RateScalar(e: real, f: real, gg: real, w: real)
    requires e >= 0.0 && gg >= 24.0 * TAU2 && 0.0 <= w <= 1.0 && 2.0 * e <= Times(w, gg) + 12.0 * TAU2
    requires Times(f, gg) <= Square(e) + 3.0 * Times(TAU2, gg)
    ensures 2.0 * f <= Times(Times(w, w), gg) + 12.0 * TAU2
  {
    TinySquare();
    var u, t := Times(w, gg), TAU2;
    TimesNonNegative(w, gg);
    TimesMonotone(2.0 * e, u + 12.0 * t, 2.0 * e, u + 12.0 * t);
    TimesSquare(u - 12.0 * t);
    RateSquares(e, u, t);
    TimesNonNegative(t, gg - 24.0 * t);
    assert Times(t, gg - 24.0 * t) == Times(t, gg) - 24.0 * Times(t, t);
    SquareOfProduct(w, gg);
    // 2 f G <= w^2 G^2 + 12 T G, and G > 0
    CancelSpread(f, Times(Times(w, w), gg), t, gg);
  }

  lemma RateSquares(e: real, u: real, t: real)
    ensures Times(2.0 * e, 2.0 * e) == 4.0 * Times(e, e)
    ensures Times(u + 12.0 * t, u + 12.0 * t)
         == 2.0 * Times(u, u) + 288.0 * Times(t, t) - Times(u - 12.0 * t, u - 12.0 * t)
  {
  }

  lemma SquareOfProduct(w: real, g: real)
    ensures Times(Times(w, g), Times(w, g)) == Times(Times(Times(w, w), g), g)
  {
  }

  lemma CancelSpread(f: real, v: real, t: real, g: real)
    requires g > 0.0 && 2.0 * Times(f, g) <= Times(v, g) + 12.0 * Times(t, g)
    ensures 2.0 * f <= v + 12.0 * t
  {
    var e := 2.0 * f - v - 12.0 * t;
    assert Times(e, g) == 2.0 * Times(f, g) - Times(v, g) - 12.0 * Times(t, g);
    if e > 0.0 {
      TimesPositive(e, g);
    }
  }

  /** n sweeps across a spread of at least g: quadratic down to the threshold. */
  lemma {:induction false} SweepsRate(m: Libm, d: Decomposition, a: Mat, n: nat, g: real, w: real)
    requires m.Exact() && Similar(d, a) && Symmetric(a) && Spread(d.a) >= g > 0.0
    requires Square(g) >= 24.0 * TAU2 && 0.0 <= w <= 1.0 && 2.0 * Off(d.a) <= Times(w, Square(g)) + 12.0 * TAU2
    ensures 2.0 * Off(Sweeps(m, d, n).a) <= Times(Pow(w, Exp2(n)), Square(g)) + 12.0 * TAU2
    decreases n
  {
    hide m.Exact, Similar, Spread, Square, Off, Times, Sweep, Converged;
    if n == 0 {
      PowOne(w);
    } else if Converged(d.a) {
      ConvergedOff(d.a);
      PowNonNegative(w, Exp2(n));
      SquareNonNegative(g);
      TimesNonNegative(Pow(w, Exp2(n)), Square(g));
    } else {
      SweepRate(m, d, a, g);
      OffNonNegative(d.a);
      RateScalar(Off(d.a), Off(Sweep(m, d).a), Square(g), w);
      TimesNonNegative(w, w);
      TimesMonotone(w, 1.0, w, 1.0);
      UnitSquare();
      SweepsRate(m, Sweep(m, d), a, n - 1, g, Times(w, w));
      PowSquare(w, Exp2(n - 1));
    }
  }

  lemma SquareNonNegative(g: real)
    ensures Square(g) >= 0.0
  {
    TimesSquare(g);
  }

  lemma PowOne(w: real)
    ensures Pow(w, Exp2(0)) == w
  {
    assert Pow(w, 1) == Times(w, Pow(w, 0));
  }

  lemma {:induction false} PowNonNegative(w: real, k: nat)
    requires w >= 0.0
    ensures Pow(w, k) >= 0.0
  {
    if k > 0 {
      PowNonNegative(w, k - 1);
      TimesNonNegative(w, Pow(w, k - 1));
    }
  }

  /** The early exit leaves less than the threshold allows. */
  lemma ConvergedOff(a: Mat)
    requires Converged(a)
    ensures 2.0 * Off(a) <= 12.0 * TAU2
  {
    BelowTiny(a.r0.y); BelowTiny(a.r0.z); BelowTiny(a.r1.z);
  }

  // ----- fifty sweeps are enough

  lemma {:induction false} HalfPower(n: nat)
    ensures Pow(0.5, Exp2(n + 1)) == Square(Pow(0.5, Exp2(n)))
    ensures 0.0 <= Pow(0.5, Exp2(n)) <= 1.0
  {
    PowAdd(0.5, Exp2(n), Exp2(n));
    PowNonNegative(0.5, Exp2(n));
    PowAtMostOne(Exp2(n));
  }

  lemma {:induction false} PowAtMostOne(k: nat)
    ensures Pow(0.5, k) <= 1.0
  {
    if k > 0 {
      PowAtMostOne(k - 1);
    }
  }

  /** (1/2)^(2^n) is at most 1e-80 from the ninth power on. */
  lemma {:induction false} HalvesVanish(n: nat)
    requires n >= 9
    ensures 0.0 <= Pow(0.5, Exp2(n)) <= Times(TAU2, TAU2)
  {
    hide Exp2, Pow, Times, Square;
    if n > 9 {
      HalvesVanish(n - 1);
      HalfPower(n - 1);
      SquareShrinks(Pow(0.5, Exp2(n - 1)));
    } else {
      NinthPower();
    }
  }

  lemma SquareShrinks(p: real)
    requires 0.0 <= p <= 1.0
    ensures 0.0 <= Square(p) <= p
  {
    TimesMonotone(p, p, p, 1.0);
    TimesOne(p);
  }

  lemma NinthPower()
    ensures 0.0 <= Pow(0.5, Exp2(9)) <= Times(TAU2, TAU2)
  {
    SmallSquares();
    hide Exp2, Pow, Times, Square;
    SixteenHalves();
    PowerBelow(4, 0.0001, 0.00000001);
    PowerBelow(5, 0.00001, 0.0000000001);
    PowerBelow(6, 0.0000000001, TINY);
    PowerBelow(7, TINY, TAU2);
    PowerBelow(8, TAU2, Times(TAU2, TAU2));
    HalfPower(9);
  }

  lemma SmallSquares()
    ensures Square(0.0001) <= 0.00000001 && Square(0.00001) <= 0.0000000001 && Square(0.0000000001) <= TINY
    ensures Square(TINY) <= TAU2 && Square(TAU2) <= Times(TAU2, TAU2)
  {
  }

  lemma SixteenHalves()
    ensures Pow(0.5, Exp2(4)) <= 0.0001
  {
    HalfPower(3); HalfPower(2); HalfPower(1); HalfPower(0);
    PowOne(0.5);
  }

  lemma PowerBelow(n: nat, b: real, c: real)
    requires Pow(0.5, Exp2(n)) <= b && Square(b) <= c
    ensures Pow(0.5, Exp2(n + 1)) <= c
  {
    HalfPower(n);
    var p := Pow(0.5, Exp2(n));
    TimesMonotone(p, b, p, b);
  }

  lemma {:induction false} SweepsKeepGoing(m: Libm, d: Decomposition, k: nat, n: nat)
    ensures Sweeps(m, d, k + n) == Sweeps(m, Sweeps(m, d, k), n)
    decreases k
  {
    hide Sweep, Converged;
    if k > 0 && !Converged(d.a) {
      SweepsKeepGoing(m, Sweep(m, d), k - 1, n);
    }
  }

  /** No entry off the diagonal exceeds c in magnitude. */
  predicate OffAtMost(a: Mat, c: real) {
    Abs(a.r0.y) <= c && Abs(a.r0.z) <= c && Abs(a.r1.z) <= c
  }

  lemma OffEntries(a: Mat)
    requires 2.0 * Off(a) <= 13.0 * TAU2
    ensures OffAtMost(a, 3.0 * TINY)
  {
    OffNonNegative(a);
    EntryBelow(a.r0.y); EntryBelow(a.r0.z); EntryBelow(a.r1.z);
  }

  lemma EntryBelow(x: real)
    ensures Square(x) <= 6.5 * TAU2 ==> Abs(x) <= 3.0 * TINY
  {
    assert Times(Abs(x), Abs(x)) == Times(x, x);
    TinySquare();
    if Abs(x) > 3.0 * TINY {
      TimesMonotone(3.0 * TINY, Abs(x), 3.0 * TINY, Abs(x));
      assert Times(3.0 * TINY, 3.0 * TINY) == 9.0 * TAU2;
    }
  }

  lemma HalfSum(a: Mat)
    ensures OffSum(a) == 2.0 * Off(a)
  {
  }
}
