/**
 Fifty sweeps of `sinew_jacobi9` (src/gen/sinew_align.c:173-214) are enough for every symmetric matrix. After three
 sweeps the spread between the last and the first diagonal entry dominates what is left off the diagonal, or that is
 already below the threshold; from there each sweep squares it.
 */
module JacobiEnds {
  import opened LinAlg
  import opened Forms
  import opened NewtonSchulz
  import opened Convergence
  import opened MathLibrary
  import opened Jacobi
  import opened JacobiRate

  // ----- one rotation

  /** The angle of a rotation that is not skipped: the new gap n is at least the old one and at least twice the pivot,
      and across a gap that is not negative the angle is at most an eighth turn. */
  lemma Turn(m: Libm, p: real, d: real, c: real, s: real, n: real)
    requires m.Exact() && Abs(p) >= TINY
    requires c == m.cos(0.5 * m.atan2(2.0 * p, d)) && s == m.sin(0.5 * m.atan2(2.0 * p, d))
    requires n == Times(Times(c, c) - Times(s, s), d) + 4.0 * Times(Times(c, s), p)
    ensures Times(c, c) + Times(s, s) == 1.0 && Times(Times(c, c) - Times(s, s), p) == Times(Times(c, s), d)
    ensures n >= Abs(d) && n >= 2.0 * Abs(p)
    ensures d >= 0.0 ==> Abs(s) <= Abs(c) <= 1.0
  {
    m.JacobiAngle(p, d, c, s);
    m.JacobiDirection(p, d, c, s);
    hide Times, m.Exact;
    TurnScalar(c, s, p, d, n);
    if d >= 0.0 {
      SmallTurn(Times(c, c) - Times(s, s), d, n);
      Eighth(c, s);
    }
  }

  lemma TurnScalar(c: real, s: real, p: real, d: real, n: real)
    requires Times(c, c) + Times(s, s) == 1.0 && Times(Times(c, c) - Times(s, s), p) == Times(Times(c, s), d)
    requires n == Times(Times(c, c) - Times(s, s), d) + 4.0 * Times(Times(c, s), p) && n >= 0.0
    ensures n >= Abs(d) && n >= 2.0 * Abs(p) && Times(Times(c, c) - Times(s, s), Times(n, n)) == Times(d, n)
  {
    var k, l := Times(c, c) - Times(s, s), 2.0 * Times(c, s);
    HalfProducts(Times(c, s), p, d);
    TimesSquare(d);
    TimesSquare(p);
    hide Times;
    DoubleAngle(c, s);
    GapSquare(k, l, p, d, n);
    SquareOrder(d, n);
    SquareOrder(2.0 * p, n);
  }

  lemma HalfProducts(x: real, p: real, d: real)
    ensures Times(x, p) == 0.5 * Times(2.0 * x, p) && Times(x, d) == 0.5 * Times(2.0 * x, d)
    ensures Times(2.0 * p, 2.0 * p) == 4.0 * Times(p, p)
  {
  }

  lemma SmallTurn(k: real, d: real, n: real)
    requires Times(k, Times(n, n)) == Times(d, n) && d >= 0.0 && n > 0.0
    ensures k >= 0.0
  {
    TimesNonNegative(d, n);
    TimesPositive(n, n);
    assert Times(-k, Times(n, n)) == -Times(k, Times(n, n));
    hide Times;
    if k < 0.0 {
      TimesPositive(-k, Times(n, n));
    }
  }

  lemma Eighth(c: real, s: real)
    requires Times(c, c) + Times(s, s) == 1.0 && Times(c, c) >= Times(s, s)
    ensures Abs(s) <= Abs(c) <= 1.0
  {
    assert Times(Abs(c), Abs(c)) == Times(c, c) && Times(1.0, 1.0) == 1.0;
    TimesSquare(s);
    hide Times;
    SquareOrder(s, Abs(c));
    SquareOrder(c, 1.0);
  }

  /** Across an eighth turn at most, the first of two entries ends no larger than the second, up to twice itself. */
  lemma Leaning(c: real, s: real, p: real, r: real)
    requires Abs(s) <= Abs(c) <= 1.0
    ensures Abs(Times(c, p) - Times(s, r)) <= Abs(Times(s, p) + Times(c, r)) + 2.0 * Abs(p)
  {
    AbsTimes(c, p); AbsTimes(s, r); AbsTimes(s, p); AbsTimes(c, r);
    TimesMonotone(Abs(c), 1.0, Abs(p), Abs(p));
    TimesMonotone(Abs(s), 1.0, Abs(p), Abs(p));
    TimesMonotone(Abs(s), Abs(c), Abs(r), Abs(r));
    TimesOne(Abs(p));
    hide Times;
  }

  lemma AbsTimes(a: real, b: real)
    ensures Abs(Times(a, b)) == Times(Abs(a), Abs(b))
  {
    var t := Times(a, b);
    assert Times(-a, b) == -t && Times(a, -b) == -t && Times(-a, -b) == t;
    TimesNonNegative(Abs(a), Abs(b));
    hide Times;
  }

  lemma FirstTurn(m: Libm, d: Decomposition)
    requires m.Exact() && Symmetric(d.a)
    ensures var a, b := d.a, Rotate(m, d, P01).a;
            if Abs(a.r0.y) < TINY then b == a
            else b.r0.y == 0.0 && b.r0.x <= a.r0.x && b.r0.x <= a.r1.y && b.r2.z == a.r2.z
  {
    var a, p := d.a, d.a.r0.y;
    if Abs(p) >= TINY {
      var gap := a.r1.y - a.r0.x;
      var phi := 0.5 * m.atan2(2.0 * p, gap);
      var c, s := m.cos(phi), m.sin(phi);
      Turn(m, p, gap, c, s, Times(Times(c, c) - Times(s, s), gap) + 4.0 * Times(Times(c, s), p));
      RotatedPair(c, s, a.r0.x, p, a.r1.y);
      PivotZero(c, s, a.r0.x, p, a.r1.y);
      hide Times, m.Exact;
    }
  }

  lemma SecondTurn(m: Libm, d: Decomposition)
    requires m.Exact() && Symmetric(d.a)
    ensures var a, b := d.a, Rotate(m, d, P02).a;
            if Abs(a.r0.z) < TINY then b == a
            else
              && b.r0.z == 0.0 && b.r0.x <= a.r0.x && b.r2.z >= a.r2.z && Spread(b) >= 0.0
              && Square(b.r0.y) + Square(b.r1.z) == Square(a.r0.y) + Square(a.r1.z)
              && (Spread(a) >= 0.0 ==> Abs(b.r0.y) <= Abs(b.r1.z) + 2.0 * Abs(a.r0.y))
  {
    var a, p := d.a, d.a.r0.z;
    if Abs(p) >= TINY {
      var gap := Spread(a);
      var phi := 0.5 * m.atan2(2.0 * p, gap);
      var c, s := m.cos(phi), m.sin(phi);
      Turn(m, p, gap, c, s, Times(Times(c, c) - Times(s, s), gap) + 4.0 * Times(Times(c, s), p));
      RotatedPair(c, s, a.r0.x, p, a.r2.z);
      PivotZero(c, s, a.r0.x, p, a.r2.z);
      SquaresKept(c, s, a.r0.y, a.r1.z);
      if gap >= 0.0 {
        Leaning(c, s, a.r0.y, a.r1.z);
      }
      hide Times, m.Exact;
    }
  }

  lemma ThirdTurn(m: Libm, d: Decomposition)
    requires m.Exact() && Symmetric(d.a)
    ensures var a, b := d.a, Rotate(m, d, P12).a;
            if Abs(a.r1.z) < TINY then b == a
            else
              && b.r1.z == 0.0 && b.r0.x == a.r0.x && b.r2.z >= a.r2.z && b.r2.z - b.r1.y >= 2.0 * Abs(a.r1.z)
              && Square(b.r0.y) + Square(b.r0.z) == Square(a.r0.y) + Square(a.r0.z)
  {
    var a, p := d.a, d.a.r1.z;
    if Abs(p) >= TINY {
      var gap := a.r2.z - a.r1.y;
      var phi := 0.5 * m.atan2(2.0 * p, gap);
      var c, s := m.cos(phi), m.sin(phi);
      Turn(m, p, gap, c, s, Times(Times(c, c) - Times(s, s), gap) + 4.0 * Times(Times(c, s), p));
      RotatedPair(c, s, a.r1.y, p, a.r2.z);
      PivotZero(c, s, a.r1.y, p, a.r2.z);
      SquaresKept(c, s, a.r0.y, a.r0.z);
      hide Times, m.Exact;
    }
  }

  // ----- three sweeps

  /** The three stages of one sweep, with what each rotation does. */
  lemma Stages(m: Libm, d: Decomposition, a: Mat)
    requires m.Exact() && Similar(d, a) && Symmetric(a)
    ensures var d1 := Rotate(m, d, P01);
            var d2 := Rotate(m, d1, P02);
            && Symmetric(d.a) && Symmetric(d1.a) && Symmetric(d2.a) && Similar(Sweep(m, d), a)
            && Off(Sweep(m, d).a) <= Off(d2.a) <= Off(d1.a) <= Off(d.a)
  {
    hide m.Exact, Rotate, Similar, Off, OffSum, Removed;
    var d1 := Rotate(m, d, P01);
    var d2 := Rotate(m, d1, P02);
    var d3 := Rotate(m, d2, P12);
    RotateKeepsSimilar(m, d, P01, a);
    RotateKeepsSimilar(m, d1, P02, a);
    RotateKeepsSimilar(m, d2, P12, a);
    SimilarKeeps(d, a); SimilarKeeps(d1, a); SimilarKeeps(d2, a);
    RotateRemovesPivot(m, d, P01);
    RotateRemovesPivot(m, d1, P02);
    RotateRemovesPivot(m, d2, P12);
    RemovedNonNegative(d.a, P01); RemovedNonNegative(d1.a, P02); RemovedNonNegative(d2.a, P12);
    HalfSum(d.a); HalfSum(d1.a); HalfSum(d2.a); HalfSum(d3.a);
  }

  /** What is left off the diagonal is of the order of the threshold. */
  predicate Little(a: Mat) {
    Off(a) <= 10.0 * TAU2
  }

  /** A rotation in the plane (0, 2) is skipped only when little is left after the sweep. */
  lemma LittleLeft(m: Libm, d: Decomposition, a: Mat)
    requires m.Exact() && Similar(d, a) && Symmetric(a) && Abs(Rotate(m, d, P01).a.r0.z) < TINY
    ensures Little(Sweep(m, d).a)
  {
    var d1 := Rotate(m, d, P01);
    Stages(m, d, a);
    FirstTurn(m, d);
    SecondTurn(m, d1);
    ThirdTurn(m, d1);
    hide m.Exact, Rotate, Similar, Square;
    TinySquare();
    FirstSmall(m, d);
    BelowTiny(d1.a.r0.z);
    if Abs(d1.a.r1.z) < TINY {
      BelowTiny(d1.a.r1.z);
    } else {
      ZeroIsZero();
    }
  }

  lemma FirstSmall(m: Libm, d: Decomposition)
    requires m.Exact() && Symmetric(d.a)
    ensures Abs(Rotate(m, d, P01).a.r0.y) < TINY && Square(Rotate(m, d, P01).a.r0.y) <= TAU2
  {
    FirstTurn(m, d);
    hide m.Exact, Rotate;
    BelowTiny(Rotate(m, d, P01).a.r0.y);
  }

  lemma ZeroIsZero()
    ensures Square(0.0) == 0.0
  {
  }

  /** The first sweep orders the first and the last diagonal entry. */
  lemma SweepOrders(m: Libm, d: Decomposition, a: Mat)
    requires m.Exact() && Similar(d, a) && Symmetric(a)
    ensures Spread(Sweep(m, d).a) >= 0.0 || Little(Sweep(m, d).a)
  {
    var d1 := Rotate(m, d, P01);
    if Abs(d1.a.r0.z) < TINY {
      LittleLeft(m, d, a);
    } else {
      Stages(m, d, a);
      SecondTurn(m, d1);
      ThirdTurn(m, Rotate(m, d1, P02));
    }
  }

  /** The entry (1, 2) is gone and the last two diagonal entries differ by at least 1.8 times what is left. */
  predicate Wedge(a: Mat) {
    a.r1.z == 0.0 && a.r2.z >= a.r1.y && Off(a) <= 0.3 * Square(a.r2.z - a.r1.y) + 24.0 * TAU2
  }

  /** The second opens a gap between the last two that dominates what it leaves. */
  lemma SweepOpens(m: Libm, d: Decomposition, a: Mat)
    requires m.Exact() && Similar(d, a) && Symmetric(a) && Spread(d.a) >= 0.0
    ensures Wedge(Sweep(m, d).a) || Little(Sweep(m, d).a)
  {
    hide m.Exact, Rotate, Similar, Wedge, Little;
    var d1 := Rotate(m, d, P01);
    if Abs(d1.a.r0.z) < TINY {
      LittleLeft(m, d, a);
    } else {
      Stages(m, d, a);
      FirstTurn(m, d);
      FirstSmall(m, d);
      SecondTurn(m, d1);
      ThirdTurn(m, Rotate(m, d1, P02));
      OpensScalar(Rotate(m, d1, P02).a, Sweep(m, d).a, d1.a.r0.y);
    }
  }

  lemma OpensScalar(b: Mat, e: Mat, p: real)
    requires b.r0.z == 0.0 && Abs(b.r0.y) <= Abs(b.r1.z) + 2.0 * Abs(p) && Abs(p) < TINY
    requires if Abs(b.r1.z) < TINY then e == b
             else && e.r1.z == 0.0 && e.r2.z - e.r1.y >= 2.0 * Abs(b.r1.z)
                  && Square(e.r0.y) + Square(e.r0.z) == Square(b.r0.y) + Square(b.r0.z)
    ensures Wedge(e) || Little(e)
  {
    ZeroIsZero();
    TinySquare();
    if Abs(b.r1.z) < TINY {
      BelowTiny(b.r1.z);
      ThreeTiny(b.r0.y);
    } else {
      Weighted(b.r0.y, b.r1.z);
      FourSquares(b.r1.z, e.r2.z - e.r1.y);
    }
  }

  lemma ThreeTiny(x: real)
    requires Abs(x) <= 3.0 * TINY
    ensures Square(x) <= 9.0 * TAU2
  {
    TimesMonotone(Abs(x), 3.0 * TINY, Abs(x), 3.0 * TINY);
    assert Times(Abs(x), Abs(x)) == Times(x, x);
    assert Times(3.0 * TINY, 3.0 * TINY) == 9.0 * TAU2;
  }

  /** (x + 2 t)^2 <= 1.2 x^2 + 24 t^2 */
  lemma Weighted(y: real, x: real)
    requires Abs(y) <= Abs(x) + 2.0 * TINY
    ensures Square(y) <= 1.2 * Square(x) + 24.0 * TAU2
  {
    var u := Abs(x);
    TimesMonotone(Abs(y), u + 2.0 * TINY, Abs(y), u + 2.0 * TINY);
    assert Times(Abs(y), Abs(y)) == Times(y, y) && Times(u, u) == Times(x, x);
    TimesSquare(u - 10.0 * TINY);
    WeightedIdentity(u, TINY);
  }

  lemma WeightedIdentity(u: real, t: real)
    ensures Times(u + 2.0 * t, u + 2.0 * t) == 1.2 * Times(u, u) + 24.0 * Times(t, t)
                                             - 0.2 * Times(u - 10.0 * t, u - 10.0 * t)
  {
  }

  lemma FourSquares(x: real, g: real)
    requires g >= 2.0 * Abs(x)
    ensures 4.0 * Square(x) <= Square(g)
  {
    TimesMonotone(2.0 * Abs(x), g, 2.0 * Abs(x), g);
    assert Times(2.0 * Abs(x), 2.0 * Abs(x)) == 4.0 * Times(x, x);
  }

  /** What is left is dominated by the spread. */
  predicate Dominated(a: Mat) {
    Spread(a) >= 0.0 && Off(a) <= 0.3 * Square(Spread(a)) + 24.0 * TAU2
  }

  /** The third moves that gap to the ends. */
  lemma SweepSpreads(m: Libm, d: Decomposition, a: Mat)
    requires m.Exact() && Similar(d, a) && Symmetric(a) && Wedge(d.a)
    ensures Dominated(Sweep(m, d).a) || Little(Sweep(m, d).a)
  {
    hide m.Exact, Rotate, Similar, Square;
    var d1 := Rotate(m, d, P01);
    var d2 := Rotate(m, d1, P02);
    Stages(m, d, a);
    FirstTurn(m, d);
    FirstSmall(m, d);
    SecondTurn(m, d1);
    ThirdTurn(m, d2);
    if Abs(d.a.r0.y) >= TINY {
      SquareUp(d.a.r2.z - d.a.r1.y, Spread(Sweep(m, d).a));
    } else if Abs(d1.a.r0.z) < TINY {
      LittleLeft(m, d, a);
    } else {
      ZeroIsZero();
      TinySquare();
    }
  }

  lemma SquareUp(x: real, y: real)
    requires 0.0 <= x <= y
    ensures Square(x) <= Square(y)
  {
    TimesMonotone(x, y, x, y);
  }

  // ----- fifty sweeps

  /** Little left stays little. */
  lemma LittleStays(m: Libm, d: Decomposition, a: Mat, n: nat)
    requires m.Exact() && Similar(d, a) && Symmetric(a)
    ensures Off(Sweeps(m, d, n).a) <= Off(d.a)
  {
    hide m.Exact, Similar, Sweeps, Off, OffSum, RemovedBy;
    SweepsRemove(m, d, n, a);
    HalfSum(d.a);
    HalfSum(Sweeps(m, d, n).a);
  }

  lemma ConvergedLittle(a: Mat)
    requires Converged(a)
    ensures Little(a)
  {
    ConvergedOff(a);
    TinySquare();
  }

  /** Three sweeps from any start. */
  lemma ThreeSweeps(m: Libm, d: Decomposition, a: Mat)
    requires m.Exact() && Similar(d, a) && Symmetric(a)
    ensures Dominated(Sweeps(m, d, 3).a) || Little(Sweeps(m, d, 3).a)
  {
    hide m.Exact, Similar, Sweep, Converged, Spread;
    if Converged(d.a) {
      ConvergedLittle(d.a);
    } else {
      var d1 := Sweep(m, d);
      Stages(m, d, a);
      SweepOrders(m, d, a);
      if Converged(d1.a) {
        ConvergedLittle(d1.a);
      } else if Little(d1.a) {
        LittleStays(m, d1, a, 2);
      } else {
        TwoSweeps(m, d1, a);
      }
    }
  }

  lemma TwoSweeps(m: Libm, d: Decomposition, a: Mat)
    requires m.Exact() && Similar(d, a) && Symmetric(a) && Spread(d.a) >= 0.0
    ensures Dominated(Sweeps(m, d, 2).a) || Little(Sweeps(m, d, 2).a)
  {
    hide m.Exact, Similar, Sweep, Converged, Spread, Wedge, Dominated;
    if Converged(d.a) {
      ConvergedLittle(d.a);
    } else {
      var e := Sweep(m, d);
      Stages(m, d, a);
      SweepOpens(m, d, a);
      if Converged(e.a) {
        ConvergedLittle(e.a);
      } else if Little(e.a) {
        LittleStays(m, e, a, 1);
      } else {
        SweepSpreads(m, e, a);
        assert Sweeps(m, e, 1) == Sweep(m, e);
      }
    }
  }

  /** The squared spread is at most twice the sum of squares. */
  lemma SpreadBounded(a: Mat)
    ensures Square(Spread(a)) <= 2.0 * Frobenius(a)
  {
    TimesSquare(a.r0.x + a.r2.z);
    SumAndDifference(a.r2.z, a.r0.x);
    OwnSquares(a.r0); OwnSquares(a.r1); OwnSquares(a.r2);
    hide Times;
  }

  lemma OwnSquares(v: Vec)
    ensures Dot(v, v) == Times(v.x, v.x) + Times(v.y, v.y) + Times(v.z, v.z)
    ensures Times(v.x, v.x) >= 0.0 && Times(v.y, v.y) >= 0.0 && Times(v.z, v.z) >= 0.0
  {
    TimesSquare(v.x); TimesSquare(v.y); TimesSquare(v.z);
  }

  lemma {:induction false} PowInverse(k: nat)
    ensures Times(Pow(0.5, k), Pow(2.0, k)) == 1.0
  {
    if k > 0 {
      PowInverse(k - 1);
      InverseStep(Pow(0.5, k - 1), Pow(2.0, k - 1));
    }
  }

  lemma InverseStep(p: real, q: real)
    ensures Times(Times(0.5, p), Times(2.0, q)) == Times(p, q)
  {
  }

  lemma {:induction false} PowUp(v: real, w: real, k: nat)
    requires 0.0 <= v <= w
    ensures 0.0 <= Pow(v, k) <= Pow(w, k)
  {
    if k > 0 {
      PowUp(v, w, k - 1);
      TimesMonotone(v, w, Pow(v, k - 1), Pow(w, k - 1));
      TimesNonNegative(v, Pow(v, k - 1));
    }
  }

  /** (3/4)^(4k) <= (1/2)^k */
  lemma ThreeQuarters(n: nat)
    ensures 0.0 <= Pow(0.75, Exp2(n + 2)) <= Pow(0.5, Exp2(n))
  {
    var w := Times(0.75, 0.75);
    PowSquare(0.75, Exp2(n + 1));
    PowSquare(w, Exp2(n));
    assert Exp2(n + 2) == 2 * Exp2(n + 1) && Exp2(n + 1) == 2 * Exp2(n);
    hide Pow, Exp2;
    PowUp(Times(w, w), 0.5, Exp2(n));
  }

  /** (1/2)^(2^(n+1)) times 2 * 2^(2^n) is at most 1e-40. */
  lemma SizeVanishes(n: nat, f: real)
    requires n >= 9 && 0.0 <= f <= 2.0 * Pow(2.0, Exp2(n))
    ensures Times(Pow(0.5, Exp2(n + 1)), f) <= TAU2
  {
    hide Pow, Exp2, Times;
    var p, q := Pow(0.5, Exp2(n)), Pow(2.0, Exp2(n));
    HalfPower(n);
    HalvesVanish(n);
    PowInverse(Exp2(n));
    TimesNonNegative(p, p);
    TimesUp(Times(p, p), f, 2.0 * q);
    SizeScalar(p, q);
    TinyFourth();
  }

  lemma SizeScalar(p: real, q: real)
    requires Times(p, q) == 1.0
    ensures Times(Times(p, p), 2.0 * q) == 2.0 * p
  {
    assert Times(Times(p, p), 2.0 * q) == 2.0 * Times(p, Times(p, q));
    TimesOne(p);
  }

  lemma TinyFourth()
    ensures 2.0 * Times(TAU2, TAU2) <= TAU2
  {
  }

  lemma {:induction false} HalfPowersFall(i: nat, n: nat)
    requires i <= n
    ensures 0.0 <= Pow(0.5, Exp2(n)) <= Pow(0.5, Exp2(i))
    decreases n
  {
    hide Pow, Exp2;
    HalfPower(n);
    if i < n {
      HalfPowersFall(i, n - 1);
      HalfPower(n - 1);
      SquareShrinks(Pow(0.5, Exp2(n - 1)));
    }
  }

  /** The quadratic phase: forty-seven sweeps across a dominating spread. */
  lemma FortySeven(m: Libm, e: Decomposition, a: Mat, n: nat)
    requires m.Exact() && Similar(e, a) && Symmetric(a) && Dominated(e.a) && Square(Spread(e.a)) > 240.0 * TAU2
    requires 9 <= n <= 44 && Frobenius(a) <= Pow(2.0, Exp2(n))
    ensures OffAtMost(Sweeps(m, e, 47).a, 3.0 * TINY)
  {
    hide m.Exact, Similar, Sweeps, OffAtMost, Off, Pow, Exp2, Square, Frobenius;
    var g := Spread(e.a);
    SpreadPositive(g);
    QuarterBound(Off(e.a), Square(g));
    SweepsRate(m, e, a, 47, g, 0.75);
    SimilarKeeps(e, a);
    SpreadBounded(e.a);
    ThreeQuarters(45);
    HalfPowersFall(n + 1, 45);
    SquareNonNegative(g);
    SizeVanishes(n, Square(g));
    TimesMonotone(Pow(0.75, Exp2(47)), Pow(0.5, Exp2(n + 1)), Square(g), Square(g));
    OffEntries(Sweeps(m, e, 47).a);
  }

  lemma SpreadPositive(g: real)
    requires g >= 0.0 && Square(g) > 240.0 * TAU2
    ensures g > 0.0 && Square(g) >= 24.0 * TAU2
  {
    TinySquare();
    ZeroIsZero();
    hide Square;
  }

  lemma QuarterBound(e: real, gg: real)
    requires e <= 0.3 * gg + 24.0 * TAU2 && gg > 240.0 * TAU2
    ensures 2.0 * e <= Times(0.75, gg) + 12.0 * TAU2
  {
    assert Times(0.75, gg) == 0.75 * gg;
  }

  /** For every symmetric matrix with a sum of squares of at most 2^(2^44) the fifty sweeps leave no off-diagonal entry
      above 1e-19. */
  lemma Jacobi9Ends(m: Libm, a: Mat, n: nat)
    requires m.Exact() && Symmetric(a) && n <= 44 && Frobenius(a) <= Pow(2.0, Exp2(n))
    ensures OffAtMost(Jacobi9(m, a).a, 0.0000000000000000001)
  {
    hide m.Exact, Similar, Sweeps, OffAtMost, Off, Pow, Exp2, Frobenius, Square;
    var d := Decomposition(a, ID);
    var e := Sweeps(m, d, 3);
    IdSimilar(a);
    SweepsKeepSimilar(m, d, 3, a);
    SweepsKeepGoing(m, d, 3, 47);
    ThreeSweeps(m, d, a);
    LittleStays(m, e, a, 47);
    TinySquare();
    if Dominated(e.a) && Square(Spread(e.a)) > 240.0 * TAU2 {
      var k := if n < 9 then 9 else n;
      SizeGrows(n, k);
      FortySeven(m, e, a, k);
      Widen(Jacobi9(m, a).a);
    } else {
      TenTiny(Jacobi9(m, a).a);
    }
  }

  lemma {:induction false} SizeGrows(i: nat, n: nat)
    requires i <= n
    ensures Pow(2.0, Exp2(i)) <= Pow(2.0, Exp2(n))
    decreases n
  {
    hide Pow;
    if i < n {
      SizeGrows(i, n - 1);
      PowAdd(2.0, Exp2(n - 1), Exp2(n - 1));
      PowAtLeastOne(Exp2(n - 1));
      SquareGrows(Pow(2.0, Exp2(n - 1)));
    }
  }

  lemma SquareGrows(p: real)
    requires p >= 1.0
    ensures Times(p, p) >= p
  {
    TimesMonotone(1.0, p, p, p);
    TimesOne(p);
  }

  lemma {:induction false} PowAtLeastOne(k: nat)
    ensures Pow(2.0, k) >= 1.0
  {
    if k > 0 {
      PowAtLeastOne(k - 1);
    }
  }

  lemma Widen(a: Mat)
    requires OffAtMost(a, 3.0 * TINY)
    ensures OffAtMost(a, 0.0000000000000000001)
  {
  }

  lemma TenTiny(a: Mat)
    requires Off(a) <= 96.0 * TAU2
    ensures OffAtMost(a, 0.0000000000000000001)
  {
    OffNonNegative(a);
    TenTinyEntry(a.r0.y); TenTinyEntry(a.r0.z); TenTinyEntry(a.r1.z);
  }

  lemma TenTinyEntry(x: real)
    ensures Square(x) <= 96.0 * TAU2 ==> Abs(x) <= 10.0 * TINY
  {
    assert Times(Abs(x), Abs(x)) == Times(x, x);
    TinySquare();
    if Abs(x) > 10.0 * TINY {
      TimesMonotone(10.0 * TINY, Abs(x), 10.0 * TINY, Abs(x));
      assert Times(10.0 * TINY, 10.0 * TINY) == 100.0 * TAU2;
    }
  }

  // ----- the size of the input

  /** Every entry is at most 2^(2^40), as every finite double is. */
  ghost predicate Finite(h: Mat) {
    exists k: nat :: 1 <= k <= 40 && EntriesAtMost(h, Pow(2.0, Exp2(k)))
  }

  /** The decomposition of h^T h, for every finite h. */
  lemma GramEnds(m: Libm, h: Mat)
    requires m.Exact() && Finite(h)
    ensures OffAtMost(Jacobi9(m, Gram(h)).a, 0.0000000000000000001)
  {
    hide m.Exact, Jacobi9, Gram, Pow, Exp2, EntriesAtMost, OffAtMost, Frobenius;
    var k: nat :| 1 <= k <= 40 && EntriesAtMost(h, Pow(2.0, Exp2(k)));
    GramSymmetric(h);
    GramSize(h, k);
    Jacobi9Ends(m, Gram(h), k + 3);
  }

  lemma GramSize(h: Mat, k: nat)
    requires k >= 1 && EntriesAtMost(h, Pow(2.0, Exp2(k)))
    ensures Frobenius(Gram(h)) <= Pow(2.0, Exp2(k + 3))
  {
    hide EntriesAtMost, Frobenius, Gram, Pow, Exp2, Times;
    var b, c := Pow(2.0, Exp2(k)), Pow(2.0, Exp2(k + 2));
    PowAtLeastOne(Exp2(k));
    GramEntries(h, b);
    TimesNonNegative(b, b);
    FrobeniusSize(Gram(h), 3.0 * Times(b, b));
    Doubling(k); Doubling(k + 1); Doubling(k + 2);
    SizeGrows(3, k + 2);
    EighthPower();
    TimesNonNegative(c, c - 256.0);
    SizeSquares(Times(b, b), c);
  }

  lemma Doubling(k: nat)
    ensures Pow(2.0, Exp2(k + 1)) == Times(Pow(2.0, Exp2(k)), Pow(2.0, Exp2(k)))
  {
    hide Pow;
    PowAdd(2.0, Exp2(k), Exp2(k));
  }

  lemma EighthPower()
    ensures Pow(2.0, Exp2(3)) >= 256.0
  {
    Doubling(0); Doubling(1); Doubling(2);
    PowOne(2.0);
  }

  /** 9 (3 x)^2 = 81 x^2 <= x^4 for x^2 = c >= 256 */
  lemma SizeSquares(x: real, c: real)
    requires Times(x, x) == c && c >= 256.0 && Times(c, c - 256.0) >= 0.0
    ensures 9.0 * Times(3.0 * x, 3.0 * x) <= Times(c, c)
  {
    assert Times(3.0 * x, 3.0 * x) == 9.0 * Times(x, x);
    assert Times(c, c - 256.0) == Times(c, c) - 256.0 * c;
  }

  lemma GramEntries(h: Mat, b: real)
    requires b >= 0.0 && EntriesAtMost(h, b)
    ensures EntriesAtMost(Gram(h), 3.0 * Times(b, b))
  {
    var t := Transpose(h);
    DotSize(t.r0, t.r0, b); DotSize(t.r0, t.r1, b); DotSize(t.r0, t.r2, b);
    DotSize(t.r1, t.r0, b); DotSize(t.r1, t.r1, b); DotSize(t.r1, t.r2, b);
    DotSize(t.r2, t.r0, b); DotSize(t.r2, t.r1, b); DotSize(t.r2, t.r2, b);
    hide Dot;
  }

  predicate VecAtMost(v: Vec, b: real) {
    Abs(v.x) <= b && Abs(v.y) <= b && Abs(v.z) <= b
  }

  lemma DotSize(u: Vec, v: Vec, b: real)
    requires b >= 0.0 && VecAtMost(u, b) && VecAtMost(v, b)
    ensures Abs(Dot(u, v)) <= 3.0 * Times(b, b)
  {
    AbsTimes(u.x, v.x); AbsTimes(u.y, v.y); AbsTimes(u.z, v.z);
    TimesMonotone(Abs(u.x), b, Abs(v.x), b);
    TimesMonotone(Abs(u.y), b, Abs(v.y), b);
    TimesMonotone(Abs(u.z), b, Abs(v.z), b);
    hide Times;
  }

  lemma FrobeniusSize(a: Mat, b: real)
    requires b >= 0.0 && EntriesAtMost(a, b)
    ensures Frobenius(a) <= 9.0 * Times(b, b)
  {
    DotSize(a.r0, a.r0, b); DotSize(a.r1, a.r1, b); DotSize(a.r2, a.r2, b);
    hide Dot, Times;
  }
}
