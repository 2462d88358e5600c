/**
 The C mathematical library as a parameter. The model computes with exact reals, so the functions are
 assumed to be the mathematical ones; floating-point rounding is not modelled.
 */
module MathLibrary {
  import opened LinAlg

  datatype Libm = Libm(sqrt: real -> real, atan2: (real, real) -> real, cos: real -> real, sin: real -> real) {

    ghost predicate SqrtAt(x: real) {
      x >= 0.0 ==> sqrt(x) >= 0.0 && Times(sqrt(x), sqrt(x)) == x
    }

    /** Pythagoras, and the half-angle laws that tie t to t / 2. */
    ghost predicate TrigAt(t: real) {
      && Times(cos(t), cos(t)) + Times(sin(t), sin(t)) == 1.0
      && cos(t) == Times(cos(0.5 * t), cos(0.5 * t)) - Times(sin(0.5 * t), sin(0.5 * t))
      && sin(t) == 2.0 * Times(sin(0.5 * t), cos(0.5 * t))
    }

    /** atan2(y, x) is the direction of the vector (x, y), and not the opposite one. */
    ghost predicate Atan2At(y: real, x: real) {
      && Times(y, cos(atan2(y, x))) == Times(x, sin(atan2(y, x)))
      && Times(x, cos(atan2(y, x))) + Times(y, sin(atan2(y, x))) >= 0.0
    }

    ghost predicate Exact() {
      && (forall x :: SqrtAt(x))
      && (forall t :: TrigAt(t))
      && (forall y, x :: Atan2At(y, x))
    }

    lemma SqrtSquare(x: real)
      requires Exact() && x >= 0.0
      ensures sqrt(x) >= 0.0 && Times(sqrt(x), sqrt(x)) == x
    {
      assert SqrtAt(x);
    }

    /** With phi = atan2(2 apq, d) / 2: c^2 + s^2 = 1 and (c^2 - s^2) apq = c s d. */
    lemma JacobiAngle(apq: real, d: real, c: real, s: real)
      requires Exact()
      requires c == cos(0.5 * atan2(2.0 * apq, d)) && s == sin(0.5 * atan2(2.0 * apq, d))
      ensures Times(c, c) + Times(s, s) == 1.0
      ensures Times(Times(c, c) - Times(s, s), apq) == Times(Times(c, s), d)
    {
      var t := atan2(2.0 * apq, d);
      assert TrigAt(t);
      assert TrigAt(0.5 * t);
      assert Atan2At(2.0 * apq, d);
      AngleScalar(apq, d, c, s, cos(t), sin(t));
    }

    /** The same angle does not turn (d, 2 apq) backwards. */
    lemma JacobiDirection(apq: real, d: real, c: real, s: real)
      requires Exact()
      requires c == cos(0.5 * atan2(2.0 * apq, d)) && s == sin(0.5 * atan2(2.0 * apq, d))
      ensures Times(Times(c, c) - Times(s, s), d) + 4.0 * Times(Times(c, s), apq) >= 0.0
    {
      var t := atan2(2.0 * apq, d);
      assert TrigAt(t);
      assert Atan2At(2.0 * apq, d);
      DirectionScalar(apq, d, c, s, cos(t), sin(t));
    }

    static lemma DirectionScalar(apq: real, d: real, c: real, s: real, c2: real, s2: real)
      requires c2 == Times(c, c) - Times(s, s) && s2 == 2.0 * Times(s, c)
      requires Times(d, c2) + Times(2.0 * apq, s2) >= 0.0
      ensures Times(Times(c, c) - Times(s, s), d) + 4.0 * Times(Times(c, s), apq) >= 0.0
    {
      assert Times(c2, d) == Times(d, c2);
      assert Times(2.0 * apq, s2) == 4.0 * Times(Times(c, s), apq);
    }

    static lemma AngleScalar(apq: real, d: real, c: real, s: real, c2: real, s2: real)
      requires c2 == Times(c, c) - Times(s, s) && s2 == 2.0 * Times(s, c) && Times(2.0 * apq, c2) == Times(d, s2)
      ensures Times(Times(c, c) - Times(s, s), apq) == Times(Times(c, s), d)
    {
      assert Times(2.0 * apq, c2) == 2.0 * Times(c2, apq);
      assert Times(d, s2) == 2.0 * Times(Times(c, s), d);
    }
  }
}
