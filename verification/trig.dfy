/**
 * The trigonometry and square root the radius formula relies on.
 *
 * Angles are in degrees throughout the model: every formula of the core is a
 * ratio of angle differences, so the factor PI/180 cancels. Cosine, sine and
 * square root are left uninterpreted; a model of them is any triple of real
 * functions that obeys the few identities collected in `Lawful`.
 */
module RealTrig {

  /** Degree-based cosine and sine, and a square root. */
  datatype TrigModel = TrigModel(cos: real -> real, sin: real -> real, sqrt: real -> real)

  /** The identities the core depends on: the values at 0 and 90 degrees,
      sin^2 + cos^2 = 1, cosine falling from 1 to 0 over the first quadrant,
      and sqrt being the non-negative square root. */
  ghost predicate Lawful(m: TrigModel)
  {
    && m.cos(0.0) == 1.0 && m.sin(0.0) == 0.0
    && m.cos(90.0) == 0.0 && m.sin(90.0) == 1.0
    && (forall x: real :: m.sin(x) * m.sin(x) + m.cos(x) * m.cos(x) == 1.0)
    && (forall x: real, y: real :: 0.0 <= x <= y <= 90.0 ==> 0.0 <= m.cos(y) <= m.cos(x))
    && (forall x: real :: 0.0 <= x ==> 0.0 <= m.sqrt(x) && m.sqrt(x) * m.sqrt(x) == x)
  }

  /** Squaring is strictly monotone on the non-negative reals. */
  lemma SquareStrictlyMonotone(a: real, b: real)
    requires 0.0 <= a && 0.0 <= b
    ensures a < b ==> a * a < b * b
  {
    if a < b {
      var aa, ab, bb := a * a, a * b, b * b;
      assert aa <= ab;
      assert ab < bb;
    }
  }

  /** Of two non-negative numbers, the one with the larger square is the larger. */
  lemma SquareOrder(a: real, b: real)
    requires 0.0 <= a && 0.0 <= b
    requires a * a <= b * b
    ensures a <= b
  {
    SquareStrictlyMonotone(b, a);
  }

  /** The square root of a positive number is positive. */
  lemma SqrtPositive(m: TrigModel, x: real)
    requires Lawful(m)
    requires 0.0 < x
    ensures 0.0 < m.sqrt(x)
  {
    assert m.sqrt(x) * m.sqrt(x) == x;
  }
}
