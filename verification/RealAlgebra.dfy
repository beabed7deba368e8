/**
 * Nonlinear facts about reals, each stated once.
 *
 * Larger proofs then need only linear reasoning: products and quotients that would meet inside a
 * quantifier go through the named functions Times and Ratio, and the few facts about them that matter
 * are invoked by name where they are needed.
 */
module RealAlgebra {

  /** Multiplication under a name, so that products met inside quantified entries stay opaque to arithmetic. */
  function Times(a: real, b: real): real { a * b }

  /** Division under a name; a zero divisor, which callers exclude, gives zero. */
  function Ratio(a: real, b: real): real { if b == 0.0 then 0.0 else a / b }

  function Magnitude(x: real): real { if x < 0.0 then -x else x }

  lemma RatioUndone(a: real, b: real)
    requires b != 0.0
    ensures Times(b, Ratio(a, b)) == a
  {
  }

  lemma RatioSplits(a: real, b: real)
    ensures Ratio(a, b) == Times(Ratio(1.0, b), a)
  {
  }

  lemma RatioSign(a: real, b: real)
    requires a >= 0.0 && b > 0.0
    ensures Ratio(a, b) >= 0.0
  {
  }

  lemma TimesCommutes(a: real, b: real)
    ensures Times(a, b) == Times(b, a)
  {
  }

  lemma TimesSum(a: real, x: real, y: real)
    ensures Times(a, x + y) == Times(a, x) + Times(a, y)
  {
  }

  lemma SumTimes(x: real, y: real, a: real)
    ensures Times(x + y, a) == Times(x, a) + Times(y, a)
  {
  }

  lemma TimesUnits(a: real)
    ensures Times(a, 0.0) == 0.0 && Times(a, 1.0) == a
  {
  }

  lemma Distribute(x: real, y: real, s: real)
    ensures (x + y) * s == x * s + y * s
  {
  }

  lemma Associate(a: real, b: real, c: real)
    ensures a * b * c == a * (b * c)
  {
  }

  lemma Regroup(x: real, y: real, u: real, v: real)
    ensures x * y * (u * v) == (u * x) * (v * y)
  {
  }

  lemma ScaleThrough(z: real, a: real, c: real, b: real, d: real)
    ensures z * (a * c + b * d) == a * (z * c) + b * (z * d)
  {
  }

  lemma PositiveProduct(s: real, t: real, z: real)
    requires s > 0.0 && t > 0.0 && z == s * t
    ensures z > 0.0
  {
  }

  lemma NonnegativeProduct(s: real, t: real)
    requires s >= 0.0 && t >= 0.0
    ensures s * t >= 0.0
  {
  }

  lemma SquareSign(s: real, z: real)
    requires z == s * s
    ensures z >= 0.0
    ensures s != 0.0 ==> z > 0.0
  {
    if s > 0.0 {
      PositiveProduct(s, s, z);
    } else if s < 0.0 {
      var t := -s;
      assert t * t == s * s;
      PositiveProduct(t, t, z);
    }
  }

  lemma ZeroSquare(s: real)
    requires s * s <= 0.0
    ensures s == 0.0
  {
    SquareSign(s, s * s);
  }

  lemma NonnegativeCombination(a: real, p: real, b: real, q: real)
    requires a >= 0.0 && p >= 0.0 && b >= 0.0 && q >= 0.0
    ensures a * p + b * q >= 0.0
  {
  }

  lemma CancelPositive(m: real, z: real)
    ensures m > 0.0 && m * z >= 0.0 ==> z >= 0.0
  {
    if m > 0.0 && z < 0.0 { assert m * z < 0.0; }
  }

  lemma MultiplyInequality(a: real, b: real, c: real)
    requires a <= b && c >= 0.0
    ensures a * c <= b * c
  {
    NonnegativeProduct(b - a, c);
  }
}
