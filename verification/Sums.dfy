/**
 * Finite sums of reals, the common vocabulary of the numeric modules.
 *
 * A family of numbers is a function on the integers of which only a leading part matters; a matrix is a
 * function of two indices.  Sums over sequences go through Entries, which is zero outside the range.
 * Lemmas that involve products state them with Times, so that quantified facts about entries stay
 * linear for the verifier.
 */
module Sums {
  import opened RealAlgebra

  /** f(0) + f(1) + ... + f(n-1) */
  function Sum(f: int -> real, n: nat): real {
    if n == 0 then 0.0 else Sum(f, n - 1) + f(n - 1)
  }

  lemma {:induction false} SumCongruent(f: int -> real, g: int -> real, n: nat)
    requires forall i :: 0 <= i < n ==> f(i) == g(i)
    ensures Sum(f, n) == Sum(g, n)
  {
    if n != 0 { SumCongruent(f, g, n - 1); }
  }

  lemma {:induction false} SumMonotone(f: int -> real, g: int -> real, n: nat)
    requires forall i :: 0 <= i < n ==> f(i) <= g(i)
    ensures Sum(f, n) <= Sum(g, n)
  {
    if n != 0 { SumMonotone(f, g, n - 1); }
  }

  lemma {:induction false} SumNonnegative(f: int -> real, n: nat)
    requires forall i :: 0 <= i < n ==> f(i) >= 0.0
    ensures Sum(f, n) >= 0.0
  {
    if n != 0 { SumNonnegative(f, n - 1); }
  }

  /** A sum of non-negative terms is at least each of them, so it vanishes only when they all do. */
  lemma {:induction false} SumDominates(f: int -> real, n: nat, k: nat)
    requires forall i :: 0 <= i < n ==> f(i) >= 0.0
    requires k < n
    ensures f(k) <= Sum(f, n)
  {
    SumNonnegative(f, n - 1);
    if k < n - 1 { SumDominates(f, n - 1, k); }
  }

  lemma {:induction false} SumConstant(f: int -> real, n: nat, c: real)
    requires forall i :: 0 <= i < n ==> f(i) == c
    ensures Sum(f, n) == n as real * c
  {
    if n != 0 {
      SumConstant(f, n - 1, c);
      OneMoreTime((n - 1) as real, c);
    }
  }

  lemma OneMoreTime(m: real, c: real)
    ensures (m + 1.0) * c == m * c + c
  {
  }

  lemma {:induction false} SumZero(f: int -> real, n: nat)
    requires forall i :: 0 <= i < n ==> f(i) == 0.0
    ensures Sum(f, n) == 0.0
  {
    if n != 0 { SumZero(f, n - 1); }
  }

  /** A sum with at most one term that is not zero. */
  lemma {:induction false} SumSingle(f: int -> real, n: nat, k: nat)
    requires k < n && forall i :: 0 <= i < n && i != k ==> f(i) == 0.0
    ensures Sum(f, n) == f(k)
  {
    if k == n - 1 { SumZero(f, n - 1); } else { SumSingle(f, n - 1, k); }
  }

  lemma {:induction false} SumLinear(f: int -> real, g: int -> real, h: int -> real, a: real, b: real, n: nat)
    requires forall i :: 0 <= i < n ==> h(i) == a * f(i) + b * g(i)
    ensures Sum(h, n) == a * Sum(f, n) + b * Sum(g, n)
  {
    if n != 0 {
      SumLinear(f, g, h, a, b, n - 1);
      CombineTerms(a, Sum(f, n - 1), f(n - 1), b, Sum(g, n - 1), g(n - 1));
    }
  }

  lemma CombineTerms(a: real, x: real, u: real, b: real, y: real, v: real)
    ensures a * (x + u) + b * (y + v) == (a * x + b * y) + (a * u + b * v)
  {
  }

  lemma {:induction false} SumScale(f: int -> real, h: int -> real, a: real, n: nat)
    requires forall i :: 0 <= i < n ==> h(i) == Times(a, f(i))
    ensures Sum(h, n) == Times(a, Sum(f, n))
  {
    if n != 0 {
      SumScale(f, h, a, n - 1);
      TimesSum(a, Sum(f, n - 1), f(n - 1));
    }
  }

  lemma {:induction false} SumAdd(f: int -> real, g: int -> real, h: int -> real, n: nat)
    requires forall i :: 0 <= i < n ==> h(i) == f(i) + g(i)
    ensures Sum(h, n) == Sum(f, n) + Sum(g, n)
  {
    if n != 0 { SumAdd(f, g, h, n - 1); }
  }

  /** A sum splits at any point into a prefix and a shifted rest. */
  lemma {:induction false} SumSplit(f: int -> real, g: int -> real, m: nat, n: nat)
    requires forall i :: 0 <= i < n ==> g(i) == f(m + i)
    ensures Sum(f, m + n) == Sum(f, m) + Sum(g, n)
  {
    if n != 0 { SumSplit(f, g, m, n - 1); }
  }

  /** A matrix, as its entries; only those inside the stated dimensions matter. */
  type Matrix = (int, int) -> real

  function Row(F: Matrix, i: int): int -> real { j => F(i, j) }

  /** The sum of the m by n leading block. */
  function Sum2(F: Matrix, m: nat, n: nat): real {
    if m == 0 then 0.0 else Sum2(F, m - 1, n) + Sum(Row(F, m - 1), n)
  }

  lemma {:induction false} Sum2Monotone(F: Matrix, G: Matrix, m: nat, n: nat)
    requires forall i, j :: 0 <= i < m && 0 <= j < n ==> F(i, j) <= G(i, j)
    ensures Sum2(F, m, n) <= Sum2(G, m, n)
  {
    if m != 0 {
      Sum2Monotone(F, G, m - 1, n);
      SumMonotone(Row(F, m - 1), Row(G, m - 1), n);
    }
  }

  lemma {:induction false} Sum2Linear(F: Matrix, G: Matrix, H: Matrix, a: real, b: real, m: nat, n: nat)
    requires forall i, j :: 0 <= i < m && 0 <= j < n ==> H(i, j) == a * F(i, j) + b * G(i, j)
    ensures Sum2(H, m, n) == a * Sum2(F, m, n) + b * Sum2(G, m, n)
  {
    if m != 0 {
      Sum2Linear(F, G, H, a, b, m - 1, n);
      SumLinear(Row(F, m - 1), Row(G, m - 1), Row(H, m - 1), a, b, n);
    }
  }

  /** Summing row by row: the row sums are given by g. */
  lemma {:induction false} Sum2ByRows(F: Matrix, g: int -> real, m: nat, n: nat)
    requires forall i :: 0 <= i < m ==> Sum(Row(F, i), n) == g(i)
    ensures Sum2(F, m, n) == Sum(g, m)
  {
    if m != 0 { Sum2ByRows(F, g, m - 1, n); }
  }

  /** A product of two sums is the double sum of the products. */
  lemma {:induction false} SumProduct(f: int -> real, g: int -> real, F: Matrix, m: nat, n: nat)
    requires forall i, j :: 0 <= i < m && 0 <= j < n ==> F(i, j) == Times(f(i), g(j))
    ensures Sum2(F, m, n) == Times(Sum(f, m), Sum(g, n))
  {
    if m != 0 {
      SumProduct(f, g, F, m - 1, n);
      SumScale(g, Row(F, m - 1), f(m - 1), n);
      SumTimes(Sum(f, m - 1), f(m - 1), Sum(g, n));
    }
  }

  /** The order of summation does not matter. */
  lemma {:induction false} Sum2Transpose(F: Matrix, G: Matrix, m: nat, n: nat)
    requires forall i, j :: 0 <= i < m && 0 <= j < n ==> F(i, j) == G(j, i)
    ensures Sum2(F, m, n) == Sum2(G, n, m)
    decreases n
  {
    if n == 0 {
      var zero := (i: int) => 0.0;
      Sum2ByRows(F, zero, m, 0);
      SumZero(zero, m);
    } else {
      Sum2Transpose(F, G, m, n - 1);
      Sum2LastColumn(F, Row(G, n - 1), m, n);
    }
  }

  lemma {:induction false} Sum2LastColumn(F: Matrix, c: int -> real, m: nat, n: nat)
    requires n > 0 && forall i :: 0 <= i < m ==> F(i, n - 1) == c(i)
    ensures Sum2(F, m, n) == Sum2(F, m, n - 1) + Sum(c, m)
  {
    if m != 0 { Sum2LastColumn(F, c, m - 1, n); }
  }

  // ----- sequences of reals

  /** The entries of a sequence, zero outside its range. */
  function Entries(s: seq<real>): int -> real { i => if 0 <= i < |s| then s[i] else 0.0 }

  function Total(s: seq<real>): real { Sum(Entries(s), |s|) }

  function Products(w: seq<real>, s: seq<real>): int -> real { i => Times(Entries(w)(i), Entries(s)(i)) }

  lemma ProductAt(w: seq<real>, s: seq<real>, i: int)
    requires 0 <= i < |w| && i < |s|
    ensures Products(w, s)(i) == Times(w[i], s[i])
  {
    assert Entries(w)(i) == w[i] && Entries(s)(i) == s[i];
  }

  /** w_0 s_0 + w_1 s_1 + ... */
  function WeightedTotal(w: seq<real>, s: seq<real>): real { Sum(Products(w, s), |w|) }

  lemma SingleTotal(x: real)
    ensures Total([x]) == x
  {
    assert Sum(Entries([x]), 1) == Sum(Entries([x]), 0) + Entries([x])(0);
  }

  lemma TotalConcat(s: seq<real>, t: seq<real>)
    ensures Total(s + t) == Total(s) + Total(t)
  {
    SumSplit(Entries(s + t), Entries(t), |s|, |t|);
    SumCongruent(Entries(s + t), Entries(s), |s|);
  }

  lemma WeightedTotalAdds(w: seq<real>, a: seq<real>, b: seq<real>, c: seq<real>)
    requires |a| == |w| && |b| == |w| && |c| == |w|
    requires forall i :: 0 <= i < |w| ==> c[i] == a[i] + b[i]
    ensures WeightedTotal(w, c) == WeightedTotal(w, a) + WeightedTotal(w, b)
  {
    forall i | 0 <= i < |w| ensures Products(w, c)(i) == Products(w, a)(i) + Products(w, b)(i) {
      ProductAt(w, a, i);
      ProductAt(w, b, i);
      ProductAt(w, c, i);
      TimesSum(w[i], a[i], b[i]);
    }
    SumAdd(Products(w, a), Products(w, b), Products(w, c), |w|);
  }

  lemma WeightedTotalOfZeros(w: seq<real>, s: seq<real>)
    requires |s| == |w| && forall i :: 0 <= i < |w| ==> s[i] == 0.0
    ensures WeightedTotal(w, s) == 0.0
  {
    forall i | 0 <= i < |w| ensures Products(w, s)(i) == 0.0 { ProductAt(w, s, i); }
    SumZero(Products(w, s), |w|);
  }

  lemma WeightedTotalOfSingle(w: seq<real>, s: seq<real>, k: nat)
    requires |s| == |w| && k < |w| && forall i :: 0 <= i < |w| && i != k ==> s[i] == 0.0
    ensures WeightedTotal(w, s) == Times(w[k], s[k])
  {
    forall i | 0 <= i < |w| ensures Products(w, s)(i) == Times(w[i], s[i]) { ProductAt(w, s, i); }
    SumSingle(Products(w, s), |w|, k);
  }

  /** Non-negative weights that add up to one. */
  ghost predicate IsProbabilityVector(w: seq<real>) {
    (forall i :: 0 <= i < |w| ==> 0.0 <= w[i] <= 1.0) && Total(w) == 1.0
  }
}
