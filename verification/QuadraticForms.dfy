/**
 * Quadratic forms x'Cx and positive semidefiniteness of the leading n by n block of C.
 *
 * The forms needed here are combinations, outer products, diagonal matrices, principal blocks picked by
 * a list of positions, and pairs of coordinates.  The Cauchy-Schwarz inequality is used in the shape
 * that bounds a squared sum by n times the sum of the squares.
 */
module QuadraticForms {
  import opened RealAlgebra
  import opened Sums

  function Weighted(C: Matrix, x: int -> real): Matrix {
    (i, j) => x(i) * x(j) * C(i, j)
  }

  function Quad(C: Matrix, x: int -> real, n: nat): real {
    Sum2(Weighted(C, x), n, n)
  }

  ghost predicate PositiveSemidefinite(C: Matrix, n: nat) {
    forall x: int -> real :: Quad(C, x, n) >= 0.0
  }

  function Product(f: int -> real, g: int -> real): int -> real { i => f(i) * g(i) }

  function Dot(f: int -> real, g: int -> real, n: nat): real { Sum(Product(f, g), n) }

  lemma QuadLinear(C: Matrix, D: Matrix, E: Matrix, a: real, b: real, x: int -> real, n: nat)
    requires forall i, j :: 0 <= i < n && 0 <= j < n ==> E(i, j) == a * C(i, j) + b * D(i, j)
    ensures Quad(E, x, n) == a * Quad(C, x, n) + b * Quad(D, x, n)
  {
    forall i, j | 0 <= i < n && 0 <= j < n
      ensures Weighted(E, x)(i, j) == a * Weighted(C, x)(i, j) + b * Weighted(D, x)(i, j)
    {
      ScaleThrough(x(i) * x(j), a, C(i, j), b, D(i, j));
    }
    Sum2Linear(Weighted(C, x), Weighted(D, x), Weighted(E, x), a, b, n, n);
  }

  lemma CombinationIsPositiveSemidefinite(C: Matrix, D: Matrix, E: Matrix, a: real, b: real, n: nat)
    requires PositiveSemidefinite(C, n) && PositiveSemidefinite(D, n) && a >= 0.0 && b >= 0.0
    requires forall i, j :: 0 <= i < n && 0 <= j < n ==> E(i, j) == a * C(i, j) + b * D(i, j)
    ensures PositiveSemidefinite(E, n)
  {
    forall x: int -> real ensures Quad(E, x, n) >= 0.0 {
      QuadLinear(C, D, E, a, b, x, n);
      NonnegativeCombination(a, Quad(C, x, n), b, Quad(D, x, n));
    }
  }

  /** The form of an outer product uu' is the square of u'x. */
  lemma QuadOuter(C: Matrix, u: int -> real, x: int -> real, n: nat)
    requires forall i, j :: 0 <= i < n && 0 <= j < n ==> C(i, j) == u(i) * u(j)
    ensures Quad(C, x, n) == Dot(u, x, n) * Dot(u, x, n)
  {
    var y := Product(u, x);
    forall i, j | 0 <= i < n && 0 <= j < n ensures Weighted(C, x)(i, j) == y(i) * y(j) {
      Regroup(x(i), x(j), u(i), u(j));
    }
    SumProduct(y, y, Weighted(C, x), n, n);
  }

  /** The form of a diagonal matrix is a weighted sum of squares. */
  lemma QuadDiagonal(C: Matrix, s: int -> real, x: int -> real, n: nat)
    requires forall i, j :: 0 <= i < n && 0 <= j < n ==> C(i, j) == if i == j then s(i) * s(i) else 0.0
    ensures var y := Product(s, x); Quad(C, x, n) == Dot(y, y, n)
  {
    var y := Product(s, x);
    forall i | 0 <= i < n ensures Sum(Row(Weighted(C, x), i), n) == Product(y, y)(i) {
      SumSingle(Row(Weighted(C, x), i), n, i);
      Regroup(x(i), x(i), s(i), s(i));
    }
    Sum2ByRows(Weighted(C, x), Product(y, y), n, n);
  }

  /** (y_0 + ... + y_{n-1})^2 <= n (y_0^2 + ... + y_{n-1}^2) */
  lemma {:induction false} CauchySchwarzOnes(y: int -> real, n: nat)
    ensures Sum(y, n) * Sum(y, n) <= n as real * Dot(y, y, n)
    ensures Dot(y, y, n) >= 0.0
  {
    if n != 0 {
      CauchySchwarzOnes(y, n - 1);
      SquareStep(Sum(y, n - 1), Dot(y, y, n - 1), y(n - 1), n - 1);
    }
  }

  lemma SquareStep(s: real, q: real, v: real, n: nat)
    requires s * s <= n as real * q && q >= 0.0
    ensures (s + v) * (s + v) <= (n + 1) as real * (q + v * v)
    ensures q + v * v >= 0.0
  {
    var m := n as real;
    SquareSign(v, v * v);
    if n == 0 {
      ZeroSquare(s);
    } else {
      TwiceProduct(s, v, m, q);
      assert (s + v) * (s + v) == s * s + 2.0 * (s * v) + v * v;
      assert (m + 1.0) * (q + v * v) == m * q + q + m * (v * v) + v * v;
    }
  }

  lemma TwiceProduct(s: real, v: real, m: real, q: real)
    requires m >= 1.0 && s * s <= m * q
    ensures 2.0 * (s * v) <= q + m * (v * v)
  {
    var d := s - m * v;
    SquareSign(d, d * d);
    calc {
      d * d;
    ==
      s * s - 2.0 * m * (s * v) + m * m * (v * v);
    <=
      m * q - 2.0 * m * (s * v) + m * m * (v * v);
    ==
      m * (q - 2.0 * (s * v) + m * (v * v));
    }
    CancelPositive(m, q - 2.0 * (s * v) + m * (v * v));
  }

  // ----- selecting rows and columns by a list of indices

  function Pick(items: seq<nat>, k: int): nat {
    if 0 <= k < |items| then items[k] else 0
  }

  /** cov[np.ix_(items, items)] */
  function Submatrix(C: Matrix, items: seq<nat>): Matrix {
    (k, l) => C(Pick(items, k), Pick(items, l))
  }

  function Hit(items: seq<nat>, v: int -> real, i: int): int -> real {
    k => if Pick(items, k) == i then v(k) else 0.0
  }

  /** The vector over the original indices whose coefficient at i collects v over the places where items names i. */
  function Scatter(items: seq<nat>, v: int -> real): int -> real {
    i => Sum(Hit(items, v, i), |items|)
  }

  /** g read through the list of indices. */
  function Through(items: seq<nat>, g: int -> real): int -> real {
    k => g(Pick(items, k))
  }

  function Incidence(items: seq<nat>, v: int -> real, g: int -> real): Matrix {
    (i, k) => if Pick(items, k) == i then v(k) * g(i) else 0.0
  }

  function Transposed(F: Matrix): Matrix { (i, j) => F(j, i) }

  /** Pairing a scattered vector with g is pairing v with g read through items. */
  lemma ScatterDot(items: seq<nat>, v: int -> real, g: int -> real, n: nat)
    requires forall i :: i in items ==> i < n
    ensures Dot(Scatter(items, v), g, n) == Dot(v, Through(items, g), |items|)
  {
    var x, F, m := Scatter(items, v), Incidence(items, v, g), |items|;
    var G, read := Transposed(F), Product(v, Through(items, g));
    forall i | 0 <= i < n ensures Sum(Row(F, i), m) == Product(x, g)(i) {
      SumScale(Hit(items, v, i), Row(F, i), g(i), m);
    }
    Sum2ByRows(F, Product(x, g), n, m);
    Sum2Transpose(F, G, n, m);
    forall k | 0 <= k < m ensures Sum(Row(G, k), n) == read(k) {
      var i: nat := Pick(items, k);
      assert i in items;
      SumSingle(Row(G, k), n, i);
    }
    Sum2ByRows(G, read, m, n);
  }

  /** x'Cx, one row of C at a time. */
  lemma QuadByRows(C: Matrix, x: int -> real, h: int -> real, n: nat)
    requires forall i :: 0 <= i < n ==> h(i) == Dot(x, Row(C, i), n)
    ensures Quad(C, x, n) == Dot(x, h, n)
  {
    forall i | 0 <= i < n ensures Sum(Row(Weighted(C, x), i), n) == Product(x, h)(i) {
      RowOfForm(C, x, i, n);
    }
    Sum2ByRows(Weighted(C, x), Product(x, h), n, n);
  }

  lemma RowOfForm(C: Matrix, x: int -> real, i: int, n: nat)
    ensures Sum(Row(Weighted(C, x), i), n) == x(i) * Dot(x, Row(C, i), n)
  {
    forall j | 0 <= j < n ensures Row(Weighted(C, x), i)(j) == x(i) * Product(x, Row(C, i))(j) {
      Associate(x(i), x(j), C(i, j));
    }
    SumScale(Product(x, Row(C, i)), Row(Weighted(C, x), i), x(i), n);
  }

  /** The form of a submatrix at v is the form of the whole matrix at the scattered v. */
  lemma QuadOfSubmatrix(C: Matrix, items: seq<nat>, v: int -> real, n: nat)
    requires forall i :: i in items ==> i < n
    ensures Quad(Submatrix(C, items), v, |items|) == Quad(C, Scatter(items, v), n)
  {
    var x, D, m := Scatter(items, v), Submatrix(C, items), |items|;
    var h: int -> real := i => Dot(x, Row(C, i), n);
    QuadByRows(C, x, h, n);
    ScatterDot(items, v, h, n);
    forall k | 0 <= k < m ensures Through(items, h)(k) == Dot(v, Row(D, k), m) {
      var i := Pick(items, k);
      ScatterDot(items, v, Row(C, i), n);
      SumCongruent(Product(v, Through(items, Row(C, i))), Product(v, Row(D, k)), m);
    }
    QuadByRows(D, v, Through(items, h), m);
  }

  lemma SubmatrixIsPositiveSemidefinite(C: Matrix, items: seq<nat>, n: nat)
    requires PositiveSemidefinite(C, n) && forall i :: i in items ==> i < n
    ensures PositiveSemidefinite(Submatrix(C, items), |items|)
  {
    forall v: int -> real ensures Quad(Submatrix(C, items), v, |items|) >= 0.0 {
      QuadOfSubmatrix(C, items, v, n);
    }
  }
}
