/** Ledoit-Wolf shrinkage of a sample covariance toward a constant-correlation target. */
module LedoitWolf {
  import opened RealAlgebra
  import opened Sums
  import opened QuadraticForms

  // A returns matrix X has T rows (periods) and N columns (factors).  The square root is not computable over
  // the reals, so the standard deviations come in as the parameter std.

  const VARIANCE_FLOOR := 0.000000000001
  const GAMMA_FLOOR := 0.000000000000000001

  function Mean(f: int -> real, T: nat): real
    requires T > 0
  {
    Sum(f, T) / T as real
  }

  function Column(X: Matrix, j: int): int -> real { t => X(t, j) }

  function Centered(X: Matrix, T: nat): Matrix
    requires T > 0
  {
    (t, j) => X(t, j) - Mean(Column(X, j), T)
  }

  /** Each column of Xc averages to zero over the T periods and moves from period to period as in X. */
  ghost predicate IsCentering(Xc: Matrix, X: Matrix, T: nat, N: nat) {
    && (forall j :: 0 <= j < N ==> Sum(Column(Xc, j), T) == 0.0)
    && (forall s, t, j :: 0 <= s < T && 0 <= t < T && 0 <= j < N ==> Xc(t, j) - Xc(s, j) == X(t, j) - X(s, j))
  }

  lemma CenteredIsCentering(X: Matrix, T: nat, N: nat)
    requires T > 0
    ensures IsCentering(Centered(X, T), X, T, N)
  {
    forall j | 0 <= j < N ensures Sum(Column(Centered(X, T), j), T) == 0.0 {
      var mean := Mean(Column(X, j), T);
      var constant := (t: int) => mean;
      SumConstant(constant, T, mean);
      SumLinear(Column(X, j), constant, Column(Centered(X, T), j), 1.0, -1.0, T);
    }
  }

  function Comoment(Xc: Matrix, i: int, j: int): int -> real { t => Xc(t, i) * Xc(t, j) }

  function Sample(Xc: Matrix, T: nat): Matrix
    requires T > 0
  {
    (i, j) => Mean(Comoment(Xc, i, j), T)
  }

  function Floored(v: real): real { if v <= 0.0 then VARIANCE_FLOOR else v }

  function Variances(S: Matrix): int -> real { i => Floored(S(i, i)) }

  /** std holds the square roots of the (floored, hence positive) variances. */
  ghost predicate IsStd(std: int -> real, S: Matrix, N: nat) {
    forall i :: 0 <= i < N ==> std(i) > 0.0 && std(i) * std(i) == Variances(S)(i)
  }

  function Correlation(S: Matrix, std: int -> real): Matrix {
    (i, j) => if i == j then 1.0 else Ratio(S(i, j), Times(std(i), std(j)))
  }

  function AverageCorrelation(S: Matrix, std: int -> real, N: nat): real
    requires N >= 2
  {
    PositiveProduct(N as real, (N - 1) as real, Times(N as real, (N - 1) as real));
    (Sum2(Correlation(S, std), N, N) - N as real) / Times(N as real, (N - 1) as real)
  }

  function Target(avg: real, S: Matrix, std: int -> real): Matrix {
    (i, j) => if i == j then Variances(S)(i) else avg * Times(std(i), std(j))
  }

  function PiTerm(Xc: Matrix, S: Matrix, i: int, j: int): int -> real {
    t => var d := Xc(t, i) * Xc(t, j) - S(i, j); d * d
  }

  function Pi(Xc: Matrix, S: Matrix, T: nat): Matrix
    requires T > 0
  {
    (i, j) => Mean(PiTerm(Xc, S, i, j), T)
  }

  function ThetaTerm(Xc: Matrix, S: Matrix, k: int, i: int, j: int): int -> real {
    t => (Xc(t, k) * Xc(t, k) - S(k, k)) * (Xc(t, i) * Xc(t, j) - S(i, j))
  }

  function RhoTerm(avg: real, stdI: real, stdJ: real, thetaII: real, thetaJJ: real): real {
    avg / 2.0 * (Ratio(stdJ, stdI) * thetaII + Ratio(stdI, stdJ) * thetaJJ)
  }

  /** The contribution of the pair (i, j) to rho_hat beyond the trace of pi. */
  function Rho(Xc: Matrix, S: Matrix, std: int -> real, avg: real, T: nat): Matrix
    requires T > 0
  {
    (i, j) =>
      if i == j then 0.0
      else RhoTerm(avg, std(i), std(j), Mean(ThetaTerm(Xc, S, i, i, j), T), Mean(ThetaTerm(Xc, S, j, i, j), T))
  }

  function Diagonal(F: Matrix): int -> real { i => F(i, i) }

  function SquaredGap(F: Matrix, G: Matrix): Matrix {
    (i, j) => (F(i, j) - G(i, j)) * (F(i, j) - G(i, j))
  }

  function Intensity(pi: real, rho: real, gamma: real, T: nat): real
    requires T > 0
  {
    if gamma <= GAMMA_FLOOR then 0.0
    else
      var k := (pi - rho) / gamma / T as real;
      var capped := if k < 1.0 then k else 1.0;
      if capped > 0.0 then capped else 0.0
  }

  /** The shrinkage intensity, with every estimate written as the double sum it stands for. */
  function ShrinkageIntensity(Xc: Matrix, T: nat, N: nat, std: int -> real): real
    requires T > 0 && N >= 2
  {
    var S := Sample(Xc, T);
    var avg := AverageCorrelation(S, std, N);
    Intensity(Sum2(Pi(Xc, S, T), N, N),
              Sum(Diagonal(Pi(Xc, S, T)), N) + Sum2(Rho(Xc, S, std, avg, T), N, N),
              Sum2(SquaredGap(Target(avg, S, std), S), N, N),
              T)
  }

  // ----- the sample covariance is a sum of squares

  function Exposure(Xc: Matrix, x: int -> real, N: nat): int -> real {
    t => Dot(Row(Xc, t), x, N)
  }

  function Gram(Xc: Matrix, T: nat): Matrix { (i, j) => Sum(Comoment(Xc, i, j), T) }

  lemma {:induction false} GramIsSumOfSquares(Xc: Matrix, x: int -> real, T: nat, N: nat)
    ensures var e := Exposure(Xc, x, N); Quad(Gram(Xc, T), x, N) == Dot(e, e, T)
  {
    if T == 0 {
      QuadLinear(Gram(Xc, 0), Gram(Xc, 0), Gram(Xc, 0), 0.0, 0.0, x, N);
    } else {
      GramIsSumOfSquares(Xc, x, T - 1, N);
      GramStep(Xc, x, T - 1, N);
    }
  }

  lemma GramStep(Xc: Matrix, x: int -> real, T: nat, N: nat)
    ensures var e := Exposure(Xc, x, N)(T); Quad(Gram(Xc, T + 1), x, N) == Quad(Gram(Xc, T), x, N) + e * e
  {
    var last := Outer(Row(Xc, T));
    QuadOuter(last, Row(Xc, T), x, N);
    forall i, j | 0 <= i < N && 0 <= j < N ensures Gram(Xc, T + 1)(i, j) == Gram(Xc, T)(i, j) + last(i, j) {
      assert Comoment(Xc, i, j)(T) == last(i, j);
    }
    QuadAdd(Gram(Xc, T), last, Gram(Xc, T + 1), x, N);
  }

  function Outer(u: int -> real): Matrix { (i, j) => u(i) * u(j) }

  lemma QuadAdd(C: Matrix, D: Matrix, E: Matrix, x: int -> real, n: nat)
    requires forall i, j :: 0 <= i < n && 0 <= j < n ==> E(i, j) == C(i, j) + D(i, j)
    ensures Quad(E, x, n) == Quad(C, x, n) + Quad(D, x, n)
  {
    QuadLinear(C, D, E, 1.0, 1.0, x, n);
  }

  /** x' sample x is the mean over periods of the squared exposure of x. */
  lemma SampleIsSumOfSquares(Xc: Matrix, x: int -> real, T: nat, N: nat)
    requires T > 0
    ensures var e := Exposure(Xc, x, N); Quad(Sample(Xc, T), x, N) == Mean(Product(e, e), T)
  {
    var e := Exposure(Xc, x, N);
    GramIsSumOfSquares(Xc, x, T, N);
    QuadLinear(Gram(Xc, T), Gram(Xc, T), Sample(Xc, T), 1.0 / T as real, 0.0, x, N);
  }

  lemma SampleIsPositiveSemidefinite(Xc: Matrix, T: nat, N: nat)
    requires T > 0
    ensures PositiveSemidefinite(Sample(Xc, T), N)
    ensures forall i :: 0 <= i < N ==> Sample(Xc, T)(i, i) >= 0.0
  {
    forall x: int -> real ensures Quad(Sample(Xc, T), x, N) >= 0.0 {
      var e := Exposure(Xc, x, N);
      SampleIsSumOfSquares(Xc, x, T, N);
      CauchySchwarzOnes(e, T);
    }
    forall i | 0 <= i < N ensures Sample(Xc, T)(i, i) >= 0.0 {
      CauchySchwarzOnes(Column(Xc, i), T);
      SumCongruent(Product(Column(Xc, i), Column(Xc, i)), Comoment(Xc, i, i), T);
    }
  }

  // ----- correlations and their average

  function PairVector(a: real, b: real): int -> real { k => if k == 0 then a else b }

  lemma PairForm(C: Matrix, v: int -> real)
    ensures Quad(C, v, 2) == v(0) * v(0) * C(0, 0) + v(0) * v(1) * C(0, 1)
                             + (v(1) * v(0) * C(1, 0) + v(1) * v(1) * C(1, 1))
  {
    var F := Weighted(C, v);
    assert Sum(Row(F, 0), 1) == F(0, 0);
    assert Sum(Row(F, 1), 1) == F(1, 0);
    assert Sum(Row(F, 0), 2) == F(0, 0) + F(0, 1);
    assert Sum(Row(F, 1), 2) == F(1, 0) + F(1, 1);
    assert Sum2(F, 1, 2) == Sum(Row(F, 0), 2);
  }

  lemma ReciprocalSquare(s: real, v: real, a: real)
    requires s > 0.0 && s * s == v && 0.0 <= a <= v
    ensures var p := Ratio(1.0, s); p * p * a <= 1.0
  {
    var p := 1.0 / s;
    assert p * s == 1.0;
    Regroup(p, p, s, s);
    assert p * p * v == 1.0;
    SquareSign(p, p * p);
    MultiplyInequality(a, v, p * p);
  }

  lemma ReciprocalProduct(s: real, t: real, c: real)
    requires s > 0.0 && t > 0.0
    ensures Ratio(1.0, s) * Ratio(1.0, t) * c == Ratio(c, Times(s, t))
  {
    PositiveProduct(s, t, s * t);
    var p, q := 1.0 / s, 1.0 / t;
    assert p * s == 1.0 && q * t == 1.0;
    Regroup(p, q, s, t);
    assert p * q * (s * t) == 1.0;
    Cancel(p * q, s * t, c);
  }

  lemma Cancel(r: real, d: real, c: real)
    requires d > 0.0 && r * d == 1.0
    ensures r * c == c / d
  {
    assert r * c * d == c;
  }

  /** The form at p e_i + q e_j. */
  lemma PairFormIsNonnegative(S: Matrix, N: nat, i: nat, j: nat, p: real, q: real)
    requires PositiveSemidefinite(S, N) && i < N && j < N
    ensures p * p * S(i, i) + p * q * S(i, j) + (q * p * S(j, i) + q * q * S(j, j)) >= 0.0
  {
    var items: seq<nat> := [i, j];
    var C, v := Submatrix(S, items), PairVector(p, q);
    SubmatrixIsPositiveSemidefinite(S, items, N);
    assert Quad(C, v, 2) >= 0.0;
    PairForm(C, v);
    assert Pick(items, 0) == i && Pick(items, 1) == j;
    assert C(0, 0) == S(i, i) && C(0, 1) == S(i, j) && C(1, 0) == S(j, i) && C(1, 1) == S(j, j);
  }

  /** Variances a and b no larger than s^2 and t^2, and a non-negative form at e_i/s - e_j/t, bound c/(st) by 1. */
  lemma CrossTermBound(s: real, t: real, a: real, b: real, c: real)
    requires s > 0.0 && t > 0.0 && 0.0 <= a <= s * s && 0.0 <= b <= t * t
    requires var p, q := Ratio(1.0, s), -Ratio(1.0, t); p * p * a + p * q * c + (q * p * c + q * q * b) >= 0.0
    ensures Ratio(c, Times(s, t)) <= 1.0
  {
    var p, q := Ratio(1.0, s), Ratio(1.0, t);
    ReciprocalSquare(s, s * s, a);
    ReciprocalSquare(t, t * t, b);
    assert (-q) * (-q) * b == q * q * b;
    assert p * (-q) * c == -(p * q * c);
    assert (-q) * p * c == -(p * q * c);
    ReciprocalProduct(s, t, c);
  }

  lemma StdAt(std: int -> real, S: Matrix, N: nat, i: nat)
    requires IsStd(std, S, N) && i < N && S(i, i) >= 0.0
    ensures std(i) > 0.0 && 0.0 <= S(i, i) <= std(i) * std(i)
  {
  }

  lemma CorrelationAtMostOne(S: Matrix, std: int -> real, N: nat, i: nat, j: nat)
    requires PositiveSemidefinite(S, N) && IsStd(std, S, N) && i < N && j < N
    requires S(i, i) >= 0.0 && S(j, j) >= 0.0 && S(i, j) == S(j, i)
    ensures Correlation(S, std)(i, j) <= 1.0
  {
    if i != j {
      StdAt(std, S, N, i);
      StdAt(std, S, N, j);
      PairFormIsNonnegative(S, N, i, j, Ratio(1.0, std(i)), -Ratio(1.0, std(j)));
      CrossTermBound(std(i), std(j), S(i, i), S(j, j), S(i, j));
    }
  }

  lemma SampleIsSymmetric(Xc: Matrix, T: nat, i: int, j: int)
    requires T > 0
    ensures Sample(Xc, T)(i, j) == Sample(Xc, T)(j, i)
  {
    SumCongruent(Comoment(Xc, i, j), Comoment(Xc, j, i), T);
  }

  function Reciprocals(std: int -> real): int -> real { i => Ratio(1.0, std(i)) }

  lemma EntryBounds(S: Matrix, std: int -> real, N: nat, i: nat, j: nat)
    requires PositiveSemidefinite(S, N) && IsStd(std, S, N) && i < N && j < N
    requires S(i, i) >= 0.0 && S(j, j) >= 0.0 && S(i, j) == S(j, i)
    ensures Weighted(S, Reciprocals(std))(i, j) <= Correlation(S, std)(i, j) <= 1.0
  {
    CorrelationAtMostOne(S, std, N, i, j);
    StdAt(std, S, N, i);
    StdAt(std, S, N, j);
    if i == j {
      ReciprocalSquare(std(i), std(i) * std(i), S(i, i));
    } else {
      ReciprocalProduct(std(i), std(j), S(i, j));
    }
  }

  /** The grand sum of the correlation matrix is non-negative and at most N^2. */
  lemma CorrelationSumBounds(S: Matrix, std: int -> real, N: nat)
    requires PositiveSemidefinite(S, N) && IsStd(std, S, N)
    requires forall k :: 0 <= k < N ==> S(k, k) >= 0.0
    requires forall k, l :: 0 <= k < N && 0 <= l < N ==> S(k, l) == S(l, k)
    ensures 0.0 <= Sum2(Correlation(S, std), N, N) <= N as real * N as real
  {
    var R, z := Correlation(S, std), Reciprocals(std);
    var one := (i: int) => 1.0;
    var ones: Matrix := (i, j) => 1.0;
    forall i, j | 0 <= i < N && 0 <= j < N ensures Weighted(S, z)(i, j) <= R(i, j) <= ones(i, j) {
      EntryBounds(S, std, N, i, j);
    }
    assert Quad(S, z, N) >= 0.0;
    Sum2Monotone(Weighted(S, z), R, N, N);
    Sum2Monotone(R, ones, N, N);
    SumProduct(one, one, ones, N, N);
    SumConstant(one, N, 1.0);
  }

  lemma AverageCorrelationBounds(S: Matrix, std: int -> real, N: nat)
    requires N >= 2 && PositiveSemidefinite(S, N) && IsStd(std, S, N)
    requires forall k :: 0 <= k < N ==> S(k, k) >= 0.0
    requires forall k, l :: 0 <= k < N && 0 <= l < N ==> S(k, l) == S(l, k)
    ensures -1.0 / (N - 1) as real <= AverageCorrelation(S, std, N) <= 1.0
  {
    CorrelationSumBounds(S, std, N);
    PositiveProduct(N as real, (N - 1) as real, Times(N as real, (N - 1) as real));
    QuotientBounds(Sum2(Correlation(S, std), N, N), N as real, (N - 1) as real);
  }

  lemma QuotientBounds(s: real, n: real, m: real)
    requires n >= 2.0 && m == n - 1.0 && 0.0 <= s <= n * n && Times(n, m) > 0.0
    ensures -1.0 / m <= (s - n) / Times(n, m) <= 1.0
  {
    var d := Times(n, m);
    assert d == n * n - n;
    var q := (s - n) / d;
    assert q * d == s - n;
    CancelPositive(d, 1.0 - q);
    var r := -1.0 / m;
    assert r * m == -1.0;
    assert r * d == -n by { Associate(r, m, n); }
    CancelPositive(d, q - r);
  }

  // ----- the constant-correlation target

  function DiagonalPart(std: int -> real): Matrix { (i, j) => if i == j then Times(std(i), std(i)) else 0.0 }

  function OuterPart(std: int -> real): Matrix { (i, j) => Times(std(i), std(j)) }

  lemma TargetEntry(S: Matrix, std: int -> real, avg: real, N: nat, i: nat, j: nat)
    requires IsStd(std, S, N) && i < N && j < N
    ensures Target(avg, S, std)(i, j) == (1.0 - avg) * DiagonalPart(std)(i, j) + avg * OuterPart(std)(i, j)
  {
    Distribute(1.0 - avg, avg, Times(std(i), std(j)));
  }

  /** The target is (1 - avg) diag(std^2) + avg std std'. */
  lemma TargetSplits(S: Matrix, std: int -> real, avg: real, x: int -> real, N: nat)
    requires IsStd(std, S, N)
    ensures Quad(Target(avg, S, std), x, N)
         == (1.0 - avg) * Quad(DiagonalPart(std), x, N) + avg * Quad(OuterPart(std), x, N)
  {
    var diag, outer, target := DiagonalPart(std), OuterPart(std), Target(avg, S, std);
    forall i, j | 0 <= i < N && 0 <= j < N ensures target(i, j) == (1.0 - avg) * diag(i, j) + avg * outer(i, j) {
      TargetEntry(S, std, avg, N, i, j);
    }
    QuadLinear(diag, outer, target, 1.0 - avg, avg, x, N);
  }

  lemma TargetForm(S: Matrix, std: int -> real, avg: real, x: int -> real, N: nat)
    requires IsStd(std, S, N)
    ensures var y := Product(std, x);
            Quad(Target(avg, S, std), x, N) == (1.0 - avg) * Dot(y, y, N) + avg * Times(Sum(y, N), Sum(y, N))
  {
    TargetSplits(S, std, avg, x, N);
    QuadDiagonal(DiagonalPart(std), std, x, N);
    QuadOuter(OuterPart(std), std, x, N);
  }

  lemma ConstantCorrelationForm(avg: real, q: real, s2: real, n: real)
    requires n >= 2.0 && -1.0 / (n - 1.0) <= avg <= 1.0
    requires q >= 0.0 && 0.0 <= s2 <= n * q
    ensures (1.0 - avg) * q + avg * s2 >= 0.0
  {
    if avg >= 0.0 {
      NonnegativeCombination(1.0 - avg, q, avg, s2);
    } else {
      MultiplyInequality(s2, n * q, -avg);
      var r := -1.0 / (n - 1.0);
      assert r * (n - 1.0) == -1.0;
      MultiplyInequality(r, avg, n - 1.0);
      NonnegativeProduct(1.0 + avg * (n - 1.0), q);
      assert (1.0 - avg) * q + avg * (n * q) == (1.0 + avg * (n - 1.0)) * q;
    }
  }

  lemma TargetIsPositiveSemidefinite(S: Matrix, std: int -> real, avg: real, N: nat)
    requires N >= 2 && IsStd(std, S, N) && -1.0 / (N - 1) as real <= avg <= 1.0
    ensures PositiveSemidefinite(Target(avg, S, std), N)
  {
    forall x: int -> real ensures Quad(Target(avg, S, std), x, N) >= 0.0 {
      var y := Product(std, x);
      TargetForm(S, std, avg, x, N);
      CauchySchwarzOnes(y, N);
      SquareSign(Sum(y, N), Times(Sum(y, N), Sum(y, N)));
      ConstantCorrelationForm(avg, Dot(y, y, N), Times(Sum(y, N), Sum(y, N)), N as real);
    }
  }

  // ----- the estimator

  function Shrunk(delta: real, target: Matrix, S: Matrix): Matrix {
    (i, j) => delta * target(i, j) + (1.0 - delta) * S(i, j)
  }

  // ----- what the intensity is for

  function RowGap(F: Matrix, G: Matrix, i: int): int -> real { j => F(i, j) - G(i, j) }

  function RowDistance(F: Matrix, G: Matrix, N: nat): int -> real {
    i => Dot(RowGap(F, G, i), RowGap(F, G, i), N)
  }

  /** The squared distance between two matrices, row by row. */
  function Distance(F: Matrix, G: Matrix, N: nat): real { Sum(RowDistance(F, G, N), N) }

  lemma DistanceIsGap(F: Matrix, G: Matrix, N: nat)
    ensures Distance(F, G, N) == Sum2(SquaredGap(F, G), N, N)
  {
    forall i | 0 <= i < N ensures Sum(Row(SquaredGap(F, G), i), N) == RowDistance(F, G, N)(i) {
      SumCongruent(Row(SquaredGap(F, G), i), Product(RowGap(F, G, i), RowGap(F, G, i)), N);
    }
    Sum2ByRows(SquaredGap(F, G), RowDistance(F, G, N), N, N);
  }

  lemma ShrunkDistance(d: real, target: Matrix, S: Matrix, N: nat)
    ensures Distance(Shrunk(d, target, S), S, N) == d * d * Sum2(SquaredGap(target, S), N, N)
  {
    var M := Shrunk(d, target, S);
    DistanceIsGap(M, S, N);
    ScaledGap(d, d * d, target, S, M, N);
  }

  lemma ScaledGap(d: real, q: real, target: Matrix, S: Matrix, M: Matrix, N: nat)
    requires q == d * d && M == Shrunk(d, target, S)
    ensures Sum2(SquaredGap(M, S), N, N) == q * Sum2(SquaredGap(target, S), N, N)
  {
    var F, H := SquaredGap(target, S), SquaredGap(M, S);
    forall i, j | 0 <= i < N && 0 <= j < N ensures H(i, j) == q * F(i, j) + 0.0 * F(i, j) {
      ShrunkGap(d, target(i, j), S(i, j));
    }
    Sum2Linear(F, F, H, q, 0.0, N, N);
  }

  lemma ShrunkGap(d: real, f: real, s: real)
    ensures var m := d * f + (1.0 - d) * s; (m - s) * (m - s) == d * d * ((f - s) * (f - s))
  {
    assert d * f + (1.0 - d) * s - s == d * (f - s);
  }

  /** The estimated loss of shrinking by d, up to what does not depend on d: the squared move away from the
    * sample over T periods, less what the move is expected to remove. */
  function ShrinkageLoss(d: real, target: Matrix, S: Matrix, pi: real, rho: real, T: nat, N: nat): real {
    T as real * Distance(Shrunk(d, target, S), S, N) - 2.0 * d * (pi - rho)
  }

  /** Every other intensity in [0, 1] is worse, by the squared difference times T gamma. */
  ghost predicate IsLeastLoss(d: real, target: Matrix, S: Matrix, pi: real, rho: real, T: nat, N: nat) {
    forall e: real :: 0.0 <= e <= 1.0 ==>
      ShrinkageLoss(e, target, S, pi, rho, T, N)
        >= ShrinkageLoss(d, target, S, pi, rho, T, N)
           + T as real * Sum2(SquaredGap(target, S), N, N) * ((e - d) * (e - d))
  }

  lemma IntensityMinimizesLoss(target: Matrix, S: Matrix, pi: real, rho: real, T: nat, N: nat)
    requires T > 0
    ensures var gamma := Sum2(SquaredGap(target, S), N, N);
            var d := Intensity(pi, rho, gamma, T);
            if gamma > GAMMA_FLOOR then IsLeastLoss(d, target, S, pi, rho, T, N) else d == 0.0
  {
    var gamma := Sum2(SquaredGap(target, S), N, N);
    if gamma > GAMMA_FLOOR {
      var d := Intensity(pi, rho, gamma, T);
      ShrunkDistance(d, target, S, N);
      forall e: real | 0.0 <= e <= 1.0
        ensures ShrinkageLoss(e, target, S, pi, rho, T, N)
             >= ShrinkageLoss(d, target, S, pi, rho, T, N) + T as real * gamma * ((e - d) * (e - d))
      {
        ShrunkDistance(e, target, S, N);
        ClampIsLeast(pi - rho, gamma, T as real, e, d);
      }
    }
  }

  lemma ClampIsLeast(b: real, gamma: real, T: real, e: real, d: real)
    requires gamma > 0.0 && T >= 1.0 && 0.0 <= e <= 1.0
    requires var k := b / gamma / T; d == if k >= 1.0 then 1.0 else if k > 0.0 then k else 0.0
    ensures T * (e * e * gamma) - 2.0 * e * b >= T * (d * d * gamma) - 2.0 * d * b + T * gamma * ((e - d) * (e - d))
  {
    var g, k := T * gamma, b / gamma / T;
    PositiveProduct(T, gamma, g);
    assert k * g == b by { assert k * T == b / gamma; assert k * T * gamma == b; }
    QuadraticAboutPoint(g, b, e, d);
    assert T * (e * e * gamma) == g * (e * e) && T * (d * d * gamma) == g * (d * d);
    if k >= 1.0 {
      MultiplyInequality(1.0, k, g);
      NonnegativeProduct(1.0 - e, b - g);
      assert (e - d) * (g * d - b) == (1.0 - e) * (b - g);
    } else if k > 0.0 {
      assert g * d - b == 0.0;
    } else {
      MultiplyInequality(k, 0.0, g);
      NonnegativeProduct(e, -b);
    }
  }

  lemma QuadraticAboutPoint(g: real, b: real, e: real, d: real)
    ensures g * (e * e) - 2.0 * e * b
         == g * (d * d) - 2.0 * d * b + g * ((e - d) * (e - d)) + 2.0 * ((e - d) * (g * d - b))
  {
  }

  /** For every returns matrix with at least two periods and two factors, and every intensity in [0, 1]. */
  lemma ShrunkIsPositiveSemidefinite(Xc: Matrix, T: nat, N: nat, std: int -> real, delta: real)
    requires T >= 2 && N >= 2 && 0.0 <= delta <= 1.0 && IsStd(std, Sample(Xc, T), N)
    ensures var S := Sample(Xc, T);
            PositiveSemidefinite(Shrunk(delta, Target(AverageCorrelation(S, std, N), S, std), S), N)
  {
    var S := Sample(Xc, T);
    var avg := AverageCorrelation(S, std, N);
    SampleIsPositiveSemidefinite(Xc, T, N);
    forall k, l | 0 <= k < N && 0 <= l < N ensures S(k, l) == S(l, k) {
      SampleIsSymmetric(Xc, T, k, l);
    }
    AverageCorrelationBounds(S, std, N);
    TargetIsPositiveSemidefinite(S, std, avg, N);
    CombinationIsPositiveSemidefinite(Target(avg, S, std), S, Shrunk(delta, Target(avg, S, std), S),
                                      delta, 1.0 - delta, N);
  }

  lemma DiagonalIsPositiveSemidefinite(C: Matrix, d: real, N: nat)
    requires d >= 0.0
    requires forall i, j :: 0 <= i < N && 0 <= j < N ==> C(i, j) == if i == j then d else 0.0
    ensures PositiveSemidefinite(C, N)
  {
    var identity: Matrix := (i, j) => if i == j then 1.0 else 0.0;
    var one := (i: int) => 1.0;
    forall x: int -> real ensures Quad(C, x, N) >= 0.0 {
      QuadDiagonal(identity, one, x, N);
      CauchySchwarzOnes(Product(one, x), N);
      QuadLinear(identity, identity, C, d, 0.0, x, N);
      NonnegativeProduct(d, Quad(identity, x, N));
    }
  }

  lemma SinglePeriodHasNoVariance(X: Matrix, i: int)
    ensures Sample(Centered(X, 1), 1)(i, i) == 0.0
  {
    assert Sum(Column(X, i), 1) == X(0, i);
    assert Centered(X, 1)(0, i) == 0.0;
    assert Sum(Comoment(Centered(X, 1), i, i), 1) == Comoment(Centered(X, 1), i, i)(0);
  }

  method SumEntries(a: array2<real>, ghost F: Matrix) returns (s: real)
    requires forall i, j :: 0 <= i < a.Length0 && 0 <= j < a.Length1 ==> a[i, j] == F(i, j)
    ensures s == Sum2(F, a.Length0, a.Length1)
  {
    s := 0.0;
    for i := 0 to a.Length0
      invariant s == Sum2(F, i, a.Length1)
    {
      for j := 0 to a.Length1
        invariant s == Sum2(F, i, a.Length1) + Sum(Row(F, i), j)
      {
        s := s + a[i, j];
      }
    }
  }

  method Trace(a: array2<real>, ghost F: Matrix) returns (s: real)
    requires a.Length0 == a.Length1
    requires forall i :: 0 <= i < a.Length0 ==> a[i, i] == F(i, i)
    ensures s == Sum(Diagonal(F), a.Length0)
  {
    s := 0.0;
    for i := 0 to a.Length0
      invariant s == Sum(Diagonal(F), i)
    {
      s := s + a[i, i];
    }
  }

  /** Fills pi_mat and returns its grand sum and its trace. */
  method EstimatePi(Xc: Matrix, S: Matrix, T: nat, N: nat) returns (piHat: real, trace: real)
    requires T > 0
    ensures piHat == Sum2(Pi(Xc, S, T), N, N)
    ensures trace == Sum(Diagonal(Pi(Xc, S, T)), N)
  {
    ghost var P := Pi(Xc, S, T);
    var piMat := new real[N, N];
    for i := 0 to N
      invariant forall k, l :: 0 <= k < i && 0 <= l < N ==> piMat[k, l] == P(k, l)
    {
      for j := 0 to N
        invariant forall k, l :: 0 <= k < i && 0 <= l < N ==> piMat[k, l] == P(k, l)
        invariant forall l :: 0 <= l < j ==> piMat[i, l] == P(i, l)
      {
        piMat[i, j] := Mean(PiTerm(Xc, S, i, j), T);
      }
    }
    piHat := SumEntries(piMat, P);
    trace := Trace(piMat, P);
  }

  /** Adds the off-diagonal terms of rho_hat to the trace of pi, pair by pair. */
  method EstimateRho(Xc: Matrix, S: Matrix, std: int -> real, avg: real, T: nat, N: nat, trace: real)
    returns (rhoHat: real)
    requires T > 0
    ensures rhoHat == trace + Sum2(Rho(Xc, S, std, avg, T), N, N)
  {
    ghost var R := Rho(Xc, S, std, avg, T);
    rhoHat := trace;
    for i := 0 to N
      invariant rhoHat == trace + Sum2(R, i, N)
    {
      for j := 0 to N
        invariant rhoHat == trace + Sum2(R, i, N) + Sum(Row(R, i), j)
      {
        if i == j { continue; }
        var thetaII := Mean(ThetaTerm(Xc, S, i, i, j), T);
        var thetaJJ := Mean(ThetaTerm(Xc, S, j, i, j), T);
        rhoHat := rhoHat + RhoTerm(avg, std(i), std(j), thetaII, thetaJJ);
      }
    }
  }

  /** No shrinking where sample and target all but coincide, and the least estimated loss everywhere else. */
  ghost predicate IsBestIntensity(d: real, Xc: Matrix, T: nat, N: nat, std: int -> real)
    requires T > 0 && N >= 2
  {
    var S := Sample(Xc, T);
    var avg := AverageCorrelation(S, std, N);
    var target := Target(avg, S, std);
    if Sum2(SquaredGap(target, S), N, N) > GAMMA_FLOOR then
      IsLeastLoss(d, target, S, Sum2(Pi(Xc, S, T), N, N),
                  Sum(Diagonal(Pi(Xc, S, T)), N) + Sum2(Rho(Xc, S, std, avg, T), N, N), T, N)
    else d == 0.0
  }

  method EstimateIntensity(Xc: Matrix, T: nat, N: nat, std: int -> real) returns (delta: real)
    requires T >= 2 && N >= 2
    ensures delta == ShrinkageIntensity(Xc, T, N, std)
    ensures 0.0 <= delta <= 1.0
    ensures IsBestIntensity(delta, Xc, T, N, std)
  {
    var S := Sample(Xc, T);
    var avg := AverageCorrelation(S, std, N);
    var piHat, trace := EstimatePi(Xc, S, T, N);
    var rhoHat := EstimateRho(Xc, S, std, avg, T, N, trace);
    var gammaHat := Sum2(SquaredGap(Target(avg, S, std), S), N, N);
    delta := Intensity(piHat, rhoHat, gammaHat, T);
    IntensityMinimizesLoss(Target(avg, S, std), S, piHat, rhoHat, T, N);
  }

  /** The sample covariance shrunk towards its constant-correlation target at the estimated intensity. */
  function Estimate(X: Matrix, T: nat, N: nat, std: int -> real): Matrix
    requires T > 0 && N >= 2
  {
    var Xc := Centered(X, T);
    var S := Sample(Xc, T);
    Shrunk(ShrinkageIntensity(Xc, T, N, std), Target(AverageCorrelation(S, std, N), S, std), S)
  }

  ghost predicate IsEstimate(C: Matrix, X: Matrix, T: nat, N: nat, std: int -> real)
    requires N >= 2
  {
    forall i, j :: 0 <= i < N && 0 <= j < N ==>
      C(i, j) == if T >= 2 then Estimate(X, T, N, std)(i, j) else if i == j then VARIANCE_FLOOR else 0.0
  }

  /** The whole estimator, with its two early exits for one factor or one period. */
  method LedoitWolfCovariance(X: Matrix, T: nat, N: nat, std: int -> real) returns (shrunk: Matrix, delta: real)
    requires N >= 1 && (T >= 1 || N < 2)
    requires T >= 2 && N >= 2 ==> IsStd(std, Sample(Centered(X, T), T), N)
    ensures 0.0 <= delta <= 1.0
    ensures PositiveSemidefinite(shrunk, N)
    ensures N < 2 ==>
      var variance := if T > 0 then Sample(Centered(X, T), T)(0, 0) else 0.0;
      delta == 0.0 && shrunk(0, 0) == if variance < VARIANCE_FLOOR then VARIANCE_FLOOR else variance
    ensures N >= 2 ==> IsEstimate(shrunk, X, T, N, std)
    ensures N >= 2 ==> delta == if T < 2 then 1.0 else ShrinkageIntensity(Centered(X, T), T, N, std)
    ensures T >= 2 && N >= 2 ==> IsBestIntensity(delta, Centered(X, T), T, N, std)
    ensures T > 0 ==> IsCentering(Centered(X, T), X, T, N)
  {
    if T > 0 { CenteredIsCentering(X, T, N); }
    if N < 2 {
      var variance := if T > 0 then Sample(Centered(X, T), T)(0, 0) else 0.0;
      var d := if variance < VARIANCE_FLOOR then VARIANCE_FLOOR else variance;
      shrunk, delta := (i, j) => d, 0.0;
      DiagonalIsPositiveSemidefinite(shrunk, d, 1);
      return;
    }
    var Xc := Centered(X, T);
    var S := Sample(Xc, T);
    if T < 2 {
      shrunk, delta := (i, j) => if i == j then Floored(S(i, i)) else 0.0, 1.0;
      forall i | 0 <= i < N ensures S(i, i) == 0.0 { SinglePeriodHasNoVariance(X, i); }
      DiagonalIsPositiveSemidefinite(shrunk, VARIANCE_FLOOR, N);
    } else {
      delta := EstimateIntensity(Xc, T, N, std);
      shrunk := Shrunk(delta, Target(AverageCorrelation(S, std, N), S, std), S);
      ShrunkIsPositiveSemidefinite(Xc, T, N, std, delta);
    }
  }
}
