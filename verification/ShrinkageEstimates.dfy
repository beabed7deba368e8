/** What the estimates behind the shrinkage stand for, in terms of the returns themselves. */
module ShrinkageEstimates {
  import opened RealAlgebra
  import opened Sums
  import opened QuadraticForms
  import opened LedoitWolf

  // ----- the sample covariance over the returns

  function PairGap(y: int -> real): Matrix { (s, t) => (y(t) - y(s)) * (y(t) - y(s)) }

  /** The exposures of x to centred returns total zero and differ from period to period as those to the returns. */
  lemma CenteredExposure(Xc: Matrix, X: Matrix, x: int -> real, T: nat, N: nat)
    requires IsCentering(Xc, X, T, N)
    ensures Sum(Exposure(Xc, x, N), T) == 0.0
    ensures forall s, t :: 0 <= s < T && 0 <= t < T ==>
      Exposure(Xc, x, N)(t) - Exposure(Xc, x, N)(s) == Exposure(X, x, N)(t) - Exposure(X, x, N)(s)
  {
    ExposureTotal(Xc, x, T, N);
    forall s, t | 0 <= s < T && 0 <= t < T
      ensures Exposure(Xc, x, N)(t) - Exposure(Xc, x, N)(s) == Exposure(X, x, N)(t) - Exposure(X, x, N)(s)
    {
      ExposureGap(Xc, X, x, s, t, N);
    }
  }

  lemma {:induction false} ExposureGap(Xc: Matrix, X: Matrix, x: int -> real, s: int, t: int, N: nat)
    requires forall j :: 0 <= j < N ==> Xc(t, j) - Xc(s, j) == X(t, j) - X(s, j)
    ensures Exposure(Xc, x, N)(t) - Exposure(Xc, x, N)(s) == Exposure(X, x, N)(t) - Exposure(X, x, N)(s)
  {
    if N > 0 {
      ExposureGap(Xc, X, x, s, t, N - 1);
      GapTimes(Xc(t, N - 1), Xc(s, N - 1), X(t, N - 1), X(s, N - 1), x(N - 1));
    }
  }

  lemma GapTimes(a: real, b: real, c: real, d: real, x: real)
    requires a - b == c - d
    ensures a * x - b * x == c * x - d * x
  {
    assert (a - b) * x == (c - d) * x;
  }

  function Contributions(Xc: Matrix, x: int -> real): Matrix { (t, j) => Times(x(j), Xc(t, j)) }

  lemma ExposureTotal(Xc: Matrix, x: int -> real, T: nat, N: nat)
    requires forall j :: 0 <= j < N ==> Sum(Column(Xc, j), T) == 0.0
    ensures Sum(Exposure(Xc, x, N), T) == 0.0
  {
    var F, e := Contributions(Xc, x), Exposure(Xc, x, N);
    forall t | 0 <= t < T ensures Sum(Row(F, t), N) == e(t) {
      forall j | 0 <= j < N ensures Row(F, t)(j) == Product(Row(Xc, t), x)(j) {
        TimesCommutes(x(j), Xc(t, j));
      }
      SumCongruent(Row(F, t), Product(Row(Xc, t), x), N);
    }
    Sum2ByRows(F, e, T, N);
    Sum2Transpose(F, Transposed(F), T, N);
    var zero := (j: int) => 0.0;
    forall j | 0 <= j < N ensures Sum(Row(Transposed(F), j), T) == zero(j) {
      SumScale(Column(Xc, j), Row(Transposed(F), j), x(j), T);
    }
    Sum2ByRows(Transposed(F), zero, N, T);
    SumZero(zero, N);
  }

  /** The products of two series' deviations from any two levels a and b, summed. */
  lemma {:induction false} SumOfDeviations(f: int -> real, g: int -> real, h: int -> real, a: real, b: real, n: nat)
    requires forall t :: 0 <= t < n ==> h(t) == Times(f(t) - a, g(t) - b)
    ensures Sum(h, n) == Dot(f, g, n) + Times(n as real, Times(a, b)) - (Times(b, Sum(f, n)) + Times(a, Sum(g, n)))
  {
    if n == 0 {
      ZeroTimes(a, b);
    } else {
      SumOfDeviations(f, g, h, a, b, n - 1);
      DeviationStep(f(n - 1), g(n - 1), a, b, (n - 1) as real, Sum(f, n - 1), Sum(g, n - 1));
      assert Product(f, g)(n - 1) == Times(f(n - 1), g(n - 1));
    }
  }

  lemma ZeroTimes(a: real, b: real)
    ensures Times(0.0, Times(a, b)) == 0.0 && Times(a, 0.0) == 0.0 && Times(b, 0.0) == 0.0
  {
  }

  lemma DeviationStep(x: real, y: real, a: real, b: real, n: real, f: real, g: real)
    ensures Times(n, Times(a, b)) - (Times(b, f) + Times(a, g)) + Times(x - a, y - b)
         == Times(x, y) + Times(n + 1.0, Times(a, b)) - (Times(b, f + x) + Times(a, g + y))
  {
    ProductOfDeviations(x, y, a, b);
    SumTimes(n, 1.0, Times(a, b));
    TimesSum(b, f, x);
    TimesSum(a, g, y);
  }

  lemma ProductOfDeviations(x: real, y: real, a: real, b: real)
    ensures Times(x - a, y - b) == Times(x, y) + Times(a, b) - (Times(b, x) + Times(a, y))
  {
  }

  lemma PairGapRow(e: int -> real, s: int, T: nat)
    requires Sum(e, T) == 0.0
    ensures Sum(Row(PairGap(e), s), T) == Dot(e, e, T) + Times(T as real, Times(e(s), e(s)))
  {
    forall t | 0 <= t < T ensures Row(PairGap(e), s)(t) == Times(e(t) - e(s), e(t) - e(s)) {
      assert Times(e(t) - e(s), e(t) - e(s)) == (e(t) - e(s)) * (e(t) - e(s));
    }
    SumOfDeviations(e, e, Row(PairGap(e), s), e(s), e(s), T);
    TimesUnits(e(s));
  }

  function Raised(e: int -> real, c: real, m: real): int -> real { s => c + Times(m, Times(e(s), e(s))) }

  lemma RaisedTotal(e: int -> real, c: real, m: real, n: nat)
    ensures Sum(Raised(e, c, m), n) == Times(n as real, c) + Times(m, Dot(e, e, n))
  {
    var constant := (s: int) => c;
    var scaled := (s: int) => Times(m, Product(e, e)(s));
    SumConstant(constant, n, c);
    forall s | 0 <= s < n ensures Raised(e, c, m)(s) == constant(s) + scaled(s) {
      assert Times(e(s), e(s)) == Product(e, e)(s);
    }
    SumScale(Product(e, e), scaled, m, n);
    SumAdd(constant, scaled, Raised(e, c, m), n);
  }

  lemma PairGapTotal(e: int -> real, T: nat)
    requires Sum(e, T) == 0.0
    ensures Sum2(PairGap(e), T, T) == 2.0 * Times(T as real, Dot(e, e, T))
  {
    var rows := Raised(e, Dot(e, e, T), T as real);
    forall s | 0 <= s < T ensures Sum(Row(PairGap(e), s), T) == rows(s) {
      PairGapRow(e, s, T);
    }
    Sum2ByRows(PairGap(e), rows, T, T);
    RaisedTotal(e, Dot(e, e, T), T as real, T);
  }

  lemma MeanTimes(f: int -> real, T: nat)
    requires T > 0
    ensures Times(T as real, Mean(f, T)) == Sum(f, T)
  {
  }

  /** The variance of a portfolio of factors is half the mean squared difference of its returns over all pairs of
    * periods. */
  lemma SampleIsPairwiseVariance(X: Matrix, x: int -> real, T: nat, N: nat)
    requires T > 0
    ensures 2.0 * Times(T as real, Times(T as real, Quad(Sample(Centered(X, T), T), x, N)))
         == Sum2(PairGap(Exposure(X, x, N)), T, T)
  {
    var Xc := Centered(X, T);
    var e, y := Exposure(Xc, x, N), Exposure(X, x, N);
    CenteredIsCentering(X, T, N);
    CenteredExposure(Xc, X, x, T, N);
    SampleIsSumOfSquares(Xc, x, T, N);
    MeanTimes(Product(e, e), T);
    PairGapTotal(e, T);
    SamePairGaps(e, y, T);
  }

  lemma SamePairGaps(e: int -> real, y: int -> real, T: nat)
    requires forall s, t :: 0 <= s < T && 0 <= t < T ==> e(t) - e(s) == y(t) - y(s)
    ensures Sum2(PairGap(y), T, T) == Sum2(PairGap(e), T, T)
  {
    forall s, t | 0 <= s < T && 0 <= t < T
      ensures PairGap(y)(s, t) == 1.0 * PairGap(e)(s, t) + 0.0 * PairGap(e)(s, t)
    {
      assert e(t) - e(s) == y(t) - y(s);
    }
    Sum2Linear(PairGap(e), PairGap(e), PairGap(y), 1.0, 0.0, T, T);
  }

  // ----- the target

  lemma CorrelationRestoresCovariance(S: Matrix, std: int -> real, N: nat, i: nat, j: nat)
    requires IsStd(std, S, N) && i < N && j < N && i != j
    ensures Times(Times(std(i), std(j)), Correlation(S, std)(i, j)) == S(i, j)
  {
    PositiveProduct(std(i), std(j), Times(std(i), std(j)));
    RatioUndone(S(i, j), Times(std(i), std(j)));
  }

  lemma TargetCorrelation(S: Matrix, std: int -> real, avg: real, N: nat, i: nat, j: nat)
    requires IsStd(std, S, N) && i < N && j < N && i != j
    ensures Correlation(Target(avg, S, std), std)(i, j) == avg
  {
    var v := Times(std(i), std(j));
    PositiveProduct(std(i), std(j), v);
    assert Target(avg, S, std)(i, j) == avg * v;
    assert Ratio(avg * v, v) == avg;
  }

  function OnDiagonal(c: real, n: nat): Matrix { (i, j) => if i == j && 0 <= i < n then c else 0.0 }

  lemma DiagonalTotal(c: real, n: nat)
    ensures Sum2(OnDiagonal(c, n), n, n) == Times(n as real, c)
  {
    var constant := (i: int) => c;
    forall i | 0 <= i < n ensures Sum(Row(OnDiagonal(c, n), i), n) == constant(i) {
      SumSingle(Row(OnDiagonal(c, n), i), n, i);
    }
    Sum2ByRows(OnDiagonal(c, n), constant, n, n);
    SumConstant(constant, n, c);
  }

  lemma TargetCorrelationTotal(S: Matrix, std: int -> real, avg: real, N: nat)
    requires IsStd(std, S, N)
    ensures Sum2(Correlation(Target(avg, S, std), std), N, N)
         == Times(N as real, Times(N as real, avg)) + Times(N as real, 1.0 - avg)
  {
    var R := Correlation(Target(avg, S, std), std);
    var everywhere: Matrix := (i, j) => avg;
    forall i, j | 0 <= i < N && 0 <= j < N
      ensures R(i, j) == 1.0 * everywhere(i, j) + 1.0 * OnDiagonal(1.0 - avg, N)(i, j)
    {
      if i != j { TargetCorrelation(S, std, avg, N, i, j); }
    }
    Sum2Linear(everywhere, OnDiagonal(1.0 - avg, N), R, 1.0, 1.0, N, N);
    DiagonalTotal(1.0 - avg, N);
    UniformTotal(everywhere, avg, N);
  }

  /** All pairs of factors are equally correlated in the target, and in total as much as in the sample. */
  lemma TargetKeepsTotalCorrelation(S: Matrix, std: int -> real, N: nat)
    requires N >= 2 && IsStd(std, S, N)
    ensures var target := Target(AverageCorrelation(S, std, N), S, std);
            Sum2(Correlation(target, std), N, N) == Sum2(Correlation(S, std), N, N)
  {
    var avg := AverageCorrelation(S, std, N);
    TargetCorrelationTotal(S, std, avg, N);
    AverageUndone(Sum2(Correlation(S, std), N, N), N as real, avg);
  }

  lemma UniformTotal(F: Matrix, c: real, n: nat)
    requires forall i, j :: 0 <= i < n && 0 <= j < n ==> F(i, j) == c
    ensures Sum2(F, n, n) == Times(n as real, Times(n as real, c))
  {
    var row := Times(n as real, c);
    var rows := (i: int) => row;
    forall i | 0 <= i < n ensures Sum(Row(F, i), n) == rows(i) { SumConstant(Row(F, i), n, c); }
    Sum2ByRows(F, rows, n, n);
    SumConstant(rows, n, row);
  }

  lemma AverageUndone(total: real, n: real, avg: real)
    requires n >= 2.0 && avg == (total - n) / Times(n, n - 1.0)
    ensures Times(n, Times(n, avg)) + Times(n, 1.0 - avg) == total
  {
    PositiveProduct(n, n - 1.0, Times(n, n - 1.0));
    assert avg * Times(n, n - 1.0) == total - n;
  }

  /** Shrinking by whatever intensity changes no positive variance, and moves others up towards the floor. */
  lemma ShrinkingKeepsVariances(d: real, avg: real, S: Matrix, std: int -> real, i: int)
    ensures var shrunk := Shrunk(d, Target(avg, S, std), S);
            if S(i, i) > 0.0 then shrunk(i, i) == S(i, i)
            else shrunk(i, i) == S(i, i) + d * (VARIANCE_FLOOR - S(i, i))
  {
    var target := Target(avg, S, std);
    assert Variances(S)(i) == Floored(S(i, i));
    assert target(i, i) == Variances(S)(i);
    Between(d, target(i, i), S(i, i));
    assert Shrunk(d, target, S)(i, i) == S(i, i) + d * (target(i, i) - S(i, i));
  }

  lemma Between(d: real, f: real, v: real)
    ensures d * f + (1.0 - d) * v == v + d * (f - v)
  {
  }

  // ----- the estimated variances and covariances of the sample entries

  /** The mean product of two series' deviations from their means is the mean product less the means' product. */
  lemma CovarianceIdentity(f: int -> real, g: int -> real, h: int -> real, T: nat)
    requires T > 0
    requires forall t :: 0 <= t < T ==> h(t) == Times(f(t) - Mean(f, T), g(t) - Mean(g, T))
    ensures Mean(h, T) == Mean(Product(f, g), T) - Times(Mean(f, T), Mean(g, T))
  {
    var a, b := Mean(f, T), Mean(g, T);
    SumOfDeviations(f, g, h, a, b, T);
    MeanCombines(Sum(Product(f, g), T), Sum(f, T), Sum(g, T), T as real, a, b);
  }

  lemma MeanCombines(p: real, f: real, g: real, n: real, a: real, b: real)
    requires n > 0.0 && a == f / n && b == g / n
    ensures (p + Times(n, Times(a, b)) - (Times(b, f) + Times(a, g))) / n == p / n - Times(a, b)
  {
    assert f == a * n && g == b * n;
    assert b * f == n * (a * b) && a * g == n * (a * b);
    assert p + n * (a * b) - (b * f + a * g) == p - n * (a * b);
    assert (p / n - a * b) * n == p - n * (a * b);
  }

  /** Entry (i, j) of pi is the variance over periods of the products whose mean is the sample covariance. */
  lemma PiIsVarianceOfProducts(Xc: Matrix, T: nat, i: int, j: int)
    requires T > 0
    ensures var S, product := Sample(Xc, T), Comoment(Xc, i, j);
            Pi(Xc, S, T)(i, j) == Mean(Product(product, product), T) - Times(S(i, j), S(i, j))
  {
    var f, h := Comoment(Xc, i, j), PiTerm(Xc, Sample(Xc, T), i, j);
    forall t | 0 <= t < T ensures h(t) == Times(f(t) - Mean(f, T), f(t) - Mean(f, T)) {
      assert f(t) == Xc(t, i) * Xc(t, j) && Sample(Xc, T)(i, j) == Mean(f, T);
    }
    CovarianceIdentity(f, f, h, T);
  }

  lemma ThetaIsCovarianceOfProducts(Xc: Matrix, T: nat, k: int, i: int, j: int)
    requires T > 0
    ensures var S, squares, products := Sample(Xc, T), Comoment(Xc, k, k), Comoment(Xc, i, j);
            Mean(ThetaTerm(Xc, S, k, i, j), T) == Mean(Product(squares, products), T) - Times(S(k, k), S(i, j))
  {
    var f, g, h := Comoment(Xc, k, k), Comoment(Xc, i, j), ThetaTerm(Xc, Sample(Xc, T), k, i, j);
    forall t | 0 <= t < T ensures h(t) == Times(f(t) - Mean(f, T), g(t) - Mean(g, T)) {
      assert Sample(Xc, T)(k, k) == Mean(f, T) && Sample(Xc, T)(i, j) == Mean(g, T);
    }
    CovarianceIdentity(f, g, h, T);
  }

  /** RhoTerm is the differential of the target entry avg s_i s_j: what it gives for the changes 2 s_i u and 2 s_j v
    * of the variances differs from the entry's true change, when s_i moves by u and s_j by v, by avg u v only. */
  lemma RhoTermIsTargetDifferential(avg: real, si: real, sj: real, u: real, v: real)
    requires si > 0.0 && sj > 0.0
    ensures avg * ((si + u) * (sj + v))
         == avg * (si * sj) + RhoTerm(avg, si, sj, 2.0 * si * u, 2.0 * sj * v) + avg * (u * v)
  {
    var p, q := Ratio(sj, si), Ratio(si, sj);
    RatioUndone(sj, si);
    RatioUndone(si, sj);
    assert p * (2.0 * si * u) == 2.0 * (sj * u) by { Regroup(p, 2.0 * u, si, 1.0); }
    assert q * (2.0 * sj * v) == 2.0 * (si * v) by { Regroup(q, 2.0 * v, sj, 1.0); }
    assert RhoTerm(avg, si, sj, 2.0 * si * u, 2.0 * sj * v) == avg / 2.0 * (2.0 * (sj * u) + 2.0 * (si * v));
    assert avg / 2.0 * (2.0 * (sj * u) + 2.0 * (si * v)) == avg * (sj * u + si * v);
    assert (si + u) * (sj + v) == si * sj + (sj * u + si * v) + u * v;
    ThreeParts(avg, si * sj, sj * u + si * v, u * v);
  }

  lemma ThreeParts(a: real, x: real, y: real, z: real)
    ensures a * (x + y + z) == a * x + a * y + a * z
  {
  }

  function TargetShift(avg: real, std: int -> real, Xc: Matrix, S: Matrix, i: int, j: int): int -> real {
    t => RhoTerm(avg, std(i), std(j), Xc(t, i) * Xc(t, i) - S(i, i), Xc(t, j) * Xc(t, j) - S(j, j))
  }

  function EntryShift(Xc: Matrix, S: Matrix, i: int, j: int): int -> real { t => Xc(t, i) * Xc(t, j) - S(i, j) }

  /** Off the diagonal, rho is the mean over periods of the shift of the target entry times that of the sample
    * entry; on it, it adds nothing to the variance pi already has there. */
  lemma RhoIsCovarianceWithTarget(Xc: Matrix, S: Matrix, std: int -> real, avg: real, T: nat, i: int, j: int)
    requires T > 0
    ensures Rho(Xc, S, std, avg, T)(i, j)
         == if i == j then 0.0 else Mean(Product(TargetShift(avg, std, Xc, S, i, j), EntryShift(Xc, S, i, j)), T)
  {
    if i != j {
      MeanOfShifts(ThetaTerm(Xc, S, i, i, j), ThetaTerm(Xc, S, j, i, j), TargetShift(avg, std, Xc, S, i, j),
                   EntryShift(Xc, S, i, j), SquareShift(Xc, S, i), SquareShift(Xc, S, j),
                   avg, std(i), std(j), T);
    }
  }

  function SquareShift(Xc: Matrix, S: Matrix, i: int): int -> real { t => Xc(t, i) * Xc(t, i) - S(i, i) }

  lemma MeanOfShifts(f: int -> real, g: int -> real, target: int -> real, entry: int -> real, x: int -> real,
                     y: int -> real, avg: real, si: real, sj: real, T: nat)
    requires T > 0
    requires forall t :: 0 <= t < T ==> f(t) == x(t) * entry(t) && g(t) == y(t) * entry(t)
    requires forall t :: 0 <= t < T ==> target(t) == RhoTerm(avg, si, sj, x(t), y(t))
    ensures Mean(Product(target, entry), T) == RhoTerm(avg, si, sj, Mean(f, T), Mean(g, T))
  {
    var c, p, q, h := avg / 2.0, Ratio(sj, si), Ratio(si, sj), Product(target, entry);
    var a, b := c * p, c * q;
    forall t | 0 <= t < T ensures h(t) == a * f(t) + b * g(t) {
      LinearInShifts(c, p, q, x(t), y(t), entry(t));
    }
    SumLinear(f, g, h, a, b, T);
    MeanOfLinear(c, p, q, Sum(f, T), Sum(g, T), T as real);
  }

  lemma LinearInShifts(c: real, p: real, q: real, x: real, y: real, e: real)
    ensures c * (p * x + q * y) * e == c * p * (x * e) + c * q * (y * e)
  {
    assert c * (p * x + q * y) == c * p * x + c * q * y;
    Distribute(c * p * x, c * q * y, e);
  }

  lemma MeanOfLinear(c: real, p: real, q: real, f: real, g: real, n: real)
    requires n > 0.0
    ensures c * (p * (f / n) + q * (g / n)) == (c * p * f + c * q * g) / n
  {
    var u, v := f / n, g / n;
    assert f == u * n && g == v * n;
    assert c * p * f == c * p * u * n && c * q * g == c * q * v * n;
    assert c * (p * u + q * v) == c * p * u + c * q * v;
    Distribute(c * p * u, c * q * v, n);
  }
}
