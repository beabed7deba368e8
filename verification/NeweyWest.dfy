/** Newey-West significance of a mean: the Bartlett-weighted variance and its degenerate case. */
module NeweyWest {
  import opened RealAlgebra
  import opened Sums
  import opened Wrappers

  // The series is taken after missing and infinite values have been dropped.

  // ----- band sums of a symmetric table of products, free of any multiplication

  /** P is symmetric and vanishes outside the leading n by n block. */
  ghost predicate ProductTable(P: Matrix, n: nat) {
    && (forall s, t :: P(s, t) == P(t, s))
    && (forall s, t :: !(0 <= s < n) ==> P(s, t) == 0.0)
  }

  function Offset(P: Matrix, lag: int): int -> real { t => Row(P, t)(t + lag) }

  /** A(lag): the sum along one off-diagonal. */
  function LagSum(P: Matrix, n: nat, lag: int): real { Sum(Offset(P, lag), n) }

  /** A(1), A(2), ... */
  function PositiveLags(P: Matrix, n: nat): int -> real { i => LagSum(P, n, i + 1) }

  /** The table read backwards from position k. */
  function Block(P: Matrix, k: int): Matrix { (i, j) => P(k - i, k - j) }

  function BlockSums(P: Matrix, size: nat): int -> real { k => Sum2(Block(P, k), size, size) }

  /** The sum over all positions k of the blocks of L + 1 consecutive rows and columns ending at k. */
  function BandEnergy(P: Matrix, L: nat, m: nat): real { Sum(BlockSums(P, L + 1), m) }

  function Shifted(f: int -> real, m: int): int -> real { i => f(m + i) }

  /** A sum over 0..m-1 whose terms vanish before L and from L + n on. */
  lemma SumOfMiddle(f: int -> real, g: int -> real, L: nat, n: nat, m: nat)
    requires m >= L + n
    requires forall k :: 0 <= k < L || L + n <= k < m ==> f(k) == 0.0
    requires forall i :: 0 <= i < n ==> Shifted(f, L)(i) == g(i)
    ensures Sum(f, m) == Sum(g, n)
  {
    var tail, rest := Shifted(f, L), Shifted(f, L + n);
    SumSplit(f, tail, L, m - L);
    SumZero(f, L);
    SumSplit(tail, rest, n, m - L - n);
    SumZero(rest, m - L - n);
    SumCongruent(tail, g, n);
  }

  function Diagonally(P: Matrix, j: int, L: int): int -> real { k => P(k - j, k - L) }

  /** Summing P(k-j, k-L) over every k that can contribute gives A(L - j). */
  lemma DiagonalSum(P: Matrix, n: nat, j: nat, L: nat, m: nat)
    requires ProductTable(P, n) && j <= L && m >= n + L
    ensures Sum(Diagonally(P, j, L), m) == LagSum(P, n, L - j)
  {
    forall k | 0 <= k < L || L + n <= k < m ensures Diagonally(P, j, L)(k) == 0.0 {
      assert P(k - j, k - L) == P(k - L, k - j);
    }
    forall i | 0 <= i < n ensures Shifted(Diagonally(P, j, L), L)(i) == Offset(P, L - j)(i) {
      assert P(L + i - j, i) == P(i, i + (L - j));
    }
    SumOfMiddle(Diagonally(P, j, L), Offset(P, L - j), L, n, m);
  }

  lemma {:induction false} SumReversed(g: int -> real, h: int -> real, n: nat)
    requires forall i :: 0 <= i < n ==> g(i) == h(n - 1 - i)
    ensures Sum(g, n) == Sum(h, n)
  {
    if n != 0 {
      SumSplit(g, Shifted(g, 1), 1, n - 1);
      SumReversed(Shifted(g, 1), h, n - 1);
      assert Sum(g, 1) == g(0);
    }
  }

  function LagsDown(P: Matrix, n: nat, L: int): int -> real { j => LagSum(P, n, L - j) }

  function ByPosition(P: Matrix, L: int): Matrix { (k, j) => P(k - j, k - L) }

  function ByOffset(P: Matrix, L: int): Matrix { (j, k) => P(k - j, k - L) }

  /** The entries that meet row L of the block at k. */
  function NewRow(P: Matrix, L: nat): int -> real { k => Sum(Row(ByPosition(P, L), k), L) }

  /** Over all positions, the new row of a widened block contributes every positive lag up to L once. */
  lemma NewRows(P: Matrix, n: nat, L: nat, m: nat)
    requires ProductTable(P, n) && m >= n + L
    ensures Sum(NewRow(P, L), m) == Sum(PositiveLags(P, n), L)
  {
    Sum2ByRows(ByPosition(P, L), NewRow(P, L), m, L);
    Sum2Transpose(ByPosition(P, L), ByOffset(P, L), m, L);
    forall j | 0 <= j < L ensures Sum(Row(ByOffset(P, L), j), m) == LagsDown(P, n, L)(j) {
      SumCongruent(Row(ByOffset(P, L), j), Diagonally(P, j, L), m);
      DiagonalSum(P, n, j, L, m);
    }
    Sum2ByRows(ByOffset(P, L), LagsDown(P, n, L), L, m);
    SumReversed(LagsDown(P, n, L), PositiveLags(P, n), L);
  }

  /** Widening a block by one adds its new row twice and its new corner once. */
  lemma WidenBlock(P: Matrix, n: nat, L: nat, k: int)
    requires ProductTable(P, n)
    ensures BlockSums(P, L + 1)(k) == BlockSums(P, L)(k) + 2.0 * NewRow(P, L)(k) + Diagonally(P, L, L)(k)
  {
    var B := Block(P, k);
    var row := Row(ByPosition(P, L), k);
    forall i | 0 <= i < L ensures B(i, L) == row(i) && Row(B, L)(i) == row(i) {
      assert P(k - L, k - i) == P(k - i, k - L);
    }
    Sum2LastColumn(B, row, L, L + 1);
    SumCongruent(Row(B, L), row, L);
  }

  lemma SumOfExpansion(s: int -> real, p: int -> real, q: int -> real, r: int -> real, m: nat)
    requires forall k :: 0 <= k < m ==> s(k) == p(k) + 2.0 * q(k) + r(k)
    ensures Sum(s, m) == Sum(p, m) + 2.0 * Sum(q, m) + Sum(r, m)
  {
    var part: int -> real := k => p(k) + 2.0 * q(k);
    SumLinear(p, q, part, 1.0, 2.0, m);
    SumAdd(part, r, s, m);
  }

  /** i counts lag i + 1, whose weight among L lags is L - i. */
  function TriangularTerm(P: Matrix, n: nat, L: nat): int -> real { i => Times((L - i) as real, LagSum(P, n, i + 1)) }

  /** (L+1) A(0) + 2 sum over lags 1..L of (L+1-lag) A(lag) */
  function Triangular(P: Matrix, n: nat, L: nat): real {
    Times((L + 1) as real, LagSum(P, n, 0)) + 2.0 * Sum(TriangularTerm(P, n, L), L)
  }

  lemma TimesStep(w: real, a: real)
    ensures Times(w + 1.0, a) == Times(w, a) + a && Times(0.0, a) == 0.0
  {
  }

  lemma WidenTriangle(P: Matrix, n: nat, L: nat)
    requires L > 0
    ensures Triangular(P, n, L) == Triangular(P, n, L - 1) + 2.0 * Sum(PositiveLags(P, n), L) + LagSum(P, n, 0)
  {
    forall i | 0 <= i < L
      ensures TriangularTerm(P, n, L)(i) == TriangularTerm(P, n, L - 1)(i) + PositiveLags(P, n)(i)
    {
      TimesStep((L - 1 - i) as real, LagSum(P, n, i + 1));
    }
    SumAdd(TriangularTerm(P, n, L - 1), PositiveLags(P, n), TriangularTerm(P, n, L), L);
    TimesStep(0.0, LagSum(P, n, L));
    assert TriangularTerm(P, n, L - 1)(L - 1) == 0.0;
    TimesStep(L as real, LagSum(P, n, 0));
  }

  lemma WidenBand(P: Matrix, n: nat, L: nat, m: nat)
    requires ProductTable(P, n) && m >= n + L
    ensures BandEnergy(P, L, m) == Sum(BlockSums(P, L), m) + 2.0 * Sum(PositiveLags(P, n), L) + LagSum(P, n, 0)
  {
    forall k | 0 <= k < m
      ensures BlockSums(P, L + 1)(k) == BlockSums(P, L)(k) + 2.0 * NewRow(P, L)(k) + Diagonally(P, L, L)(k)
    {
      WidenBlock(P, n, L, k);
    }
    SumOfExpansion(BlockSums(P, L + 1), BlockSums(P, L), NewRow(P, L), Diagonally(P, L, L), m);
    NewRows(P, n, L, m);
    DiagonalSum(P, n, L, L, m);
  }

  lemma NarrowestBand(P: Matrix, n: nat, m: nat)
    ensures Triangular(P, n, 0) == LagSum(P, n, 0) && Sum(BlockSums(P, 0), m) == 0.0
  {
    SumZero(BlockSums(P, 0), m);
    TimesStep(0.0, LagSum(P, n, 0));
  }

  /** The triangularly weighted lag sums are the energy of all bands of width L + 1. */
  lemma {:induction false} TriangularIsBandEnergy(P: Matrix, n: nat, L: nat, m: nat)
    requires ProductTable(P, n) && m >= n + L
    ensures Triangular(P, n, L) == BandEnergy(P, L, m)
  {
    WidenBand(P, n, L, m);
    if L == 0 {
      NarrowestBand(P, n, m);
    } else {
      TriangularIsBandEnergy(P, n, L - 1, m);
      WidenTriangle(P, n, L);
    }
  }

  // ----- the series: bands of its product table are squared window sums

  function Table(c: seq<real>): Matrix { (s, t) => Times(Entries(c)(s), Entries(c)(t)) }

  function Backwards(c: seq<real>, k: int): int -> real { j => Entries(c)(k - j) }

  /** c[k] + c[k-1] + ... + c[k-L], entries outside the series counting as zero. */
  function WindowSum(c: seq<real>, L: nat, k: int): real { Sum(Backwards(c, k), L + 1) }

  function SquaredWindows(c: seq<real>, L: nat): int -> real { k => Times(WindowSum(c, L, k), WindowSum(c, L, k)) }

  lemma TableIsProductTable(c: seq<real>)
    ensures ProductTable(Table(c), |c|)
  {
    forall s, t ensures Table(c)(s, t) == Table(c)(t, s) { TimesCommutes(Entries(c)(s), Entries(c)(t)); }
    forall s, t | !(0 <= s < |c|) ensures Table(c)(s, t) == 0.0 {
      TimesUnits(Entries(c)(t));
      TimesCommutes(0.0, Entries(c)(t));
    }
  }

  lemma BandEnergyIsSumOfSquares(c: seq<real>, L: nat, m: nat)
    ensures BandEnergy(Table(c), L, m) == Sum(SquaredWindows(c, L), m)
  {
    forall k | 0 <= k < m ensures BlockSums(Table(c), L + 1)(k) == SquaredWindows(c, L)(k) {
      SumProduct(Backwards(c, k), Backwards(c, k), Block(Table(c), k), L + 1, L + 1);
    }
    SumCongruent(BlockSums(Table(c), L + 1), SquaredWindows(c, L), m);
  }

  /** The squared window sums vanish together exactly when the series does. */
  lemma ZeroEnergyMeansZero(c: seq<real>, L: nat)
    ensures Sum(SquaredWindows(c, L), |c| + L) >= 0.0
    ensures Sum(SquaredWindows(c, L), |c| + L) == 0.0 <==> forall i :: 0 <= i < |c| ==> c[i] == 0.0
  {
    var m, f := |c| + L, SquaredWindows(c, L);
    forall k ensures f(k) >= 0.0 { SquareSign(WindowSum(c, L, k), f(k)); }
    SumNonnegative(f, m);
    if Sum(f, m) == 0.0 {
      forall i | 0 <= i < |c| ensures c[i] == 0.0 { FirstNonzero(c, L, i); }
    }
    if forall i :: 0 <= i < |c| ==> c[i] == 0.0 {
      forall k | 0 <= k < m ensures f(k) == 0.0 {
        forall j ensures Backwards(c, k)(j) == 0.0 { assert Entries(c)(k - j) == 0.0; }
        SumZero(Backwards(c, k), L + 1);
        TimesUnits(0.0);
      }
      SumZero(f, m);
    }
  }

  /** While everything before i is zero, the window ending at i holds c[i] alone. */
  lemma {:induction false} FirstNonzero(c: seq<real>, L: nat, i: nat)
    requires i < |c| && Sum(SquaredWindows(c, L), |c| + L) == 0.0
    ensures c[i] == 0.0
    decreases i
  {
    forall k: nat | k < i ensures c[k] == 0.0 { FirstNonzero(c, L, k); }
    var m, f := |c| + L, SquaredWindows(c, L);
    forall k ensures f(k) >= 0.0 { SquareSign(WindowSum(c, L, k), f(k)); }
    SumDominates(f, m, i);
    SquareSign(WindowSum(c, L, i), f(i));
    forall j | 1 <= j < L + 1 ensures Backwards(c, i)(j) == 0.0 {
      assert Entries(c)(i - j) == 0.0;
    }
    SumFirst(Backwards(c, i), L + 1);
    assert Backwards(c, i)(0) == Entries(c)(i - 0) == c[i];
    assert f(i) == 0.0;
  }

  lemma SumFirst(f: int -> real, n: nat)
    requires n > 0 && forall j :: 1 <= j < n ==> f(j) == 0.0
    ensures Sum(f, n) == f(0)
  {
    SumSplit(f, Shifted(f, 1), 1, n - 1);
    SumZero(Shifted(f, 1), n - 1);
    assert Sum(f, 1) == f(0);
  }

  // ----- the Bartlett-weighted variance

  /** i counts lag i + 1: 2 (1 - lag/(L+1)) gamma_lag. */
  function BartlettTerm(c: seq<real>, L: nat): int -> real
    requires |c| > 0
  {
    i => BartlettWeighted((i + 1) as real, (L + 1) as real, LagSum(Table(c), |c|, i + 1) / |c| as real)
  }

  function BartlettWeighted(lag: real, width: real, gamma: real): real
    requires width > 0.0
  {
    2.0 * (1.0 - lag / width) * gamma
  }

  function BartlettVariance(c: seq<real>, L: nat): real
    requires |c| > 0
  {
    LagSum(Table(c), |c|, 0) / |c| as real + Sum(BartlettTerm(c, L), L)
  }

  lemma RescaledWeight(lag: real, M: real, N: real, a: real)
    requires M > 0.0 && N > 0.0
    ensures Times(N, M) > 0.0
    ensures BartlettWeighted(lag, M, a / N) == Times(2.0 / Times(N, M), Times(M - lag, a))
  {
    PositiveProduct(N, M, Times(N, M));
    var q, r, d := lag / M, a / N, 2.0 / Times(N, M);
    assert q * M == lag && r * N == a && d * (N * M) == 2.0;
    calc {
      d * ((M - lag) * a);
    ==
      d * ((M - q * M) * (r * N));
    ==
      d * (N * M) * ((1.0 - q) * r);
    ==
      2.0 * ((1.0 - q) * r);
    }
  }

  lemma CombineWeights(N: real, M: real, a0: real, s: real)
    requires M > 0.0 && N > 0.0
    ensures Times(N, M) > 0.0
    ensures a0 / N + Times(2.0 / Times(N, M), s) == (Times(M, a0) + 2.0 * s) / Times(N, M)
  {
    PositiveProduct(N, M, Times(N, M));
    var D := Times(N, M);
    var r, d := a0 / N, 2.0 / D;
    assert r * N == a0 && d * D == 2.0;
    assert (r + d * s) * D == M * (r * N) + (d * D) * s;
    DivideBack(r + d * s, D, Times(M, a0) + 2.0 * s);
  }

  lemma DivideBack(x: real, d: real, y: real)
    requires d > 0.0 && x * d == y
    ensures x == y / d
  {
  }

  lemma BartlettIsTriangular(c: seq<real>, L: nat)
    requires |c| > 0
    ensures var D := Times(|c| as real, (L + 1) as real);
            D > 0.0 && BartlettVariance(c, L) == Triangular(Table(c), |c|, L) / D
  {
    var P, n, N, M := Table(c), |c|, |c| as real, (L + 1) as real;
    PositiveProduct(N, M, Times(N, M));
    forall i | 0 <= i < L ensures BartlettTerm(c, L)(i) == Times(2.0 / Times(N, M), TriangularTerm(P, n, L)(i)) {
      RescaledWeight((i + 1) as real, M, N, LagSum(P, n, i + 1));
    }
    SumScale(TriangularTerm(P, n, L), BartlettTerm(c, L), 2.0 / Times(N, M), L);
    CombineWeights(N, M, LagSum(P, n, 0), Sum(TriangularTerm(P, n, L), L));
  }

  /**
   * For every series and every lag count, the Bartlett variance is the mean square of the window sums
   * over L + 1 consecutive entries; so it is never negative, and zero only for a zero series.
   */
  lemma BartlettIsSumOfSquares(c: seq<real>, L: nat)
    requires |c| > 0
    ensures var D := Times(|c| as real, (L + 1) as real);
            D > 0.0 && BartlettVariance(c, L) == Sum(SquaredWindows(c, L), |c| + L) / D
    ensures BartlettVariance(c, L) >= 0.0
    ensures BartlettVariance(c, L) == 0.0 <==> forall i :: 0 <= i < |c| ==> c[i] == 0.0
  {
    var D := Times(|c| as real, (L + 1) as real);
    BartlettIsTriangular(c, L);
    TableIsProductTable(c);
    TriangularIsBandEnergy(Table(c), |c|, L, |c| + L);
    BandEnergyIsSumOfSquares(c, L, |c| + L);
    ZeroEnergyMeansZero(c, L);
    QuotientSign(Sum(SquaredWindows(c, L), |c| + L), D);
  }

  lemma QuotientSign(s: real, d: real)
    requires s >= 0.0 && d > 0.0
    ensures s / d >= 0.0 && (s / d == 0.0 <==> s == 0.0)
  {
    var q := s / d;
    assert q * d == s;
    CancelPositive(d, q);
  }

  // ----- the statistic

  /** mean / sqrt(variance / n), with the variance kept instead of its root; infinite or zero when degenerate. */
  datatype TStat = NotEnoughPeriods | PlusInfinity | MinusInfinity | Zero | Finite(mean: real, variance: real)

  datatype Significance = Significance(mean: real, t: TStat, periods: nat, lags: nat)

  function Mean(values: seq<real>): real
    requires |values| > 0
  {
    Total(values) / |values| as real
  }

  function Demeaned(values: seq<real>): (c: seq<real>)
    requires |values| > 0
    ensures |c| == |values|
  {
    var mean := Mean(values);
    seq(|values|, i requires 0 <= i < |values| => values[i] - mean)
  }

  function ClampedLags(n: nat, lags: int): nat {
    var most := if n == 0 then 0 else n - 1;
    if lags < 0 then 0 else if lags > most then most else lags
  }

  /** c totals zero and its entries differ from one another by what those of values differ by. */
  ghost predicate IsDemeaned(c: seq<real>, values: seq<real>) {
    && |c| == |values| && Total(c) == 0.0
    && forall i, j :: 0 <= i < |c| && 0 <= j < |c| ==> c[i] - c[j] == values[i] - values[j]
  }

  lemma MeanAndDeviations(values: seq<real>)
    requires |values| > 0
    ensures Times(|values| as real, Mean(values)) == Total(values)
    ensures IsDemeaned(Demeaned(values), values)
  {
    var n, mean, c := |values|, Mean(values), Demeaned(values);
    var constant := seq(n, _ => mean);
    SumConstant(Entries(constant), n, mean);
    SumAdd(Entries(c), Entries(constant), Entries(values), n);
  }

  function Distance(a: int, b: int): nat { if a < b then b - a else a - b }

  /** Clamping answers with the usable lag count nearest to the one asked for. */
  lemma ClampedIsNearest(n: nat, lags: int)
    requires n > 0
    ensures ClampedLags(n, lags) < n
    ensures forall k: nat :: k < n ==> Distance(lags, ClampedLags(n, lags)) <= Distance(lags, k)
  {
  }

  ghost predicate Constant(values: seq<real>) {
    forall i, j :: 0 <= i < |values| && 0 <= j < |values| ==> values[i] == values[j]
  }

  lemma DemeanedVanishesOnConstants(values: seq<real>)
    requires |values| > 0
    ensures (forall i :: 0 <= i < |values| ==> Demeaned(values)[i] == 0.0) <==> Constant(values)
    ensures Constant(values) ==> Mean(values) == values[0]
  {
    if Constant(values) {
      SumConstant(Entries(values), |values|, values[0]);
      DivideBack(values[0], |values| as real, Total(values));
    } else {
      var i, j :| 0 <= i < |values| && 0 <= j < |values| && values[i] != values[j];
      assert Demeaned(values)[i] - Demeaned(values)[j] == values[i] - values[j];
    }
  }

  function SliceTerm(a: seq<real>, b: seq<real>): int -> real { i => Times(Entries(a)(i), Entries(b)(i)) }

  lemma SliceEntry(c: seq<real>, lag: nat, t: nat)
    requires lag <= |c|
    ensures t < |c| - lag ==> Offset(Table(c), lag)(t) == SliceTerm(c[lag..], c[..|c| - lag])(t)
    ensures |c| - lag <= t < |c| ==> Offset(Table(c), lag)(t) == 0.0
  {
    assert Offset(Table(c), lag)(t) == Table(c)(t, t + lag) == Times(Entries(c)(t), Entries(c)(t + lag));
    TimesUnits(Entries(c)(t));
    if t < |c| - lag {
      var late, early := c[lag..], c[..|c| - lag];
      assert Entries(late)(t) == late[t] == c[t + lag] && Entries(early)(t) == early[t] == c[t];
      TimesCommutes(c[t], c[t + lag]);
    }
  }

  /** np.dot(c[lag:], c[:-lag]) is the lag sum of the whole zero-padded series. */
  lemma SlicesGiveLagSum(c: seq<real>, lag: nat)
    requires lag <= |c|
    ensures Sum(SliceTerm(c[lag..], c[..|c| - lag]), |c| - lag) == LagSum(Table(c), |c|, lag)
  {
    var m, slices, full := |c| - lag, SliceTerm(c[lag..], c[..|c| - lag]), Offset(Table(c), lag);
    var rest := Shifted(full, m);
    forall t | 0 <= t < m ensures full(t) == slices(t) { SliceEntry(c, lag, t); }
    forall t | 0 <= t < lag ensures rest(t) == 0.0 { SliceEntry(c, lag, m + t); }
    SumSplit(full, rest, m, lag);
    SumZero(rest, lag);
    SumCongruent(full, slices, m);
  }

  method AccumulateVariance(c: seq<real>, L: nat) returns (variance: real)
    requires |c| > 0 && L < |c|
    ensures variance == BartlettVariance(c, L)
  {
    SlicesGiveLagSum(c, 0);
    assert c[0..] == c && c[..|c|] == c;
    variance := Sum(SliceTerm(c, c), |c|) / |c| as real;
    for lag := 1 to L + 1
      invariant variance == LagSum(Table(c), |c|, 0) / |c| as real + Sum(BartlettTerm(c, L), lag - 1)
    {
      SlicesGiveLagSum(c, lag);
      var covariance := Sum(SliceTerm(c[lag..], c[..|c| - lag]), |c| - lag) / |c| as real;
      var weight := 1.0 - lag as real / (L + 1) as real;
      variance := variance + 2.0 * weight * covariance;
    }
  }

  /**
   * The statistic of a cleaned series, with the lag count either requested or the automatic one.
   * The clamp at zero never alters the variance, and the degenerate answers mean a constant series.
   */
  method IcNeweyWest(values: seq<real>, requested: Option<int>, automatic: int) returns (r: Significance)
    ensures r.periods == |values|
    ensures |values| < 10 ==>
      && r.t == NotEnoughPeriods && r.mean == 0.0
      && r.lags == match requested { case None => 0 case Some(l) => if l < 0 then 0 else l }
    ensures |values| >= 10 ==>
      && Times(|values| as real, r.mean) == Total(values) && IsDemeaned(Demeaned(values), values)
      && r.lags == ClampedLags(|values|, match requested { case None => automatic case Some(l) => l })
      && r.t != NotEnoughPeriods
      && (r.t.Finite? <==> !Constant(values))
      && (r.t.Finite? ==> r.t.mean == r.mean && r.t.variance == BartlettVariance(Demeaned(values), r.lags) > 0.0)
      && (r.t == PlusInfinity <==> Constant(values) && values[0] > 0.0)
      && (r.t == MinusInfinity <==> Constant(values) && values[0] < 0.0)
  {
    var n := |values|;
    if n < 10 {
      var lags := match requested { case None => 0 case Some(l) => if l < 0 then 0 else l };
      return Significance(0.0, NotEnoughPeriods, n, lags);
    }
    var mean := Mean(values);
    var lags := ClampedLags(n, match requested { case None => automatic case Some(l) => l });
    var centered := Demeaned(values);
    var variance := AccumulateVariance(centered, lags);
    BartlettIsSumOfSquares(centered, lags);
    DemeanedVanishesOnConstants(values);
    MeanAndDeviations(values);
    variance := if variance < 0.0 then 0.0 else variance;
    var t :=
      if variance <= 0.0 then (if mean > 0.0 then PlusInfinity else if mean < 0.0 then MinusInfinity else Zero)
      else Finite(mean, variance);
    r := Significance(mean, t, n, lags);
  }
}
