/** The allocation pipeline: shrink the covariance, allocate by one method, cap the single weights. */
module Portfolio {
  import opened RealAlgebra
  import opened Sums
  import opened QuadraticForms
  import opened LedoitWolf
  import opened HierarchicalRiskParity
  import opened WeightCap
  import opened Wrappers
  import Dendrogram

  /** The numerical solver behind min_variance, risk_parity and max_sharpe may return any vector. */
  datatype Allocation = EqualWeight | InverseVariances | Hrp(link: seq<Dendrogram.Merge>) | Solver(x: seq<real>)

  ghost predicate ValidFor(a: Allocation, N: nat) {
    match a
    case Hrp(link) => N > 2 ==> Dendrogram.WellFormed(link, N)
    case Solver(x) => |x| == N
    case _ => true
  }

  method HrpWeights(C: Matrix, n: nat, link: seq<Dendrogram.Merge>) returns (w: seq<real>, order: seq<nat>)
    requires n >= 2 && PositiveSemidefinite(C, n)
    requires n > 2 ==> Dendrogram.WellFormed(link, n)
    ensures |w| == n && IsProbabilityVector(w)
    ensures IsPermutation(order, n)
    ensures order == if n == 2 then [0, 1] else Dendrogram.Leaves(link, n, 2 * n - 2)
    ensures SplitsRisk(ByVariance(C), C, n)
    ensures forall k :: 0 <= k < n ==> w[order[k]] == Bisected(ByVariance(C), order, 1.0)[k]
  {
    if n == 2 {
      order := [0, 1];
      assert order[0] == 0 && order[1] == 1;
    } else {
      order := Dendrogram.QuasiDiagonalOrder(link, n);
      Dendrogram.OrderIsPermutation(link, n);
    }
    var weights := RecursiveBisection(C, order);
    BisectionIsProbabilityVector(C, order, weights);
    NormalizeFixesProbabilityVectors(weights);
    w := Normalize(weights);
  }

  function InverseVariances(C: Matrix, N: nat): (inverse: seq<real>)
    ensures |inverse| == N && forall i :: 0 <= i < N ==> inverse[i] == Ratio(1.0, Floored(C(i, i)))
  {
    seq(N, i requires 0 <= i < N => Ratio(1.0, Floored(C(i, i))))
  }

  function InverseVarianceWeights(C: Matrix, N: nat): (w: seq<real>)
    ensures |w| == N
    ensures var inverse := InverseVariances(C, N); forall i :: 0 <= i < N ==> w[i] == Ratio(inverse[i], Total(inverse))
  {
    var inverse := InverseVariances(C, N);
    seq(N, i requires 0 <= i < N => Ratio(inverse[i], Total(inverse)))
  }

  /** Every factor contributes the same amount of weight times variance. */
  ghost predicate BalancesVariance(C: Matrix, w: seq<real>) {
    forall i, j :: 0 <= i < |w| && 0 <= j < |w| ==> VarianceShare(C, w, i) == VarianceShare(C, w, j)
  }

  function VarianceShare(C: Matrix, w: seq<real>, i: nat): real
    requires i < |w|
  {
    Times(w[i], Floored(C(i, i)))
  }

  lemma InverseTimes(v: real, total: real)
    requires v > 0.0 && total > 0.0
    ensures Ratio(1.0, v) > 0.0 && Times(Ratio(Ratio(1.0, v), total), v) == Ratio(1.0, total)
  {
    var inverse := Ratio(1.0, v);
    RatioUndone(1.0, v);
    RatioSign(1.0, v);
    assert v * inverse == 1.0;
    var share := Ratio(inverse, total);
    RatioUndone(inverse, total);
    RatioUndone(1.0, total);
    Associate(total, share, v);
    assert total * (share * v) == 1.0;
    OnlyReciprocal(total, share * v, Ratio(1.0, total));
  }

  lemma SharesAreProbabilities(parts: seq<real>, w: seq<real>)
    requires |parts| > 0 && |w| == |parts|
    requires forall i :: 0 <= i < |parts| ==> parts[i] > 0.0 && w[i] == Ratio(parts[i], Total(parts))
    ensures Total(parts) > 0.0 && IsProbabilityVector(w)
  {
    TotalNonnegative(parts);
    assert parts[0] <= Total(parts);
    RescaledTotal(parts, w, Total(parts));
    TotalNonnegative(w);
  }

  lemma InverseVarianceIsBalanced(C: Matrix, N: nat)
    requires N > 0
    ensures IsProbabilityVector(InverseVarianceWeights(C, N)) && BalancesVariance(C, InverseVarianceWeights(C, N))
  {
    var inverse, w := InverseVariances(C, N), InverseVarianceWeights(C, N);
    forall i | 0 <= i < N ensures inverse[i] > 0.0 { InverseTimes(Floored(C(i, i)), 1.0); }
    SharesAreProbabilities(inverse, w);
    forall i | 0 <= i < N ensures VarianceShare(C, w, i) == Ratio(1.0, Total(inverse)) {
      InverseTimes(Floored(C(i, i)), Total(inverse));
    }
  }

  /** What each method promises about the weights it hands to the cap. */
  ghost predicate IsAllocation(C: Matrix, N: nat, a: Allocation, w: seq<real>) {
    && |w| == N && IsProbabilityVector(w)
    && match a
       case EqualWeight => forall i :: 0 <= i < N ==> Times(w[i], N as real) == 1.0
       case InverseVariances => BalancesVariance(C, w)
       case Hrp(link) => N >= 2 && (N > 2 ==> Dendrogram.WellFormed(link, N))
         && FollowsBisection(C, N, HrpOrder(link, N), w)
       case Solver(x) => IsNormalization(x, w)
  }

  function HrpOrder(link: seq<Dendrogram.Merge>, n: nat): seq<nat>
    requires n >= 2 && (n > 2 ==> Dendrogram.WellFormed(link, n))
  {
    if n == 2 then [0, 1] else Dendrogram.Leaves(link, n, 2 * n - 2)
  }

  /** The factors, in dendrogram order, hold what bisecting the whole budget over that order gives them, each
    * bisection by a share that balances risk. */
  ghost predicate FollowsBisection(C: Matrix, n: nat, order: seq<nat>, w: seq<real>) {
    && |w| == n && IsPermutation(order, n) && SplitsRisk(ByVariance(C), C, n)
    && forall k :: 0 <= k < n ==> w[order[k]] == Bisected(ByVariance(C), order, 1.0)[k]
  }

  lemma EqualIsProbability(w: seq<real>, N: nat)
    requires N > 0 && |w| == N && forall i :: 0 <= i < N ==> w[i] == 1.0 / N as real
    ensures IsProbabilityVector(w) && forall i :: 0 <= i < N ==> Times(w[i], N as real) == 1.0
  {
    var share := 1.0 / N as real;
    TotalOfConstant(w, share);
    assert share * N as real == 1.0;
    assert N as real * share == 1.0;
    TotalNonnegative(w);
  }

  method Allocate(C: Matrix, N: nat, a: Allocation) returns (w: seq<real>)
    requires N >= 2 && PositiveSemidefinite(C, N) && ValidFor(a, N)
    ensures IsAllocation(C, N, a, w)
  {
    match a
    case EqualWeight =>
      w := seq(N, i => 1.0 / N as real);
      EqualIsProbability(w, N);
    case InverseVariances =>
      w := InverseVarianceWeights(C, N);
      InverseVarianceIsBalanced(C, N);
    case Hrp(link) =>
      var order;
      w, order := HrpWeights(C, N, link);
    case Solver(x) =>
      w := Normalize(x);
      NormalizeKeepsProportions(x);
  }

  method ShrunkCovariance(X: Matrix, T: nat, N: nat, std: int -> real) returns (C: Matrix)
    requires T >= 1 && N >= 2
    requires T >= 2 ==> IsStd(std, Sample(Centered(X, T), T), N)
    ensures IsEstimate(C, X, T, N, std) && PositiveSemidefinite(C, N)
    ensures IsCentering(Centered(X, T), X, T, N)
  {
    var delta;
    C, delta := LedoitWolfCovariance(X, T, N, std);
  }

  /** w is the probability vector raw, held to the cap. */
  ghost predicate IsCapped(raw: seq<real>, w: seq<real>, cap: real) {
    && |w| == |raw| && IsProbabilityVector(w)
    && (forall i :: 0 <= i < |w| ==> w[i] <= cap + TOLERANCE)
    && if cap >= 1.0 then w == raw else WaterFilled(raw, w, cap)
  }

  method CapAllocation(raw: seq<real>, maxWeight: real) returns (w: seq<real>)
    requires |raw| > 0 && IsProbabilityVector(raw)
    ensures IsCapped(raw, w, EffectiveMaxWeight(|raw|, maxWeight))
  {
    EffectiveCapIsFeasible(|raw|, maxWeight);
    NormalizeFixesProbabilityVectors(raw);
    w := ApplyMaxWeightCap(raw, EffectiveMaxWeight(|raw|, maxWeight));
  }

  /**
   * Every method, on every returns matrix, ends in a probability vector whose entries respect the
   * effective cap: the method's own weights, filled up to a common level under the cap.  A single factor
   * takes everything; an empty matrix is an error.
   */
  method Optimize(X: Matrix, T: nat, N: nat, std: int -> real, a: Allocation, maxWeight: real)
    returns (r: Result<seq<real>>, ghost C: Matrix, ghost raw: seq<real>)
    requires ValidFor(a, N)
    requires T >= 2 && N >= 2 ==> IsStd(std, Sample(Centered(X, T), T), N)
    ensures r.Raised? <==> T == 0 || N == 0
    ensures T > 0 && N == 1 ==> r == Success([1.0])
    ensures T > 0 && N >= 2 ==>
      && IsCentering(Centered(X, T), X, T, N) && IsEstimate(C, X, T, N, std)
      && PositiveSemidefinite(C, N) && IsAllocation(C, N, a, raw)
      && r.Success? && IsCapped(raw, r.value, EffectiveMaxWeight(N, maxWeight))
  {
    C, raw := (i, j) => 0.0, [];
    if T == 0 || N == 0 { return Raised("returns is empty"), C, raw; }
    if N == 1 { return Success([1.0]), C, raw; }
    var estimate := ShrunkCovariance(X, T, N, std);
    var uncapped := Allocate(estimate, N, a);
    var w := CapAllocation(uncapped, maxWeight);
    return Success(w), estimate, uncapped;
  }

  /** n weights below the cap can add up to one. */
  ghost predicate Feasible(cap: real, n: nat) { Times(cap, n as real) >= 1.0 }

  /** The effective cap is the least feasible one that is not below the one asked for. */
  lemma EffectiveCapIsFeasible(n: nat, maxWeight: real)
    requires n > 0
    ensures EffectiveMaxWeight(n, maxWeight) >= maxWeight && Feasible(EffectiveMaxWeight(n, maxWeight), n)
    ensures forall cap :: cap >= maxWeight && Feasible(cap, n) ==> EffectiveMaxWeight(n, maxWeight) <= cap
  {
    forall cap | cap >= maxWeight && Feasible(cap, n) ensures EffectiveMaxWeight(n, maxWeight) <= cap {
      CancelPositive(n as real, cap - 1.0 / n as real);
    }
    MultiplyInequality(1.0 / n as real, EffectiveMaxWeight(n, maxWeight), n as real);
  }
}
