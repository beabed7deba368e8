/**
 * Hierarchical risk parity: the risk budget is split top-down along a given leaf order, each half
 * receiving a share inverse to its cluster variance.
 */
module HierarchicalRiskParity {
  import opened Collections
  import opened RealAlgebra
  import opened Sums
  import opened QuadraticForms
  import opened LedoitWolf

  function InverseVariance(C: Matrix, items: seq<nat>): int -> real {
    k => Ratio(1.0, Floored(Submatrix(C, items)(k, k)))
  }

  /** The inverse-variance portfolio inside one cluster. */
  function ClusterPortfolio(C: Matrix, items: seq<nat>): int -> real {
    k => Ratio(InverseVariance(C, items)(k), Sum(InverseVariance(C, items), |items|))
  }

  function ClusterVariance(C: Matrix, items: seq<nat>): real {
    Quad(Submatrix(C, items), ClusterPortfolio(C, items), |items|)
  }

  /** x divides one unit among the members so that each carries the same weight times (floored) variance. */
  ghost predicate IsRiskBalanced(C: Matrix, items: seq<nat>, x: int -> real) {
    && Sum(x, |items|) == 1.0
    && forall k, l :: 0 <= k < |items| && 0 <= l < |items| ==> RiskAt(C, items, x, k) == RiskAt(C, items, x, l)
  }

  function RiskAt(C: Matrix, items: seq<nat>, x: int -> real, k: nat): real
    requires k < |items|
  {
    Times(x(k), Floored(C(items[k], items[k])))
  }

  lemma InverseAt(C: Matrix, items: seq<nat>, k: nat)
    requires k < |items|
    ensures var inverse, v := InverseVariance(C, items), Floored(C(items[k], items[k]));
            v > 0.0 && inverse(k) == Ratio(1.0, v) && inverse(k) > 0.0 && Times(inverse(k), v) == 1.0
  {
    assert Pick(items, k) == items[k];
    assert Submatrix(C, items)(k, k) == C(items[k], items[k]);
    RatioUndone(1.0, Floored(C(items[k], items[k])));
  }

  lemma InverseTotalIsPositive(C: Matrix, items: seq<nat>)
    requires |items| > 0
    ensures Sum(InverseVariance(C, items), |items|) > 0.0
  {
    forall k | 0 <= k < |items| ensures InverseVariance(C, items)(k) >= 0.0 { InverseAt(C, items, k); }
    InverseAt(C, items, 0);
    SumDominates(InverseVariance(C, items), |items|, 0);
  }

  /** The portfolio inside a non-empty cluster is balanced, and no other one is. */
  lemma ClusterPortfolioIsBalanced(C: Matrix, items: seq<nat>, x: int -> real)
    requires |items| > 0
    ensures IsRiskBalanced(C, items, ClusterPortfolio(C, items))
    ensures IsRiskBalanced(C, items, x) ==> forall k :: 0 <= k < |items| ==> x(k) == ClusterPortfolio(C, items)(k)
  {
    var inverse, n, p := InverseVariance(C, items), |items|, ClusterPortfolio(C, items);
    var total := Sum(inverse, n);
    InverseTotalIsPositive(C, items);
    forall k | 0 <= k < n ensures p(k) == Times(Ratio(1.0, total), inverse(k)) { RatioSplits(inverse(k), total); }
    SumScale(inverse, p, Ratio(1.0, total), n);
    RatioUndone(1.0, total);
    TimesCommutes(total, Ratio(1.0, total));
    forall k | 0 <= k < n ensures RiskAt(C, items, p, k) == Ratio(1.0, total) {
      InverseAt(C, items, k);
      PassThrough(Ratio(1.0, total), inverse(k), Floored(C(items[k], items[k])));
    }
    if IsRiskBalanced(C, items, x) { BalancedIsInverse(C, items, x); }
  }

  lemma PassThrough(a: real, b: real, v: real)
    requires Times(b, v) == 1.0
    ensures Times(Times(a, b), v) == a
  {
    Associate(a, b, v);
  }

  lemma BalancedIsInverse(C: Matrix, items: seq<nat>, x: int -> real)
    requires |items| > 0 && IsRiskBalanced(C, items, x)
    ensures forall k :: 0 <= k < |items| ==> x(k) == ClusterPortfolio(C, items)(k)
  {
    var inverse, n, c := InverseVariance(C, items), |items|, RiskAt(C, items, x, 0);
    var total := Sum(inverse, n);
    InverseTotalIsPositive(C, items);
    forall k | 0 <= k < n ensures x(k) == Times(c, inverse(k)) {
      var v := Floored(C(items[k], items[k]));
      InverseAt(C, items, k);
      assert RiskAt(C, items, x, k) == c;
      TimesCommutes(inverse(k), v);
      PassThrough(x(k), v, inverse(k));
    }
    SumScale(inverse, x, c, n);
    RatioUndone(1.0, total);
    assert c == Ratio(1.0, total) by { TimesCommutes(c, total); OnlyReciprocal(total, c, Ratio(1.0, total)); }
    forall k | 0 <= k < n ensures x(k) == ClusterPortfolio(C, items)(k) { RatioSplits(inverse(k), total); }
  }

  lemma OnlyReciprocal(total: real, x: real, y: real)
    requires total > 0.0 && Times(total, x) == 1.0 && Times(total, y) == 1.0
    ensures x == y
  {
    assert total * (x - y) == 0.0;
  }

  /** The cluster variance is that of the balanced portfolio, however it is come by. */
  lemma ClusterVarianceOfBalanced(C: Matrix, items: seq<nat>, x: int -> real)
    requires |items| > 0 && IsRiskBalanced(C, items, x)
    ensures ClusterVariance(C, items) == Quad(Submatrix(C, items), x, |items|)
  {
    ClusterPortfolioIsBalanced(C, items, x);
    var D, n, p := Submatrix(C, items), |items|, ClusterPortfolio(C, items);
    forall i, j | 0 <= i < n && 0 <= j < n
      ensures Weighted(D, x)(i, j) == 1.0 * Weighted(D, p)(i, j) + 0.0 * Weighted(D, p)(i, j)
    {
      assert x(i) == p(i) && x(j) == p(j);
    }
    Sum2Linear(Weighted(D, p), Weighted(D, p), Weighted(D, x), 1.0, 0.0, n, n);
  }

  ghost predicate AllBelow(items: seq<nat>, n: nat) { forall i :: i in items ==> i < n }

  lemma ClusterVarianceIsNonnegative(C: Matrix, items: seq<nat>, n: nat)
    requires PositiveSemidefinite(C, n) && AllBelow(items, n)
    ensures ClusterVariance(C, items) >= 0.0
  {
    SubmatrixIsPositiveSemidefinite(C, items, n);
  }

  /** The share of the budget that goes to the left half. */
  function LeftShare(C: Matrix, left: seq<nat>, right: seq<nat>): real {
    var l, r := ClusterVariance(C, left), ClusterVariance(C, right);
    if l + r > 0.0 then 1.0 - l / (l + r) else 0.5
  }

  /** The split is a proper share, and it equalizes share times variance across the two halves. */
  lemma LeftShareBalances(C: Matrix, left: seq<nat>, right: seq<nat>, n: nat)
    requires PositiveSemidefinite(C, n) && AllBelow(left, n) && AllBelow(right, n)
    ensures 0.0 <= LeftShare(C, left, right) <= 1.0
    ensures var a := LeftShare(C, left, right);
            a * ClusterVariance(C, left) == (1.0 - a) * ClusterVariance(C, right)
  {
    ClusterVarianceIsNonnegative(C, left, n);
    ClusterVarianceIsNonnegative(C, right, n);
    ShareOf(ClusterVariance(C, left), ClusterVariance(C, right));
  }

  lemma ShareOf(l: real, r: real)
    requires l >= 0.0 && r >= 0.0
    ensures var a := if l + r > 0.0 then 1.0 - l / (l + r) else 0.5;
            0.0 <= a <= 1.0 && a * l == (1.0 - a) * r
  {
    if l + r > 0.0 {
      var d, q := l + r, l / (l + r);
      assert q * d == l;
      CancelPositive(d, q);
      CancelPositive(d, 1.0 - q);
      assert (1.0 - q) * l - q * r == l - q * d;
    }
  }

  // ----- bisection on values

  /** A rule giving the left half's share of the budget of a cluster cut into two halves. */
  type ShareRule = (seq<nat>, seq<nat>) -> real

  function ByVariance(C: Matrix): ShareRule { (left, right) => LeftShare(C, left, right) }

  /** a is a proper share that makes share times variance equal in both halves, a half's variance being that of the
    * balanced portfolio in it; it is one half when neither half varies. */
  ghost predicate SplitsPair(C: Matrix, left: seq<nat>, right: seq<nat>, a: real) {
    && 0.0 <= a <= 1.0
    && forall x, y :: IsRiskBalanced(C, left, x) && IsRiskBalanced(C, right, y) ==>
         var l, r := Quad(Submatrix(C, left), x, |left|), Quad(Submatrix(C, right), y, |right|);
         Times(a, l) == Times(1.0 - a, r) && (l == r ==> a == 0.5)
  }

  ghost predicate SplitsRisk(share: ShareRule, C: Matrix, n: nat) {
    forall left, right :: |left| > 0 && |right| > 0 && AllBelow(left, n) && AllBelow(right, n) ==>
      SplitsPair(C, left, right, share(left, right))
  }

  lemma VarianceSplitsRisk(C: Matrix, n: nat)
    ensures PositiveSemidefinite(C, n) ==> SplitsRisk(ByVariance(C), C, n)
  {
    if !PositiveSemidefinite(C, n) { return; }
    forall left, right | |left| > 0 && |right| > 0 && AllBelow(left, n) && AllBelow(right, n)
      ensures SplitsPair(C, left, right, ByVariance(C)(left, right))
    {
      var a := LeftShare(C, left, right);
      LeftShareBalances(C, left, right, n);
      forall x, y | IsRiskBalanced(C, left, x) && IsRiskBalanced(C, right, y)
        ensures var l, r := Quad(Submatrix(C, left), x, |left|), Quad(Submatrix(C, right), y, |right|);
                Times(a, l) == Times(1.0 - a, r) && (l == r ==> a == 0.5)
      {
        ClusterVarianceOfBalanced(C, left, x);
        ClusterVarianceOfBalanced(C, right, y);
        EvenHalves(ClusterVariance(C, left), ClusterVariance(C, right), a);
      }
    }
  }

  lemma EvenHalves(l: real, r: real, a: real)
    requires a == if l + r > 0.0 then 1.0 - l / (l + r) else 0.5
    ensures l == r ==> a == 0.5
  {
    if l + r > 0.0 && l == r {
      assert l / (l + l) * (l + l) == l;
      assert (l / (l + l) - 0.5) * (l + l) == 0.0;
    }
  }

  /** The final weights of a cluster's members, in order, when the cluster holds the budget w. */
  function Bisected(share: ShareRule, items: seq<nat>, w: real): (ws: seq<real>)
    ensures |ws| == |items|
    decreases |items|
  {
    if |items| <= 1 then seq(|items|, _ => w)
    else
      var mid := |items| / 2;
      var left, right := items[..mid], items[mid..];
      var alpha := share(left, right);
      Bisected(share, left, Times(w, alpha)) + Bisected(share, right, Times(w, 1.0 - alpha))
  }

  lemma SplitBudget(w: real, alpha: real)
    ensures Times(w, alpha) + Times(w, 1.0 - alpha) == w
    ensures w >= 0.0 && 0.0 <= alpha <= 1.0 ==> 0.0 <= Times(w, alpha) <= w && 0.0 <= Times(w, 1.0 - alpha) <= w
  {
    if w >= 0.0 && 0.0 <= alpha <= 1.0 {
      NonnegativeProduct(w, alpha);
      NonnegativeProduct(w, 1.0 - alpha);
    }
  }

  lemma JoinHalves(left: seq<real>, right: seq<real>, w: real, alpha: real)
    requires Total(left) == Times(w, alpha) && Total(right) == Times(w, 1.0 - alpha)
    ensures Total(left + right) == w
  {
    SplitBudget(w, alpha);
    TotalConcat(left, right);
  }

  /** Whatever the share rule, the members of a cluster end up holding exactly the cluster's budget. */
  lemma {:induction false} BisectionConservesBudget(share: ShareRule, items: seq<nat>, w: real)
    requires |items| > 0
    ensures Total(Bisected(share, items, w)) == w
    decreases |items|
  {
    if |items| == 1 {
      SingleTotal(w);
      assert Bisected(share, items, w) == [w];
    } else {
      var mid := |items| / 2;
      var left, right := items[..mid], items[mid..];
      var alpha := share(left, right);
      BisectionConservesBudget(share, left, Times(w, alpha));
      BisectionConservesBudget(share, right, Times(w, 1.0 - alpha));
      HalvesConserveBudget(share, items, w, left, right, alpha);
    }
  }

  lemma HalvesConserveBudget(share: ShareRule, items: seq<nat>, w: real, left: seq<nat>, right: seq<nat>, alpha: real)
    requires |items| > 1 && alpha == share(left, right)
    requires left == items[..|items| / 2] && right == items[|items| / 2..]
    requires Total(Bisected(share, left, Times(w, alpha))) == Times(w, alpha)
    requires Total(Bisected(share, right, Times(w, 1.0 - alpha))) == Times(w, 1.0 - alpha)
    ensures Total(Bisected(share, items, w)) == w
  {
    JoinHalves(Bisected(share, left, Times(w, alpha)), Bisected(share, right, Times(w, 1.0 - alpha)), w, alpha);
  }

  /** The first half of a cluster ends up holding the left share of its budget, the second half the rest. */
  lemma HalvesHoldShares(share: ShareRule, items: seq<nat>, w: real)
    requires |items| > 1
    ensures var mid := |items| / 2;
            var alpha := share(items[..mid], items[mid..]);
            && Total(Bisected(share, items, w)[..mid]) == Times(w, alpha)
            && Total(Bisected(share, items, w)[mid..]) == Times(w, 1.0 - alpha)
  {
    var mid := |items| / 2;
    var left, right := items[..mid], items[mid..];
    var alpha := share(left, right);
    BisectionConservesBudget(share, left, Times(w, alpha));
    BisectionConservesBudget(share, right, Times(w, 1.0 - alpha));
    assert Bisected(share, items, w)[..mid] == Bisected(share, left, Times(w, alpha));
    assert Bisected(share, items, w)[mid..] == Bisected(share, right, Times(w, 1.0 - alpha));
  }

  ghost predicate AllWithin(ws: seq<real>, w: real) {
    forall k :: 0 <= k < |ws| ==> 0.0 <= ws[k] <= w
  }

  /** The rule splits every cluster of the first n items into shares between 0 and 1. */
  ghost predicate SplitsProperly(share: ShareRule, n: nat) {
    forall left, right :: AllBelow(left, n) && AllBelow(right, n) ==> 0.0 <= share(left, right) <= 1.0
  }

  lemma VarianceSplitsProperly(C: Matrix, n: nat)
    requires PositiveSemidefinite(C, n)
    ensures SplitsProperly(ByVariance(C), n)
  {
    forall left, right | AllBelow(left, n) && AllBelow(right, n) ensures 0.0 <= ByVariance(C)(left, right) <= 1.0 {
      LeftShareBalances(C, left, right, n);
    }
  }

  /** Under a proper rule nobody is short and nobody exceeds the cluster's budget. */
  lemma {:induction false} BisectionStaysWithinBudget(share: ShareRule, items: seq<nat>, w: real, n: nat)
    requires SplitsProperly(share, n) && AllBelow(items, n) && w >= 0.0
    ensures AllWithin(Bisected(share, items, w), w)
    decreases |items|
  {
    if |items| > 1 {
      var mid := |items| / 2;
      var left, right := items[..mid], items[mid..];
      assert forall i :: i in left || i in right ==> i in items;
      var alpha := share(left, right);
      SplitBudget(w, alpha);
      BisectionStaysWithinBudget(share, left, Times(w, alpha), n);
      BisectionStaysWithinBudget(share, right, Times(w, 1.0 - alpha), n);
    }
  }

  // ----- bisection in place, as the code runs it

  /** Multiplies the weights at the positions of items, which sit at lo, lo+1, ... */
  method ScaleItems(items: seq<nat>, positionOf: map<nat, nat>, weights: array<real>, factor: real, ghost lo: nat)
    requires lo + |items| <= weights.Length
    requires forall k :: 0 <= k < |items| ==> items[k] in positionOf && positionOf[items[k]] == lo + k
    modifies weights
    ensures forall p :: 0 <= p < weights.Length ==>
              weights[p] == if lo <= p < lo + |items| then Times(old(weights[p]), factor) else old(weights[p])
  {
    for k := 0 to |items|
      invariant forall p :: 0 <= p < weights.Length ==>
                  weights[p] == if lo <= p < lo + k then Times(old(weights[p]), factor) else old(weights[p])
    {
      weights[positionOf[items[k]]] := Times(weights[positionOf[items[k]]], factor);
    }
  }

  method Bisect(share: ShareRule, items: seq<nat>, positionOf: map<nat, nat>, weights: array<real>, ghost lo: nat,
    ghost w: real)
    requires lo + |items| <= weights.Length
    requires forall k :: 0 <= k < |items| ==> items[k] in positionOf && positionOf[items[k]] == lo + k
    requires forall p :: lo <= p < lo + |items| ==> weights[p] == w
    modifies weights
    ensures forall p :: 0 <= p < weights.Length ==>
              weights[p] == if lo <= p < lo + |items| then Bisected(share, items, w)[p - lo] else old(weights[p])
    decreases |items|
  {
    if |items| <= 1 { return; }
    var mid := |items| / 2;
    var left, right := items[..mid], items[mid..];
    var alpha := share(left, right);
    ScaleItems(left, positionOf, weights, alpha, lo);
    ScaleItems(right, positionOf, weights, 1.0 - alpha, lo + mid);
    Bisect(share, left, positionOf, weights, lo, Times(w, alpha));
    Bisect(share, right, positionOf, weights, lo + mid, Times(w, 1.0 - alpha));
  }

  ghost predicate IsPermutation(items: seq<nat>, n: nat) {
    && |items| == n
    && (forall k :: 0 <= k < n ==> items[k] < n)
    && (forall i: nat :: i < n ==> i in items)
    && Distinct(items)
  }

  lemma PermutedSum(items: seq<nat>, f: int -> real, n: nat)
    requires IsPermutation(items, n)
    ensures Sum(Through(items, f), n) == Sum(f, n)
  {
    var one: int -> real := i => 1.0;
    ScatterDot(items, one, f, n);
    forall i: nat | i < n ensures Scatter(items, one)(i) == 1.0 {
      assert i in items;
      var k: nat :| k < |items| && items[k] == i;
      forall p | 0 <= p < n && p != k ensures Hit(items, one, i)(p) == 0.0 {
        assert Pick(items, p) == items[p] != items[k];
      }
      assert Pick(items, k) == i;
      SumSingle(Hit(items, one, i), n, k);
    }
    SumCongruent(Product(Scatter(items, one), f), f, n);
    SumCongruent(Product(one, Through(items, f)), Through(items, f), n);
  }

  method PositionMap(sortIx: seq<nat>) returns (positionOf: map<nat, nat>)
    requires Distinct(sortIx)
    ensures forall k :: 0 <= k < |sortIx| ==> sortIx[k] in positionOf && positionOf[sortIx[k]] == k
  {
    positionOf := map[];
    for pos := 0 to |sortIx|
      invariant forall k :: 0 <= k < pos ==> sortIx[k] in positionOf && positionOf[sortIx[k]] == k
    {
      positionOf := positionOf[sortIx[pos] := pos];
    }
  }

  /** result[item] = weights[pos], moving the weights back to the original factor order. */
  method Unsort(sortIx: seq<nat>, weights: seq<real>) returns (result: seq<real>)
    requires IsPermutation(sortIx, |sortIx|) && |weights| == |sortIx|
    ensures |result| == |sortIx|
    ensures forall k :: 0 <= k < |sortIx| ==> result[sortIx[k]] == weights[k]
  {
    var res := new real[|sortIx|](_ => 0.0);
    for pos := 0 to |sortIx|
      invariant forall k :: 0 <= k < pos ==> res[sortIx[k]] == weights[k]
    {
      res[sortIx[pos]] := weights[pos];
    }
    result := res[..];
  }

  method RecursiveBisection(C: Matrix, sortIx: seq<nat>) returns (result: seq<real>)
    requires IsPermutation(sortIx, |sortIx|)
    ensures |result| == |sortIx|
    ensures forall k :: 0 <= k < |sortIx| ==> result[sortIx[k]] == Bisected(ByVariance(C), sortIx, 1.0)[k]
    ensures PositiveSemidefinite(C, |sortIx|) ==> SplitsRisk(ByVariance(C), C, |sortIx|)
  {
    var weights := new real[|sortIx|](_ => 1.0);
    var positionOf := PositionMap(sortIx);
    Bisect(ByVariance(C), sortIx, positionOf, weights, 0, 1.0);
    assert weights[..] == Bisected(ByVariance(C), sortIx, 1.0);
    result := Unsort(sortIx, weights[..]);
    VarianceSplitsRisk(C, |sortIx|);
  }

  /** Over any leaf order and any positive semidefinite covariance, bisection yields a probability vector. */
  lemma BisectionIsProbabilityVector(C: Matrix, sortIx: seq<nat>, result: seq<real>)
    requires IsPermutation(sortIx, |sortIx|) && |sortIx| > 0 && |result| == |sortIx|
    requires PositiveSemidefinite(C, |sortIx|)
    requires forall k :: 0 <= k < |sortIx| ==> result[sortIx[k]] == Bisected(ByVariance(C), sortIx, 1.0)[k]
    ensures IsProbabilityVector(result)
  {
    var n, ws := |sortIx|, Bisected(ByVariance(C), sortIx, 1.0);
    BisectionConservesBudget(ByVariance(C), sortIx, 1.0);
    VarianceSplitsProperly(C, n);
    BisectionStaysWithinBudget(ByVariance(C), sortIx, 1.0, n);
    RearrangedTotal(sortIx, ws, result);
    forall i: nat | i < n ensures 0.0 <= result[i] <= 1.0 {
      assert i in sortIx;
      var k :| 0 <= k < |sortIx| && sortIx[k] == i;
      assert result[sortIx[k]] == ws[k];
    }
  }

  lemma RearrangedTotal(sortIx: seq<nat>, ws: seq<real>, result: seq<real>)
    requires IsPermutation(sortIx, |sortIx|) && |result| == |ws| == |sortIx|
    requires forall k :: 0 <= k < |sortIx| ==> result[sortIx[k]] == ws[k]
    ensures Total(result) == Total(ws)
  {
    var n := |sortIx|;
    PermutedSum(sortIx, Entries(result), n);
    forall k | 0 <= k < n ensures Through(sortIx, Entries(result))(k) == Entries(ws)(k) {
      assert Pick(sortIx, k) == sortIx[k];
    }
    SumCongruent(Through(sortIx, Entries(result)), Entries(ws), n);
  }
}
