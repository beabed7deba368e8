/**
 * Combinatorial purged cross-validation: contiguous groups, every choice of half the groups as test set,
 * and the test positions that survive purge and embargo.
 */
module PurgedSplits {

  // ----- contiguous groups

  /** The i-th of n_groups + 1 evenly spaced cut points, truncated to an integer. */
  function Cut(i: nat, n: nat, groups: nat): nat
    requires groups > 0
  {
    i * n / groups
  }

  lemma {:induction false} ProductOrder(x: nat, y: nat, d: nat)
    ensures x < y ==> x * d + d <= y * d
  {
    if x < y {
      ProductOrder(x, y - 1, d);
      assert y * d == (y - 1) * d + d;
    }
  }

  /** z is q times d, the multiple of d just below a. */
  lemma QuotientIs(a: nat, d: nat, q: nat, z: nat)
    requires d > 0 && z == q * d && z <= a < z + d
    ensures a / d == q
  {
    var r := a / d;
    var y := r * d;
    assert y <= a < y + d;
    ProductOrder(r, q, d);
    ProductOrder(q, r, d);
  }

  lemma DivideShifted(a: nat, b: nat, d: nat)
    requires d > 0 && b >= a
    ensures b / d >= a / d
    ensures b >= a + d ==> b / d > a / d
  {
    var q, r := a / d, b / d;
    var x, y := q * d, r * d;
    assert x <= a < x + d;
    assert y <= b < y + d;
    ProductOrder(r, q, d);
  }

  /** The cuts start at 0, end at n, and leave every group non-empty. */
  lemma CutsAreProper(n: nat, groups: nat, i: nat)
    requires groups > 0 && n >= groups && i < groups
    ensures Cut(0, n, groups) == 0 && Cut(groups, n, groups) == n
    ensures Cut(i, n, groups) < Cut(i + 1, n, groups) <= n
  {
    assert (i + 1) * n == i * n + n;
    DivideShifted(i * n, (i + 1) * n, groups);
    ProductOrder(i, groups, n);
    DivideShifted((i + 1) * n, groups * n, groups);
    QuotientIs(groups * n, groups, n, groups * n);
  }

  /** Every cut is the even spacing rounded down, so groups are as equal in size as they can be: each holds n / groups
    * positions or one more. */
  lemma GroupsAreEven(n: nat, groups: nat, i: nat)
    requires groups > 0
    ensures Cut(i, n, groups) * groups <= i * n < Cut(i, n, groups) * groups + groups
    ensures n / groups <= Cut(i + 1, n, groups) - Cut(i, n, groups) <= n / groups + 1
  {
    assert (i + 1) * n == i * n + n;
    QuotientOfSum(i * n, n, groups);
  }

  lemma QuotientOfSum(a: nat, b: nat, d: nat)
    requires d > 0
    ensures a / d + b / d <= (a + b) / d <= a / d + b / d + 1
  {
    var x, y := a / d, b / d;
    QuotientBounds(a, d);
    QuotientBounds(b, d);
    SumOfMultiples(x, y, d);
    QuotientBetween(a + b, d, x + y, (x + y) * d);
  }

  lemma QuotientBounds(a: nat, d: nat)
    requires d > 0
    ensures a / d * d <= a < a / d * d + d
  {
  }

  lemma QuotientBetween(c: nat, d: nat, q: nat, z: nat)
    requires d > 0 && z == q * d && z <= c < z + d + d
    ensures q <= c / d <= q + 1
  {
    SumOfMultiples(q, 0, d);
    if c < z + d { QuotientIs(c, d, q, z); } else { QuotientIs(c, d, q + 1, z + d); }
  }

  lemma SumOfMultiples(x: nat, y: nat, d: nat)
    ensures (x + y) * d == x * d + y * d && (x + y + 1) * d == x * d + y * d + d
  {
  }

  method AssignGroups(n: nat, groups: nat) returns (groupOf: seq<nat>)
    requires groups > 0 && n >= groups
    ensures |groupOf| == n
    ensures forall p :: 0 <= p < n ==>
              groupOf[p] < groups && Cut(groupOf[p], n, groups) <= p < Cut(groupOf[p] + 1, n, groups)
  {
    var buffer := new nat[n];
    CutsAreProper(n, groups, 0);
    for group := 0 to groups
      invariant Cut(group, n, groups) <= n
      invariant forall p :: 0 <= p < Cut(group, n, groups) ==>
                  buffer[p] < group && Cut(buffer[p], n, groups) <= p < Cut(buffer[p] + 1, n, groups)
    {
      CutsAreProper(n, groups, group);
      var lo, hi := Cut(group, n, groups), Cut(group + 1, n, groups);
      forall p | lo <= p < hi { buffer[p] := group; }
    }
    groupOf := buffer[..];
  }

  // ----- choosing the test groups

  function Prefixed(x: nat, cs: seq<seq<nat>>): (r: seq<seq<nat>>)
    ensures |r| == |cs| && forall i :: 0 <= i < |cs| ==> r[i] == [x] + cs[i]
  {
    if |cs| == 0 then [] else [[x] + cs[0]] + Prefixed(x, cs[1..])
  }

  /** itertools.combinations(range(lo, hi), k): the increasing choices of k numbers, in lexicographic order. */
  function Combinations(lo: nat, hi: nat, k: nat): seq<seq<nat>>
    decreases if lo < hi then hi - lo else 0
  {
    if k == 0 then [[]]
    else if lo >= hi then []
    else Prefixed(lo, Combinations(lo + 1, hi, k - 1)) + Combinations(lo + 1, hi, k)
  }

  ghost predicate IsChoice(c: seq<nat>, lo: nat, hi: nat, k: nat) {
    |c| == k && Within(c, lo, hi) && Increasing(c)
  }

  ghost predicate Within(c: seq<nat>, lo: nat, hi: nat) { forall i :: 0 <= i < |c| ==> lo <= c[i] < hi }

  lemma CombinationsAreChoices(lo: nat, hi: nat, k: nat, c: seq<nat>)
    ensures c in Combinations(lo, hi, k) <==> IsChoice(c, lo, hi, k)
  {
    ListedAreChoices(lo, hi, k, c);
    assert Chosen(lo, hi, k)(c) == IsChoice(c, lo, hi, k);
  }

  // Being chosen and being listed, as function values: the induction leaves their definitions to the lemmas below.

  ghost function Chosen(lo: nat, hi: nat, k: nat): seq<nat> -> bool { (c: seq<nat>) => IsChoice(c, lo, hi, k) }

  function Listed(lo: nat, hi: nat, k: nat): seq<nat> -> bool { (c: seq<nat>) => c in Combinations(lo, hi, k) }

  lemma {:induction false} ListedAreChoices(lo: nat, hi: nat, k: nat, c: seq<nat>)
    ensures Listed(lo, hi, k)(c) == Chosen(lo, hi, k)(c)
    decreases if lo < hi then hi - lo else 0
  {
    if k == 0 || lo >= hi {
      NothingToChoose(lo, hi, k, c);
    } else {
      MemberByFirst(c, lo, hi, k);
      ChosenByFirst(c, lo, hi, k);
      ListedAreChoices(lo + 1, hi, k, c);
      if |c| > 0 { ListedAreChoices(lo + 1, hi, k - 1, c[1..]); }
    }
  }

  lemma ChosenByFirst(c: seq<nat>, lo: nat, hi: nat, k: nat)
    requires k > 0 && lo < hi
    ensures Chosen(lo, hi, k)(c) <==>
      (|c| > 0 && c[0] == lo && Chosen(lo + 1, hi, k - 1)(c[1..])) || Chosen(lo + 1, hi, k)(c)
  {
    assert Chosen(lo, hi, k)(c) == IsChoice(c, lo, hi, k) && Chosen(lo + 1, hi, k)(c) == IsChoice(c, lo + 1, hi, k);
    if |c| > 0 {
      assert Chosen(lo + 1, hi, k - 1)(c[1..]) == IsChoice(c[1..], lo + 1, hi, k - 1);
      ChoiceByFirst(c, lo, hi, k);
    }
  }

  lemma NothingToChoose(lo: nat, hi: nat, k: nat, c: seq<nat>)
    requires k == 0 || lo >= hi
    ensures Listed(lo, hi, k)(c) == Chosen(lo, hi, k)(c)
  {
    assert Chosen(lo, hi, k)(c) == IsChoice(c, lo, hi, k);
    assert Combinations(lo, hi, k) == if k == 0 then [[]] else [];
    if |c| > 0 && lo >= hi { assert !(lo <= c[0] < hi); }
  }

  /** A combination is listed with the least number on offer in front, or among those without it. */
  lemma MemberByFirst(c: seq<nat>, lo: nat, hi: nat, k: nat)
    requires k > 0 && lo < hi
    ensures Listed(lo, hi, k)(c) <==>
      (|c| > 0 && c[0] == lo && Listed(lo + 1, hi, k - 1)(c[1..])) || Listed(lo + 1, hi, k)(c)
  {
    var with, without := Combinations(lo + 1, hi, k - 1), Combinations(lo + 1, hi, k);
    ConcatMember(Prefixed(lo, with), without, c);
    if |c| > 0 { PrefixedMember(lo, with, c); }
  }

  lemma ConcatMember<T>(a: seq<T>, b: seq<T>, x: T)
    ensures x in a + b <==> x in a || x in b
  {
  }

  /** A choice either starts with the least number on offer or does without it. */
  lemma ChoiceByFirst(c: seq<nat>, lo: nat, hi: nat, k: nat)
    requires |c| > 0 && k > 0 && lo < hi
    ensures IsChoice(c, lo, hi, k) <==>
      (c[0] == lo && IsChoice(c[1..], lo + 1, hi, k - 1)) || IsChoice(c, lo + 1, hi, k)
  {
    if IsChoice(c, lo, hi, k) {
      forall i | 0 <= i < k - 1 ensures c[1..][i] > c[0] && c[1..][i] == c[i + 1] && c[i + 1] < hi {
        assert c[0] < c[i + 1];
      }
      if c[0] != lo { assert forall i :: 1 <= i < k ==> c[0] < c[i]; }
    }
    if c[0] == lo && IsChoice(c[1..], lo + 1, hi, k - 1) {
      forall i | 1 <= i < k ensures c[i] == c[1..][i - 1] { }
      forall i, j | 0 <= i < j < k ensures c[i] < c[j] {
        if i > 0 { assert c[1..][i - 1] < c[1..][j - 1]; }
      }
    }
  }

  lemma PrefixedMember(x: nat, cs: seq<seq<nat>>, c: seq<nat>)
    requires |c| > 0
    ensures c in Prefixed(x, cs) <==> (c[0] == x && c[1..] in cs)
  {
    if c in Prefixed(x, cs) {
      var i :| 0 <= i < |cs| && Prefixed(x, cs)[i] == c;
      assert c == [x] + cs[i] && c[1..] == cs[i];
    }
    if c[0] == x && c[1..] in cs {
      var i :| 0 <= i < |cs| && cs[i] == c[1..];
      assert Prefixed(x, cs)[i] == c;
    }
  }

  /** How many of the choices include x. */
  function CountWith(cs: seq<seq<nat>>, x: nat): nat {
    if |cs| == 0 then 0 else (if x in cs[0] then 1 else 0) + CountWith(cs[1..], x)
  }

  lemma {:induction false} CountWithConcat(a: seq<seq<nat>>, b: seq<seq<nat>>, x: nat)
    ensures CountWith(a + b, x) == CountWith(a, x) + CountWith(b, x)
  {
    if |a| == 0 {
      assert a + b == b;
    } else {
      assert (a + b)[1..] == a[1..] + b;
      CountWithConcat(a[1..], b, x);
    }
  }

  lemma {:induction false} CountWithPrefixed(lo: nat, cs: seq<seq<nat>>, x: nat)
    ensures CountWith(Prefixed(lo, cs), x) == if x == lo then |cs| else CountWith(cs, x)
  {
    if |cs| != 0 {
      CountWithPrefixed(lo, cs[1..], x);
      assert Prefixed(lo, cs)[1..] == Prefixed(lo, cs[1..]);
    }
  }

  lemma {:induction false} CountWithAbsent(cs: seq<seq<nat>>, x: nat)
    requires forall c :: c in cs ==> x !in c
    ensures CountWith(cs, x) == 0
  {
    if |cs| != 0 {
      assert cs[0] in cs;
      CountWithAbsent(cs[1..], x);
    }
  }

  function Binomial(n: nat, k: nat): nat {
    if k == 0 then 1 else if n == 0 then 0 else Binomial(n - 1, k - 1) + Binomial(n - 1, k)
  }

  lemma Pascal(n: nat, k: nat)
    requires n > 0 && k > 0
    ensures Binomial(n, k) == Binomial(n - 1, k - 1) + Binomial(n - 1, k)
  {
  }

  lemma {:induction false} BinomialVanishes(n: nat, k: nat)
    requires k > n
    ensures Binomial(n, k) == 0
  {
    if n != 0 {
      BinomialVanishes(n - 1, k - 1);
      BinomialVanishes(n - 1, k);
    }
  }

  lemma {:induction false} BinomialIsSymmetric(n: nat, k: nat)
    requires k <= n
    ensures Binomial(n, k) == Binomial(n, n - k)
  {
    if n == 0 {
    } else if k == 0 || k == n {
      BinomialVanishes(n - 1, n);
      BinomialIsSymmetric(n - 1, 0);
    } else {
      BinomialIsSymmetric(n - 1, k - 1);
      BinomialIsSymmetric(n - 1, k);
    }
  }

  lemma {:induction false} CombinationCount(lo: nat, hi: nat, k: nat)
    requires lo <= hi
    ensures |Combinations(lo, hi, k)| == Binomial(hi - lo, k)
    decreases hi - lo
  {
    if k != 0 && lo < hi {
      CombinationCount(lo + 1, hi, k - 1);
      CombinationCount(lo + 1, hi, k);
    }
  }

  /** How many of the choices of k numbers from lo up to hi include x. */
  function Including(lo: nat, hi: nat, k: nat, x: nat): nat { CountWith(Combinations(lo, hi, k), x) }

  /** Every number on offer is in as many choices as there are ways to pick its companions. */
  lemma {:induction false} ChoicesWith(lo: nat, hi: nat, k: nat, x: nat, m: nat)
    requires k > 0 && lo <= x < hi && m == hi - lo - 1
    ensures Including(lo, hi, k, x) == Binomial(m, k - 1)
    decreases m
  {
    if x == lo {
      ChoicesWithLeast(lo, hi, k);
    } else {
      ChoicesWith(lo + 1, hi, k, x, m - 1);
      if k == 1 {
        CountByFirst(lo, hi, 1, x);
        CountWithEmptyChoice(lo + 1, hi, x);
      } else {
        ChoicesWith(lo + 1, hi, k - 1, x, m - 1);
        ChoicesWithLater(lo, hi, k, x, m);
      }
    }
  }

  lemma ChoicesWithLeast(lo: nat, hi: nat, k: nat)
    requires k > 0 && lo < hi
    ensures Including(lo, hi, k, lo) == Binomial(hi - lo - 1, k - 1)
  {
    CountByFirst(lo, hi, k, lo);
    CombinationCount(lo + 1, hi, k - 1);
    NoChoiceBelow(lo, hi, k);
  }

  lemma ChoicesWithLater(lo: nat, hi: nat, k: nat, x: nat, m: nat)
    requires k > 1 && lo < x < hi && m > 0
    requires Including(lo + 1, hi, k, x) == Binomial(m - 1, k - 1)
      && Including(lo + 1, hi, k - 1, x) == Binomial(m - 1, k - 2)
    ensures Including(lo, hi, k, x) == Binomial(m, k - 1)
  {
    CountByFirst(lo, hi, k, x);
    Pascal(m, k - 1);
  }

  lemma CountByFirst(lo: nat, hi: nat, k: nat, x: nat)
    requires k > 0 && lo < hi
    ensures Including(lo, hi, k, x) == Including(lo + 1, hi, k, x)
      + if x == lo then |Combinations(lo + 1, hi, k - 1)| else Including(lo + 1, hi, k - 1, x)
  {
    var with, without := Combinations(lo + 1, hi, k - 1), Combinations(lo + 1, hi, k);
    assert Combinations(lo, hi, k) == Prefixed(lo, with) + without;
    CountWithConcat(Prefixed(lo, with), without, x);
    CountWithPrefixed(lo, with, x);
  }

  lemma CountWithEmptyChoice(lo: nat, hi: nat, x: nat)
    ensures Including(lo, hi, 0, x) == 0
  {
    CountWithAbsent([[]], x);
  }

  lemma NoChoiceBelow(lo: nat, hi: nat, k: nat)
    ensures Including(lo + 1, hi, k, lo) == 0
  {
    forall c | c in Combinations(lo + 1, hi, k) ensures lo !in c { CombinationsAreChoices(lo + 1, hi, k, c); }
    CountWithAbsent(Combinations(lo + 1, hi, k), lo);
  }

  /** As many splits leave group x to training as test it, so each group is tested in exactly half of them. */
  lemma EveryGroupTestedInHalf(groups: nat, half: nat, x: nat)
    requires half > 0 && groups == 2 * half && x < groups
    ensures 2 * Including(0, groups, half, x) == |Combinations(0, groups, half)|
  {
    CombinationCount(0, groups, half);
    ChoicesWith(0, groups, half, x, groups - 1);
    Pascal(groups, half);
    BinomialIsSymmetric(groups - 1, half);
  }

  // ----- purge and embargo

  function Least(a: int, b: int): int { if a < b then a else b }

  function Greatest(a: int, b: int): int { if a > b then a else b }

  /** Position p is tested and so is its whole neighbourhood, cut off at the ends of the series. */
  predicate Survives(isTest: seq<bool>, p: nat, purge: nat, embargo: nat) {
    && p < |isTest| && isTest[p]
    && forall q :: Greatest(0, p - purge) <= q <= Least(|isTest| - 1, p + embargo) ==> isTest[q]
  }

  ghost predicate Increasing(s: seq<nat>) { forall i, j :: 0 <= i < j < |s| ==> s[i] < s[j] }

  method SelectKept(isTest: seq<bool>, purge: nat, embargo: nat) returns (kept: seq<nat>)
    ensures Increasing(kept)
    ensures forall p: nat :: p in kept <==> Survives(isTest, p, purge, embargo)
  {
    kept := [];
    for p := 0 to |isTest|
      invariant Increasing(kept) && forall j :: 0 <= j < |kept| ==> kept[j] < p
      invariant forall q: nat :: q in kept <==> q < p && Survives(isTest, q, purge, embargo)
    {
      if isTest[p] {
        var low, high := Greatest(0, p - purge), Least(|isTest| - 1, p + embargo);
        if forall q :: low <= q < high + 1 ==> isTest[q] { kept := kept + [p]; }
      }
    }
  }

  /** A maximal stretch of test positions. */
  ghost predicate MaximalRun(isTest: seq<bool>, a: nat, b: nat) {
    && a < b <= |isTest|
    && (forall q :: a <= q < b ==> isTest[q])
    && (a > 0 ==> !isTest[a - 1])
    && (b < |isTest| ==> !isTest[b])
  }

  /** The per-position neighbourhood test trims each maximal run by purge on the left and embargo on the right. */
  lemma KeptIsTrimmedRun(isTest: seq<bool>, a: nat, b: nat, p: nat, purge: nat, embargo: nat)
    requires MaximalRun(isTest, a, b) && a <= p < b
    ensures Survives(isTest, p, purge, embargo) <==>
              (if a > 0 then a + purge else a) <= p && p < (if b < |isTest| then b - embargo else b)
  {
    var low, high := Greatest(0, p - purge), Least(|isTest| - 1, p + embargo);
    if a > 0 && p < a + purge { assert low <= a - 1 <= high && !isTest[a - 1]; }
    if b < |isTest| && p >= b - embargo { assert low <= b <= high && !isTest[b]; }
  }

  /** A kept position has no training position within purge before it or embargo after it. */
  lemma KeptIsFarFromTraining(isTest: seq<bool>, p: nat, q: nat, purge: nat, embargo: nat)
    requires Survives(isTest, p, purge, embargo) && q < |isTest| && !isTest[q]
    ensures if q < p then p - q > purge else q - p > embargo
  {
    var low, high := Greatest(0, p - purge), Least(|isTest| - 1, p + embargo);
    assert !(low <= q <= high);
  }

  // ----- the splits

  /** np.isin(group_of, test_groups) */
  function TestMask(groupOf: seq<nat>, chosen: seq<nat>): (mask: seq<bool>)
    ensures |mask| == |groupOf|
  {
    seq(|groupOf|, p requires 0 <= p < |groupOf| => groupOf[p] in chosen)
  }

  ghost predicate KeptOf(kept: seq<nat>, groupOf: seq<nat>, chosen: seq<nat>, purge: nat, embargo: nat) {
    Increasing(kept) && forall p: nat :: p in kept <==> Survives(TestMask(groupOf, chosen), p, purge, embargo)
  }

  function EmbargoBars(fraction: real, n: nat): (e: nat)
    ensures fraction <= 0.0 ==> e == 0
    ensures fraction > 0.0 ==> e as real >= fraction * n as real && e as real < fraction * n as real + 1.0
  {
    var bars := (if fraction > 0.0 then fraction else 0.0) * n as real;
    var whole := bars.Floor;
    if whole as real == bars then whole else whole + 1
  }

  /** The selections long enough to have a Sharpe ratio, in order. */
  function Usable(kept: seq<seq<nat>>): seq<seq<nat>> {
    if |kept| == 0 then []
    else
      var last := |kept| - 1;
      Usable(kept[..last]) + if |kept[last]| < 2 then [] else [kept[last]]
  }

  /**
   * The kept positions of every split, in the order the splits are enumerated; splits that keep fewer
   * than two positions yield no path.  Unusable group counts yield no split at all.
   */
  method RunSplits(n: nat, groups: int, lookback: int, embargoFraction: real)
    returns (groupOf: seq<nat>, kept: seq<seq<nat>>, paths: seq<seq<nat>>)
    ensures groups < 4 || groups % 2 != 0 || n < groups ==> kept == [] && paths == []
    ensures groups >= 4 && groups % 2 == 0 && n >= groups ==>
      var splits := Combinations(0, groups, groups / 2);
      && |groupOf| == n
      && (forall p :: 0 <= p < n ==>
        groupOf[p] < groups && Cut(groupOf[p], n, groups) <= p < Cut(groupOf[p] + 1, n, groups))
      && |kept| == |splits|
      && (forall i :: 0 <= i < |splits| ==>
            KeptOf(kept[i], groupOf, splits[i], if lookback > 0 then lookback else 0, EmbargoBars(embargoFraction, n)))
    ensures paths == Usable(kept)
  {
    groupOf, kept, paths := [], [], [];
    var purge: nat := if lookback > 0 then lookback else 0;
    var embargo := EmbargoBars(embargoFraction, n);
    if groups < 4 || groups % 2 != 0 || n < groups { return; }
    groupOf := AssignGroups(n, groups);
    kept, paths := SelectEach(groupOf, Combinations(0, groups, groups / 2), purge, embargo);
  }

  method SelectEach(groupOf: seq<nat>, splits: seq<seq<nat>>, purge: nat, embargo: nat)
    returns (kept: seq<seq<nat>>, paths: seq<seq<nat>>)
    ensures |kept| == |splits| && paths == Usable(kept)
    ensures forall i :: 0 <= i < |splits| ==> KeptOf(kept[i], groupOf, splits[i], purge, embargo)
  {
    kept, paths := [], [];
    for i := 0 to |splits|
      invariant |kept| == i
      invariant forall k :: 0 <= k < i ==> KeptOf(kept[k], groupOf, splits[k], purge, embargo)
      invariant paths == Usable(kept)
    {
      var path := SelectKept(TestMask(groupOf, splits[i]), purge, embargo);
      assert (kept + [path])[..|kept|] == kept;
      kept := kept + [path];
      if |path| < 2 { continue; }
      paths := paths + [path];
    }
  }

  /** Every position is a test position in exactly half of the splits. */
  lemma EveryPositionTestedInHalf(groupOf: seq<nat>, groups: nat, p: nat)
    requires groups >= 4 && groups % 2 == 0 && p < |groupOf| && groupOf[p] < groups
    ensures 2 * CountTesting(groupOf, Combinations(0, groups, groups / 2), p) == |Combinations(0, groups, groups / 2)|
  {
    CountTestingIsCountWith(groupOf, Combinations(0, groups, groups / 2), p);
    EveryGroupTestedInHalf(groups, groups / 2, groupOf[p]);
  }

  /** How many of the splits test position p. */
  function CountTesting(groupOf: seq<nat>, splits: seq<seq<nat>>, p: nat): nat
    requires p < |groupOf|
  {
    if |splits| == 0 then 0
    else (if TestMask(groupOf, splits[0])[p] then 1 else 0) + CountTesting(groupOf, splits[1..], p)
  }

  lemma {:induction false} CountTestingIsCountWith(groupOf: seq<nat>, splits: seq<seq<nat>>, p: nat)
    requires p < |groupOf|
    ensures CountTesting(groupOf, splits, p) == CountWith(splits, groupOf[p])
  {
    if |splits| != 0 { CountTestingIsCountWith(groupOf, splits[1..], p); }
  }
}
