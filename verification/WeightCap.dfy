/** Clipping and rescaling to a budget of one, and the water-filling cap on single weights. */
module WeightCap {
  import opened RealAlgebra
  import opened Sums

  const TOLERANCE := 0.000000000001

  function Clipped(w: seq<real>): (c: seq<real>)
    ensures |c| == |w|
  {
    seq(|w|, i requires 0 <= i < |w| => if w[i] < 0.0 then 0.0 else w[i])
  }

  /** Negative weights are cut to zero and the rest rescaled; with nothing left, all weights are equal. */
  function Normalize(w: seq<real>): (r: seq<real>)
    ensures |r| == |w|
  {
    var c := Clipped(w);
    var total := Total(c);
    if total > 0.0 then seq(|w|, i requires 0 <= i < |w| => c[i] / total)
    else seq(|w|, i requires 0 <= i < |w| => 1.0 / |w| as real)
  }

  function EffectiveMaxWeight(n: nat, maxWeight: real): real
    requires n > 0
  {
    if maxWeight > 1.0 / n as real then maxWeight else 1.0 / n as real
  }

  lemma TotalNonnegative(w: seq<real>)
    requires forall i :: 0 <= i < |w| ==> w[i] >= 0.0
    ensures Total(w) >= 0.0
    ensures forall i :: 0 <= i < |w| ==> w[i] <= Total(w)
  {
    SumNonnegative(Entries(w), |w|);
    forall i | 0 <= i < |w| ensures w[i] <= Total(w) {
      SumDominates(Entries(w), |w|, i);
    }
  }

  lemma TotalOfConstant(w: seq<real>, c: real)
    requires forall i :: 0 <= i < |w| ==> w[i] == c
    ensures Total(w) == |w| as real * c
  {
    SumConstant(Entries(w), |w|, c);
  }

  lemma RescaledTotal(c: seq<real>, r: seq<real>, total: real)
    requires |r| == |c| && total == Total(c) > 0.0
    requires forall i :: 0 <= i < |c| ==> c[i] >= 0.0 && r[i] == c[i] / total
    ensures Total(r) == 1.0
    ensures forall i :: 0 <= i < |c| ==> r[i] >= 0.0
  {
    var inverse := 1.0 / total;
    assert inverse * total == 1.0;
    forall i | 0 <= i < |c| ensures r[i] == inverse * c[i] && r[i] >= 0.0 {
      Quotient(c[i], total, inverse);
    }
    SumScale(Entries(c), Entries(r), inverse, |c|);
  }

  lemma Quotient(c: real, d: real, inverse: real)
    requires d > 0.0 && c >= 0.0 && inverse * d == 1.0
    ensures c / d == inverse * c && inverse * c >= 0.0
  {
    var q := c / d;
    assert q * d == c;
    assert inverse * c == q * (inverse * d);
    CancelPositive(d, q);
  }

  /** Normalizing anything at all gives a probability vector. */
  lemma NormalizeIsProbabilityVector(w: seq<real>)
    requires |w| > 0
    ensures IsProbabilityVector(Normalize(w))
  {
    var c, r := Clipped(w), Normalize(w);
    TotalNonnegative(c);
    if Total(c) > 0.0 {
      RescaledTotal(c, r, Total(c));
    } else {
      TotalOfConstant(r, 1.0 / |w| as real);
    }
    TotalNonnegative(r);
  }

  /** Normalizing a probability vector changes nothing. */
  lemma NormalizeFixesProbabilityVectors(w: seq<real>)
    requires IsProbabilityVector(w)
    ensures Normalize(w) == w
  {
    assert Clipped(w) == w;
  }

  function PositivePart(x: real): real { if x > 0.0 then x else 0.0 }

  /** r shares out one unit in proportion to the positive parts of w, equally when nothing in w is positive. */
  ghost predicate IsNormalization(w: seq<real>, r: seq<real>) {
    && |r| == |w| && IsProbabilityVector(r)
    && if exists k :: 0 <= k < |w| && w[k] > 0.0 then
         forall i, j :: 0 <= i < |w| && 0 <= j < |w| ==>
           Times(r[i], PositivePart(w[j])) == Times(r[j], PositivePart(w[i]))
       else forall i, j :: 0 <= i < |w| && 0 <= j < |w| ==> r[i] == r[j]
  }

  lemma NormalizeKeepsProportions(w: seq<real>)
    requires |w| > 0
    ensures IsNormalization(w, Normalize(w))
  {
    var c, r := Clipped(w), Normalize(w);
    NormalizeIsProbabilityVector(w);
    TotalNonnegative(c);
    if k :| 0 <= k < |w| && w[k] > 0.0 {
      assert c[k] == w[k];
      forall i, j | 0 <= i < |w| && 0 <= j < |w|
        ensures Times(r[i], PositivePart(w[j])) == Times(r[j], PositivePart(w[i]))
      {
        assert PositivePart(w[i]) == c[i] && PositivePart(w[j]) == c[j];
        SameQuotient(c[i], c[j], Total(c));
      }
    } else {
      TotalOfConstant(c, 0.0);
    }
  }

  lemma SameQuotient(a: real, b: real, d: real)
    requires d > 0.0
    ensures Times(a / d, b) == Times(b / d, a)
  {
  }

  // ----- sums over a selection of positions

  function Selected(w: seq<real>, on: seq<bool>): int -> real {
    i => if 0 <= i < |w| && i < |on| && on[i] then w[i] else 0.0
  }

  function SelectedTotal(w: seq<real>, on: seq<bool>): real { Sum(Selected(w, on), |w|) }

  function Ones(n: nat): (ones: seq<real>)
    ensures |ones| == n && forall i :: 0 <= i < n ==> ones[i] == 1.0
  {
    seq(n, i => 1.0)
  }

  function Negated(on: seq<bool>): (off: seq<bool>)
    ensures |off| == |on| && forall i :: 0 <= i < |on| ==> off[i] == !on[i]
  {
    seq(|on|, i requires 0 <= i < |on| => !on[i])
  }

  /** How many positions are selected, as a real. */
  function CountOf(on: seq<bool>): real { SelectedTotal(Ones(|on|), on) }

  lemma SelectionSplits(w: seq<real>, on: seq<bool>)
    requires |on| == |w|
    ensures Total(w) == SelectedTotal(w, on) + SelectedTotal(w, Negated(on))
  {
    SumAdd(Selected(w, on), Selected(w, Negated(on)), Entries(w), |w|);
  }

  lemma CountSplits(on: seq<bool>)
    ensures CountOf(on) + CountOf(Negated(on)) == |on| as real
  {
    SelectionSplits(Ones(|on|), on);
    TotalOfConstant(Ones(|on|), 1.0);
  }

  lemma SelectedEqual(w: seq<real>, on: seq<bool>, c: real)
    requires |on| == |w| && forall i :: 0 <= i < |w| && on[i] ==> w[i] == c
    ensures SelectedTotal(w, on) == Times(c, CountOf(on))
  {
    var f, one := Selected(w, on), Selected(Ones(|w|), on);
    SumScale(one, f, c, |w|);
  }

  // ----- one pass of the cap

  function Over(w: seq<real>, capped: seq<bool>, cap: real): (over: seq<bool>)
    requires |capped| == |w|
    ensures |over| == |w|
  {
    seq(|w|, i requires 0 <= i < |w| => w[i] > cap + TOLERANCE && !capped[i])
  }

  function Any(on: seq<bool>): bool { exists i :: 0 <= i < |on| && on[i] }

  /** The budget the capped weights leave to the free ones. */
  function RemainingBudget(capped: seq<bool>, cap: real): real { 1.0 - Times(cap, CountOf(capped)) }

  /** Capping takes weight away, so the free weights are always short of the remaining budget, and some are free. */
  lemma CappingFreesBudget(w: seq<real>, capped: seq<bool>, cap: real, k: nat)
    requires IsProbabilityVector(w) && |capped| == |w| && k < |w|
    requires Times(cap, |w| as real) >= 1.0
    requires forall i :: 0 <= i < |w| && capped[i] ==> w[i] >= cap
    requires capped[k] && w[k] > cap
    ensures RemainingBudget(capped, cap) > SelectedTotal(w, Negated(capped)) >= 0.0
    ensures CountOf(capped) <= |w| as real - 1.0
    ensures Any(Negated(capped))
  {
    var free := Negated(capped);
    SelectionSplits(w, capped);
    CappedExcess(w, capped, cap, k);
    SumNonnegative(Selected(w, free), |w|);
    if !Any(free) {
      assert forall i :: 0 <= i < |free| ==> !free[i];
      SelectedEqual(w, free, 0.0);
      SumZero(Selected(Ones(|w|), free), |w|);
      CountSplits(capped);
    }
    var i :| 0 <= i < |free| && free[i];
    SumDominates(Selected(Ones(|w|), free), |w|, i);
    CountSplits(capped);
  }

  lemma CappedExcess(w: seq<real>, capped: seq<bool>, cap: real, k: nat)
    requires |capped| == |w| && k < |w|
    requires forall i :: 0 <= i < |w| && capped[i] ==> w[i] >= cap
    requires capped[k] && w[k] > cap
    ensures SelectedTotal(w, capped) > Times(cap, CountOf(capped))
  {
    var f, one := Selected(w, capped), Selected(Ones(|w|), capped);
    var scaled: int -> real := i => Times(cap, one(i));
    var excess: int -> real := i => f(i) - scaled(i);
    forall i | 0 <= i < |w| ensures excess(i) >= 0.0 && (i == k ==> excess(i) > 0.0) {
      TimesUnits(cap);
    }
    SumScale(one, scaled, cap, |w|);
    SumAdd(scaled, excess, f, |w|);
    SumDominates(excess, |w|, k);
  }

  /** Every capped entry sits at the cap, and every free entry is its original weight times the level. */
  ghost predicate Levelled(w0: seq<real>, w: seq<real>, capped: seq<bool>, cap: real, level: real) {
    && |w| == |w0| == |capped|
    && level >= 1.0
    && forall i :: 0 <= i < |w| ==>
         if capped[i] then w[i] == cap && Times(level, w0[i]) > cap + TOLERANCE
         else w[i] == Times(level, w0[i])
  }

  /** Every originally positive entry sits at the cap; the others share what is left equally. */
  ghost predicate SpreadOut(w0: seq<real>, w: seq<real>, capped: seq<bool>, cap: real, share: real) {
    && |w| == |w0| == |capped|
    && share <= cap
    && forall i :: 0 <= i < |w| ==>
         if capped[i] then w[i] == cap && w0[i] > 0.0 else w[i] == share && w0[i] == 0.0
  }

  /** Multiplying the free entries up to the remaining budget raises the level. */
  lemma RaiseLevel(w0: seq<real>, w: seq<real>, capped: seq<bool>, cap: real, level: real, factor: real,
    next: seq<real>)
    requires Levelled(w0, w, capped, cap, level) && IsProbabilityVector(w0) && factor >= 1.0
    requires |next| == |w| && forall i :: 0 <= i < |w| ==> next[i] == if capped[i] then w[i] else Times(w[i], factor)
    ensures Levelled(w0, next, capped, cap, Times(level, factor))
  {
    MultiplyInequality(1.0, factor, level);
    forall i | 0 <= i < |w|
      ensures Times(Times(level, factor), w0[i]) == Times(Times(level, w0[i]), factor) >= Times(level, w0[i])
    {
      NonnegativeProduct(level, w0[i]);
      MultiplyInequality(1.0, factor, Times(level, w0[i]));
    }
  }

  /** Capped entries at the cap plus free entries filling the remaining budget add up to one. */
  lemma BudgetIsSpent(next: seq<real>, capped: seq<bool>, cap: real)
    requires |next| == |capped| && forall i :: 0 <= i < |next| ==> next[i] >= 0.0
    requires forall i :: 0 <= i < |next| && capped[i] ==> next[i] == cap
    requires SelectedTotal(next, Negated(capped)) == RemainingBudget(capped, cap)
    ensures IsProbabilityVector(next)
  {
    SelectionSplits(next, capped);
    SelectedEqual(next, capped, cap);
    TotalNonnegative(next);
  }

  lemma CountGrows(capped: seq<bool>, next: seq<bool>, k: nat)
    requires |next| == |capped| && k < |next| && next[k] && !capped[k]
    requires forall i :: 0 <= i < |next| && capped[i] ==> next[i]
    ensures CountOf(next) >= CountOf(capped) + 1.0
  {
    var n := |next|;
    var before, after := Selected(Ones(n), capped), Selected(Ones(n), next);
    var gained: int -> real := i => after(i) + -1.0 * before(i);
    SumLinear(after, before, gained, 1.0, -1.0, n);
    SumDominates(gained, n, k);
  }

  lemma FactorExceedsOne(budget: real, sum: real)
    requires budget > sum > 0.0
    ensures Times(Ratio(budget, sum), sum) == budget && Ratio(budget, sum) > 1.0
  {
    var factor := budget / sum;
    assert factor * sum == budget;
    if factor <= 1.0 { MultiplyInequality(factor, 1.0, sum); }
  }

  /** The free entries are multiplied up to the remaining budget. */
  lemma ScaleFree(w0: seq<real>, w: seq<real>, capped: seq<bool>, cap: real, level: real, next: seq<real>)
    requires Levelled(w0, w, capped, cap, level) && IsProbabilityVector(w0)
    requires forall i :: 0 <= i < |w| ==> w[i] >= 0.0
    requires RemainingBudget(capped, cap) > SelectedTotal(w, Negated(capped)) > 0.0
    requires |next| == |w|
    requires var factor := Ratio(RemainingBudget(capped, cap), SelectedTotal(w, Negated(capped)));
             forall i :: 0 <= i < |w| ==> next[i] == if capped[i] then w[i] else Times(w[i], factor)
    ensures IsProbabilityVector(next)
    ensures exists up :: Levelled(w0, next, capped, cap, up)
  {
    var budget, sum := RemainingBudget(capped, cap), SelectedTotal(w, Negated(capped));
    var factor := Ratio(budget, sum);
    FactorExceedsOne(budget, sum);
    RaiseLevel(w0, w, capped, cap, level, factor, next);
    SumScale(Selected(w, Negated(capped)), Selected(next, Negated(capped)), factor, |w|);
    forall i | 0 <= i < |w| ensures next[i] >= 0.0 { NonnegativeProduct(w[i], factor); }
    BudgetIsSpent(next, capped, cap);
  }

  /** If the free entries add up to nothing, exactly the capped entries were positive to begin with. */
  lemma OnlyCappedPositive(w0: seq<real>, w: seq<real>, capped: seq<bool>, cap: real, level: real)
    requires Levelled(w0, w, capped, cap, level) && IsProbabilityVector(w0) && cap > 0.0
    requires forall i :: 0 <= i < |w| ==> w[i] >= 0.0
    requires SelectedTotal(w, Negated(capped)) <= 0.0
    ensures forall i :: 0 <= i < |w| ==> if capped[i] then w0[i] > 0.0 else w0[i] == 0.0
  {
    TimesUnits(level);
    forall i | 0 <= i < |w| && !capped[i] ensures w0[i] == 0.0 {
      SumDominates(Selected(w, Negated(capped)), |w|, i);
      MultiplyInequality(1.0, level, w0[i]);
    }
  }

  /** With nothing positive left free, the free entries share the remaining budget equally, below the cap. */
  lemma SpreadFree(w0: seq<real>, w: seq<real>, capped: seq<bool>, cap: real, level: real, share: real, next: seq<real>)
    requires Levelled(w0, w, capped, cap, level) && IsProbabilityVector(w0)
    requires 0.0 < cap && Times(cap, |w| as real) >= 1.0
    requires forall i :: 0 <= i < |w| ==> w[i] >= 0.0
    requires RemainingBudget(capped, cap) > 0.0 >= SelectedTotal(w, Negated(capped))
    requires CountOf(capped) <= |w| as real - 1.0
    requires share == Times(RemainingBudget(capped, cap), Ratio(1.0, CountOf(Negated(capped))))
    requires |next| == |w| && forall i :: 0 <= i < |w| ==> next[i] == if capped[i] then w[i] else share
    ensures IsProbabilityVector(next) && SpreadOut(w0, next, capped, cap, share)
  {
    var free := Negated(capped);
    CountSplits(capped);
    ShareIsBelowCap(RemainingBudget(capped, cap), CountOf(free), cap, CountOf(capped), |w| as real);
    SelectedEqual(next, free, share);
    BudgetIsSpent(next, capped, cap);
    OnlyCappedPositive(w0, w, capped, cap, level);
  }

  lemma ShareIsBelowCap(budget: real, free: real, cap: real, capped: real, n: real)
    requires free >= 1.0 && free + capped == n
    requires budget == 1.0 - Times(cap, capped) && budget > 0.0 && Times(cap, n) >= 1.0
    ensures var share := Times(budget, Ratio(1.0, free)); 0.0 <= share <= cap && Times(share, free) == budget
  {
    var inverse := Ratio(1.0, free);
    assert inverse * free == 1.0;
    var share := Times(budget, inverse);
    assert share * free == budget by { Associate(budget, inverse, free); }
    CancelPositive(free, share);
    assert cap * n == cap * free + cap * capped;
    assert (cap - share) * free >= 0.0;
    CancelPositive(free, cap - share);
  }

  /**
   * w caps w0 at a water level: some level >= 1 turns every weight into min(cap, level * w0_i), up to the
   * tolerance.
   */
  ghost predicate AtWaterLevel(w0: seq<real>, w: seq<real>, cap: real, level: real) {
    && |w| == |w0|
    && level >= 1.0
    && forall i :: 0 <= i < |w| ==> w[i] == if Times(level, w0[i]) > cap + TOLERANCE then cap else Times(level, w0[i])
  }

  /** Every positive weight is capped and the zero weights share the rest equally. */
  ghost predicate AllPositiveCapped(w0: seq<real>, w: seq<real>, cap: real, share: real) {
    && |w| == |w0|
    && share <= cap
    && forall i :: 0 <= i < |w| ==> w[i] == if w0[i] > 0.0 then cap else share
  }

  ghost predicate WaterFilled(w0: seq<real>, w: seq<real>, cap: real) {
    (exists level :: AtWaterLevel(w0, w, cap, level)) || (exists share :: AllPositiveCapped(w0, w, cap, share))
  }

  ghost predicate Progress(w0: seq<real>, w: seq<real>, capped: seq<bool>, cap: real) {
    (exists level :: Levelled(w0, w, capped, cap, level)) || (exists share :: SpreadOut(w0, w, capped, cap, share))
  }

  lemma NothingOverIsFilled(w0: seq<real>, w: seq<real>, capped: seq<bool>, cap: real)
    requires |w| == |w0| == |capped| && Progress(w0, w, capped, cap) && !Any(Over(w, capped, cap))
    ensures WaterFilled(w0, w, cap)
    ensures forall i :: 0 <= i < |w| ==> w[i] <= cap + TOLERANCE
  {
    forall i | 0 <= i < |w| ensures capped[i] || w[i] <= cap + TOLERANCE {
      assert !Over(w, capped, cap)[i];
    }
    if level :| Levelled(w0, w, capped, cap, level) {
      assert AtWaterLevel(w0, w, cap, level);
    } else {
      var share :| SpreadOut(w0, w, capped, cap, share);
      assert AllPositiveCapped(w0, w, cap, share);
    }
  }

  /** w and capped after the entries over the cap have been pinned to it. */
  ghost predicate Pinned(w: seq<real>, capped: seq<bool>, cap: real, w': seq<real>, capped': seq<bool>)
    requires |w| == |capped|
  {
    && |w'| == |capped'| == |w|
    && forall i :: 0 <= i < |w| ==>
         && w'[i] == (if Over(w, capped, cap)[i] then cap else w[i])
         && capped'[i] == (Over(w, capped, cap)[i] || capped[i])
  }

  lemma PinningKeepsLevel(w0: seq<real>, w: seq<real>, capped: seq<bool>, cap: real, w': seq<real>, capped': seq<bool>)
    requires IsProbabilityVector(w) && |w0| == |w| == |capped| && 0.0 < cap && Times(cap, |w| as real) >= 1.0
    requires Progress(w0, w, capped, cap) && Any(Over(w, capped, cap)) && Pinned(w, capped, cap, w', capped')
    ensures exists level :: Levelled(w0, w', capped', cap, level)
    ensures forall i :: 0 <= i < |w| ==> w'[i] >= 0.0
    ensures RemainingBudget(capped', cap) > SelectedTotal(w', Negated(capped')) >= 0.0
    ensures CountOf(capped) + 1.0 <= CountOf(capped') <= |w| as real - 1.0
    ensures Any(Negated(capped'))
  {
    var k: nat :| k < |w| && Over(w, capped, cap)[k];
    var level :| Levelled(w0, w, capped, cap, level);
    assert Levelled(w0, w', capped', cap, level);
    CountGrows(capped, capped', k);
    CappingFreesBudget(w, capped', cap, k);
    SumCongruent(Selected(w, Negated(capped')), Selected(w', Negated(capped')), |w|);
  }

  method PinOver(w: array<real>, capped: array<bool>, cap: real)
    requires w.Length == capped.Length
    modifies w, capped
    ensures Pinned(old(w[..]), old(capped[..]), cap, w[..], capped[..])
  {
    var over := Over(w[..], capped[..], cap);
    forall i | 0 <= i < w.Length && over[i] { w[i] := cap; }
    forall i | 0 <= i < w.Length && over[i] { capped[i] := true; }
  }

  method ScaleFreeEntries(w: array<real>, free: seq<bool>, factor: real)
    requires |free| == w.Length
    modifies w
    ensures forall i :: 0 <= i < w.Length ==> w[i] == if free[i] then Times(old(w[i]), factor) else old(w[i])
  {
    forall i | 0 <= i < w.Length && free[i] { w[i] := Times(w[i], factor); }
  }

  method SetFreeEntries(w: array<real>, free: seq<bool>, share: real)
    requires |free| == w.Length
    modifies w
    ensures forall i :: 0 <= i < w.Length ==> w[i] == if free[i] then share else old(w[i])
  {
    forall i | 0 <= i < w.Length && free[i] { w[i] := share; }
  }

  /** Hands the remaining budget to the free entries: in proportion, or equally when they are all zero. */
  method FillFree(w: array<real>, capped: array<bool>, cap: real, ghost w0: seq<real>)
    requires w.Length == capped.Length == |w0| && IsProbabilityVector(w0)
    requires 0.0 < cap && Times(cap, w.Length as real) >= 1.0
    requires exists level :: Levelled(w0, w[..], capped[..], cap, level)
    requires forall i :: 0 <= i < w.Length ==> w[i] >= 0.0
    requires RemainingBudget(capped[..], cap) > SelectedTotal(w[..], Negated(capped[..])) >= 0.0
    requires CountOf(capped[..]) <= w.Length as real - 1.0
    modifies w
    ensures IsProbabilityVector(w[..]) && Progress(w0, w[..], capped[..], cap)
  {
    ghost var pinned := w[..];
    ghost var level :| Levelled(w0, pinned, capped[..], cap, level);
    var on := capped[..];
    var free := Negated(on);
    var budget, sum := RemainingBudget(on, cap), SelectedTotal(w[..], free);
    if sum > 0.0 && budget > 0.0 {
      ScaleFreeEntries(w, free, Ratio(budget, sum));
      ScaleFree(w0, pinned, on, cap, level, w[..]);
    } else {
      var share := Times(if budget > 0.0 then budget else 0.0, Ratio(1.0, CountOf(free)));
      SetFreeEntries(w, free, share);
      SpreadFree(w0, pinned, on, cap, level, share, w[..]);
    }
  }

  /** One capping pass: pin what is over the cap, then hand its excess to the free entries. */
  method CapPass(w: array<real>, capped: array<bool>, cap: real, ghost w0: seq<real>)
    requires w.Length == capped.Length == |w0| && IsProbabilityVector(w0)
    requires 0.0 < cap && Times(cap, w.Length as real) >= 1.0
    requires IsProbabilityVector(w[..]) && Progress(w0, w[..], capped[..], cap)
    requires Any(Over(w[..], capped[..], cap))
    modifies w, capped
    ensures IsProbabilityVector(w[..]) && Progress(w0, w[..], capped[..], cap)
    ensures old(CountOf(capped[..])) + 1.0 <= CountOf(capped[..]) <= w.Length as real - 1.0
  {
    ghost var before, cappedBefore := w[..], capped[..];
    PinOver(w, capped, cap);
    PinningKeepsLevel(w0, before, cappedBefore, cap, w[..], capped[..]);
    if Any(Negated(capped[..])) {
      FillFree(w, capped, cap, w0);
    }
  }

  lemma NothingCappedYet(w0: seq<real>, capped: seq<bool>, cap: real)
    requires |w0| == |capped| && forall i :: 0 <= i < |capped| ==> !capped[i]
    ensures Progress(w0, w0, capped, cap) && CountOf(capped) == 0.0
  {
    assert Levelled(w0, w0, capped, cap, 1.0);
    SumZero(Selected(Ones(|w0|), capped), |w0|);
  }

  /** Within n passes nothing free is left over the cap. */
  method CapToFixedPoint(w: array<real>, capped: array<bool>, cap: real, ghost start: seq<real>)
    requires w.Length == capped.Length == |start| && IsProbabilityVector(start) && |start| > 0
    requires 0.0 < cap && Times(cap, w.Length as real) >= 1.0
    requires w[..] == start && forall i :: 0 <= i < capped.Length ==> !capped[i]
    modifies w, capped
    ensures IsProbabilityVector(w[..]) && Progress(start, w[..], capped[..], cap)
    ensures !Any(Over(w[..], capped[..], cap))
  {
    NothingCappedYet(start, capped[..], cap);
    var pass := 0;
    while pass < w.Length
      invariant pass as real <= CountOf(capped[..]) <= w.Length as real - 1.0
      invariant IsProbabilityVector(w[..]) && Progress(start, w[..], capped[..], cap)
    {
      if !Any(Over(w[..], capped[..], cap)) { break; }
      CapPass(w, capped, cap, start);
      pass := pass + 1;
    }
  }

  /** The cap reaches a fixed point within n passes, for any input and any cap of at least 1/n. */
  method ApplyMaxWeightCap(input: seq<real>, maxWeight: real) returns (r: seq<real>)
    requires |input| > 0 && Times(maxWeight, |input| as real) >= 1.0
    ensures |r| == |input| && IsProbabilityVector(r)
    ensures forall i :: 0 <= i < |r| ==> r[i] <= maxWeight + TOLERANCE
    ensures if maxWeight >= 1.0 then r == Normalize(input) else WaterFilled(Normalize(input), r, maxWeight)
    ensures IsNormalization(input, Normalize(input))
  {
    var start := Normalize(input);
    NormalizeKeepsProportions(input);
    if maxWeight >= 1.0 { return start; }
    CancelPositive(|input| as real, maxWeight);
    var w := new real[|start|](i requires 0 <= i < |start| => start[i]);
    var capped := new bool[|start|](_ => false);
    assert w[..] == start;
    CapToFixedPoint(w, capped, maxWeight, start);
    NothingOverIsFilled(start, w[..], capped[..], maxWeight);
    NormalizeFixesProbabilityVectors(w[..]);
    r := Normalize(w[..]);
  }
}
