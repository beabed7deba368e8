/**
 * Funding payments assigned to holding periods: each period runs from one rebalance to the next, the last
 * one for the median length of those before it.
 */
module Funding {
  import opened Wrappers
  import opened Collections
  import opened RealAlgebra
  import opened Sums

  /** A raw funding row; the rate is absent when it could not be read as a number. */
  datatype RawRow = RawRow(time: int, symbol: string, rate: Option<real>)

  datatype Row = Row(time: int, symbol: string, rate: real)

  /** Weights by rebalance time and symbol. */
  datatype Weights = Weights(times: seq<int>, columns: seq<string>, values: seq<seq<real>>)

  datatype Coverage = Coverage(rawRows: nat, alignedRows: nat, expected: nat, observed: nat, missing: nat)

  /** Strictly increasing times, no column twice, one value per time and column. */
  ghost predicate IsTable(w: Weights) {
    && |w.values| == |w.times| && (forall p :: 0 <= p < |w.values| ==> |w.values[p]| == |w.columns|)
    && (forall p, q :: 0 <= p < q < |w.times| ==> w.times[p] < w.times[q])
    && Distinct(w.columns)
  }

  /** Rows with a missing rate are dropped. */
  function Normalized(raw: seq<RawRow>): seq<Row> {
    if |raw| == 0 then []
    else
      var last := raw[|raw| - 1];
      Normalized(raw[..|raw| - 1]) + if last.rate.Some? then [Row(last.time, last.symbol, last.rate.value)] else []
  }

  lemma NormalizedAppend(raw: seq<RawRow>, row: RawRow)
    ensures Normalized(raw + [row])
         == Normalized(raw) + match row.rate { case None => [] case Some(rate) => [Row(row.time, row.symbol, rate)] }
  {
    assert (raw + [row])[..|raw|] == raw;
  }

  /** The rows kept are, with the same multiplicity, those whose rate could be read. */
  lemma {:induction false} NormalizedKeepsRated(raw: seq<RawRow>, row: Row)
    ensures multiset(Normalized(raw))[row] == multiset(raw)[RawRow(row.time, row.symbol, Some(row.rate))]
  {
    if |raw| > 0 {
      var init, last := raw[..|raw| - 1], raw[|raw| - 1];
      assert raw == init + [last];
      NormalizedKeepsRated(init, row);
      NormalizedAppend(init, last);
    }
  }

  // ----- holding periods

  function Placed(s: seq<int>, x: int): (r: seq<int>)
    ensures |r| == |s| + 1 && forall y :: y in r <==> (y in s || y == x)
  {
    if |s| == 0 || s[|s| - 1] <= x then s + [x]
    else
      assert s == s[..|s| - 1] + [s[|s| - 1]];
      Placed(s[..|s| - 1], x) + [s[|s| - 1]]
  }

  function Sorted(s: seq<int>): (r: seq<int>)
    ensures |r| == |s| && forall y :: y in r <==> y in s
  {
    if |s| == 0 then []
    else
      assert s == s[..|s| - 1] + [s[|s| - 1]];
      Placed(Sorted(s[..|s| - 1]), s[|s| - 1])
  }

  /** The middle element, or the mean of the two middle ones. */
  function Median(s: seq<int>): int
    requires |s| > 0
  {
    var sorted, half := Sorted(s), |s| / 2;
    if |s| % 2 == 1 then sorted[half] else (sorted[half - 1] + sorted[half]) / 2
  }

  lemma MedianIsPositive(s: seq<int>)
    requires |s| > 0 && forall x :: x in s ==> x > 0
    ensures Median(s) > 0
  {
    var sorted, half := Sorted(s), |s| / 2;
    assert sorted[half] in sorted;
    if |s| % 2 == 0 { assert sorted[half - 1] in sorted; }
  }

  ghost predicate Ascending(s: seq<int>) { forall i, j :: 0 <= i < j < |s| ==> s[i] <= s[j] }

  function CountAtMost(s: seq<int>, m: int): nat {
    if |s| == 0 then 0 else CountAtMost(s[..|s| - 1], m) + if s[|s| - 1] <= m then 1 else 0
  }

  function CountAtLeast(s: seq<int>, m: int): nat {
    if |s| == 0 then 0 else CountAtLeast(s[..|s| - 1], m) + if s[|s| - 1] >= m then 1 else 0
  }

  lemma {:induction false} PlacedKeepsOrder(s: seq<int>, x: int)
    requires Ascending(s)
    ensures Ascending(Placed(s, x))
  {
    if |s| > 0 && s[|s| - 1] > x {
      var init, last := s[..|s| - 1], s[|s| - 1];
      PlacedKeepsOrder(init, x);
      forall y | y in Placed(init, x) ensures y <= last { assert y == x || y in init; }
      AppendKeepsOrder(Placed(init, x), last);
    }
  }

  lemma AppendKeepsOrder(s: seq<int>, last: int)
    requires Ascending(s) && forall y :: y in s ==> y <= last
    ensures Ascending(s + [last])
  {
    forall i | 0 <= i < |s| ensures s[i] <= last { assert s[i] in s; }
  }

  lemma {:induction false} PlacedAddsOne(s: seq<int>, x: int)
    ensures multiset(Placed(s, x)) == multiset(s) + multiset{x}
  {
    if |s| > 0 && s[|s| - 1] > x {
      PlacedAddsOne(s[..|s| - 1], x);
      assert s == s[..|s| - 1] + [s[|s| - 1]];
    }
  }

  /** Sorting puts the elements in ascending order, each as often as before. */
  lemma {:induction false} SortedIsAscending(s: seq<int>)
    ensures Ascending(Sorted(s)) && multiset(Sorted(s)) == multiset(s)
  {
    if |s| > 0 {
      SortedIsAscending(s[..|s| - 1]);
      PlacedKeepsOrder(Sorted(s[..|s| - 1]), s[|s| - 1]);
      PlacedAddsOne(Sorted(s[..|s| - 1]), s[|s| - 1]);
      assert s == s[..|s| - 1] + [s[|s| - 1]];
    }
  }

  lemma {:induction false} CountsOfPlaced(s: seq<int>, x: int, m: int)
    ensures CountAtMost(Placed(s, x), m) == CountAtMost(s, m) + if x <= m then 1 else 0
    ensures CountAtLeast(Placed(s, x), m) == CountAtLeast(s, m) + if x >= m then 1 else 0
  {
    if |s| == 0 || s[|s| - 1] <= x {
      assert (s + [x])[..|s|] == s;
    } else {
      var init, last := s[..|s| - 1], s[|s| - 1];
      CountsOfPlaced(init, x, m);
      var placed := Placed(init, x);
      assert (placed + [last])[..|placed|] == placed;
    }
  }

  lemma {:induction false} CountsOfSorted(s: seq<int>, m: int)
    ensures CountAtMost(Sorted(s), m) == CountAtMost(s, m) && CountAtLeast(Sorted(s), m) == CountAtLeast(s, m)
  {
    if |s| > 0 {
      CountsOfSorted(s[..|s| - 1], m);
      CountsOfPlaced(Sorted(s[..|s| - 1]), s[|s| - 1], m);
    }
  }

  /** In ascending order: the first k + 1 are at most m if the k-th is; all from the k-th on are at least m if it is. */
  lemma {:induction false} CountsInOrder(s: seq<int>, m: int, k: nat)
    requires Ascending(s) && k < |s|
    ensures s[k] <= m ==> CountAtMost(s, m) >= k + 1
    ensures s[k] >= m ==> CountAtLeast(s, m) >= |s| - k
  {
    var init := s[..|s| - 1];
    if k < |init| {
      CountsInOrder(init, m, k);
      assert s[k] <= s[|s| - 1];
    } else if k > 0 {
      assert s[k - 1] <= s[k];
      CountsInOrder(init, m, k - 1);
    }
  }

  /** At least half of the elements are not above the median and at least half are not below it. */
  lemma MedianIsInTheMiddle(s: seq<int>)
    requires |s| > 0
    ensures 2 * CountAtMost(s, Median(s)) >= |s| && 2 * CountAtLeast(s, Median(s)) >= |s|
  {
    SortedIsAscending(s);
    CountsOfSorted(s, Median(s));
    MedianIsHalfWay(s);
    MiddleDivides(Sorted(s), (|s| - 1) / 2, |s| / 2, Median(s));
  }

  /** The median lies half-way between the two middle elements, which are one and the same for an odd number. */
  lemma MedianIsHalfWay(s: seq<int>)
    requires |s| > 0
    ensures var below, above := Sorted(s)[(|s| - 1) / 2], Sorted(s)[|s| / 2];
            below <= Median(s) <= above && 0 <= (above - Median(s)) - (Median(s) - below) <= 1
  {
    SortedIsAscending(s);
    var sorted, below, above := Sorted(s), (|s| - 1) / 2, |s| / 2;
    if |s| % 2 == 0 {
      assert below == above - 1;
      HalfWay(sorted[below], sorted[above]);
    } else {
      assert below == above;
    }
  }

  lemma HalfWay(a: int, b: int)
    requires a <= b
    ensures a <= (a + b) / 2 <= b && 0 <= (b - (a + b) / 2) - ((a + b) / 2 - a) <= 1
  {
  }

  lemma MiddleDivides(s: seq<int>, below: nat, above: nat, m: int)
    requires Ascending(s) && below <= above < |s| && s[below] <= m <= s[above]
    requires 2 * (below + 1) >= |s| && 2 * (|s| - above) >= |s|
    ensures 2 * CountAtMost(s, m) >= |s| && 2 * CountAtLeast(s, m) >= |s|
  {
    CountsInOrder(s, m, below);
    CountsInOrder(s, m, above);
  }

  function Gaps(times: seq<int>): (gaps: seq<int>)
    requires |times| >= 1
    ensures |gaps| == |times| - 1 && forall p :: 0 <= p < |gaps| ==> gaps[p] == times[p + 1] - times[p]
  {
    seq(|times| - 1, p requires 0 <= p < |times| - 1 => times[p + 1] - times[p])
  }

  const ONE_DAY: int := 86_400_000_000_000

  /** How long the last period lasts. */
  function LastLength(times: seq<int>): int
    requires |times| >= 1
  {
    if |times| >= 2 then Median(Gaps(times)) else ONE_DAY
  }

  /** Where period p starts, which is where period p - 1 ends. */
  function Bound(times: seq<int>, p: nat): int
    requires |times| >= 1
  {
    if p < |times| then times[p] else times[|times| - 1] + LastLength(times)
  }

  predicate InPeriod(times: seq<int>, p: nat, time: int)
    requires |times| >= 1
  {
    Bound(times, p) <= time < Bound(times, p + 1)
  }

  /** The last period is as long as is usual: at least half of those before it are not longer and at least half are not
    * shorter; a single one lasts a day. */
  lemma LastPeriodIsTypical(times: seq<int>)
    requires |times| >= 1
    ensures var n, last := |times|, Bound(times, |times|) - Bound(times, |times| - 1);
            if n == 1 then last == ONE_DAY
            else 2 * CountAtMost(Gaps(times), last) >= n - 1 && 2 * CountAtLeast(Gaps(times), last) >= n - 1
  {
    if |times| >= 2 { MedianIsInTheMiddle(Gaps(times)); }
  }

  lemma LastLengthIsPositive(w: Weights)
    requires IsTable(w) && |w.times| >= 1
    ensures LastLength(w.times) > 0
  {
    if |w.times| >= 2 {
      forall x | x in Gaps(w.times) ensures x > 0 {
        var p :| 0 <= p < |Gaps(w.times)| && Gaps(w.times)[p] == x;
      }
      MedianIsPositive(Gaps(w.times));
    }
  }

  lemma BoundsIncrease(w: Weights, p: nat, q: nat)
    requires IsTable(w) && |w.times| >= 1 && p <= q <= |w.times|
    ensures Bound(w.times, p) <= Bound(w.times, q)
    ensures p < q ==> Bound(w.times, p) < Bound(w.times, q)
  {
    LastLengthIsPositive(w);
  }

  /** The last rebalance at or before a time. */
  function LastRebalance(times: seq<int>, time: int): (p: Option<nat>)
    ensures p.Some? ==> p.value < |times| && times[p.value] <= time
  {
    if |times| == 0 then None
    else if times[|times| - 1] <= time then Some(|times| - 1)
    else LastRebalance(times[..|times| - 1], time)
  }

  lemma {:induction false} LastRebalanceIs(times: seq<int>, time: int, p: nat)
    requires p < |times| && times[p] <= time && forall q :: p < q < |times| ==> time < times[q]
    ensures LastRebalance(times, time) == Some(p)
    decreases |times|
  {
    if p < |times| - 1 { LastRebalanceIs(times[..|times| - 1], time, p); }
  }

  lemma {:induction false} NoRebalanceBefore(times: seq<int>, time: int)
    requires forall q :: 0 <= q < |times| ==> time < times[q]
    ensures LastRebalance(times, time) == None
    decreases |times|
  {
    if |times| != 0 { NoRebalanceBefore(times[..|times| - 1], time); }
  }

  /** The period a time belongs to: its last rebalance, if the last period has not ended. */
  function PeriodOf(times: seq<int>, time: int): (p: Option<nat>)
    requires |times| >= 1
    ensures p.Some? ==> p.value < |times|
  {
    if time < Bound(times, |times|) then LastRebalance(times, time) else None
  }

  /** The periods tile the covered span: a time lies in its own period and in no other. */
  lemma PeriodsPartition(w: Weights, time: int, p: nat)
    requires IsTable(w) && |w.times| >= 1 && p < |w.times|
    ensures InPeriod(w.times, p, time) <==> PeriodOf(w.times, time) == Some(p)
    ensures PeriodOf(w.times, time).Some? <==> Bound(w.times, 0) <= time < Bound(w.times, |w.times|)
  {
    var n := |w.times|;
    LastLengthIsPositive(w);
    if time < w.times[0] {
      NoRebalanceBefore(w.times, time);
    } else {
      var q := PeriodFound(w, time);
      LastRebalanceIs(w.times, time, q);
      BoundsIncrease(w, p + 1, n);
      if p < q { BoundsIncrease(w, p + 1, q); }
    }
  }

  lemma PeriodFound(w: Weights, time: int) returns (q: nat)
    requires IsTable(w) && |w.times| >= 1 && w.times[0] <= time
    ensures q < |w.times| && w.times[q] <= time && forall k :: q < k < |w.times| ==> time < w.times[k]
  {
    q := 0;
    while q + 1 < |w.times| && w.times[q + 1] <= time
      invariant q < |w.times| && w.times[q] <= time
    {
      q := q + 1;
    }
  }

  // ----- what a period costs

  predicate Between(r: Row, start: int, end: int) { start <= r.time < end }

  /** The funding rates of one symbol from start up to end, added up. */
  function SymbolRate(rows: seq<Row>, start: int, end: int, symbol: string): real {
    if |rows| == 0 then 0.0
    else
      var last := rows[|rows| - 1];
      SymbolRate(rows[..|rows| - 1], start, end, symbol)
      + if Between(last, start, end) && last.symbol == symbol then last.rate else 0.0
  }

  function CountBetween(rows: seq<Row>, start: int, end: int): nat {
    if |rows| == 0 then 0
    else CountBetween(rows[..|rows| - 1], start, end) + if Between(rows[|rows| - 1], start, end) then 1 else 0
  }

  lemma {:induction false} CountsAdd(rows: seq<Row>, a: int, b: int, c: int)
    requires a <= b <= c
    ensures CountBetween(rows, a, b) + CountBetween(rows, b, c) == CountBetween(rows, a, c)
  {
    if |rows| != 0 { CountsAdd(rows[..|rows| - 1], a, b, c); }
  }

  lemma {:induction false} EmptyWindowCostsNothing(rows: seq<Row>, start: int, end: int, symbol: string)
    requires CountBetween(rows, start, end) == 0
    ensures SymbolRate(rows, start, end, symbol) == 0.0
  {
    if |rows| != 0 { EmptyWindowCostsNothing(rows[..|rows| - 1], start, end, symbol); }
  }

  /** The rates of the columns over one window. */
  function RateRow(rows: seq<Row>, start: int, end: int, columns: seq<string>): (rates: seq<real>)
    ensures |rates| == |columns|
    ensures forall j :: 0 <= j < |columns| ==> rates[j] == SymbolRate(rows, start, end, columns[j])
  {
    seq(|columns|, j requires 0 <= j < |columns| => SymbolRate(rows, start, end, columns[j]))
  }

  /** What holding the weights of period p costs. */
  function PeriodCost(w: Weights, rows: seq<Row>, p: nat): real
    requires IsTable(w) && p < |w.times|
  {
    WeightedTotal(w.values[p], RateRow(rows, Bound(w.times, p), Bound(w.times, p + 1), w.columns))
  }

  // ----- the same total, row by row

  function ColumnOf(columns: seq<string>, symbol: string): (j: Option<nat>)
    ensures j.Some? ==> j.value < |columns| && columns[j.value] == symbol
    ensures j.None? ==> symbol !in columns
  {
    if |columns| == 0 then None
    else if columns[0] == symbol then Some(0)
    else
      var rest := ColumnOf(columns[1..], symbol);
      if rest.Some? then Some(rest.value + 1) else None
  }

  /** What one funding row costs: the weight in force at its time, times its rate. */
  function RowCost(w: Weights, r: Row): real
    requires IsTable(w) && |w.times| >= 1
  {
    var p, j := PeriodOf(w.times, r.time), ColumnOf(w.columns, r.symbol);
    if p.Some? && j.Some? then Times(w.values[p.value][j.value], r.rate) else 0.0
  }

  function CostOfRows(w: Weights, rows: seq<Row>): real
    requires IsTable(w) && |w.times| >= 1
  {
    if |rows| == 0 then 0.0 else CostOfRows(w, rows[..|rows| - 1]) + RowCost(w, rows[|rows| - 1])
  }

  /** The rates one row adds to a window. */
  function Added(r: Row, start: int, end: int, columns: seq<string>): (rates: seq<real>)
    ensures |rates| == |columns|
    ensures forall j :: 0 <= j < |columns| ==>
      rates[j] == if Between(r, start, end) && columns[j] == r.symbol then r.rate else 0.0
  {
    seq(|columns|, j requires 0 <= j < |columns| =>
      if Between(r, start, end) && columns[j] == r.symbol then r.rate else 0.0)
  }

  lemma RateRowGrows(rows: seq<Row>, r: Row, start: int, end: int, columns: seq<string>)
    ensures forall j :: 0 <= j < |columns| ==>
      RateRow(rows + [r], start, end, columns)[j] ==
        RateRow(rows, start, end, columns)[j] + Added(r, start, end, columns)[j]
  {
    assert (rows + [r])[..|rows|] == rows;
  }

  lemma AddedCost(held: seq<real>, r: Row, start: int, end: int, columns: seq<string>)
    requires |held| == |columns| && Distinct(columns)
    ensures WeightedTotal(held, Added(r, start, end, columns)) ==
      var j := ColumnOf(columns, r.symbol);
      if Between(r, start, end) && j.Some? then Times(held[j.value], r.rate) else 0.0
  {
    var j := ColumnOf(columns, r.symbol);
    if Between(r, start, end) && j.Some? {
      forall i | 0 <= i < |columns| && i != j.value ensures columns[i] != r.symbol {
        assert columns[j.value] == r.symbol;
      }
      WeightedTotalOfSingle(held, Added(r, start, end, columns), j.value);
    } else {
      WeightedTotalOfZeros(held, Added(r, start, end, columns));
    }
  }

  /** One more funding row is charged to its own period only. */
  lemma ChargedToItsPeriod(w: Weights, rows: seq<Row>, r: Row, p: nat)
    requires IsTable(w) && p < |w.times|
    ensures PeriodCost(w, rows + [r], p) ==
      PeriodCost(w, rows, p) + if PeriodOf(w.times, r.time) == Some(p) then RowCost(w, r) else 0.0
  {
    var start, end, held := Bound(w.times, p), Bound(w.times, p + 1), w.values[p];
    RateRowGrows(rows, r, start, end, w.columns);
    WeightedTotalAdds(held, RateRow(rows, start, end, w.columns), Added(r, start, end, w.columns),
      RateRow(rows + [r], start, end, w.columns));
    AddedCost(held, r, start, end, w.columns);
    PeriodsPartition(w, r.time, p);
  }

  function PeriodCosts(w: Weights, rows: seq<Row>): int -> real
    requires IsTable(w)
  {
    p => if 0 <= p < |w.times| then PeriodCost(w, rows, p) else 0.0
  }

  function Charge(w: Weights, r: Row): int -> real
    requires IsTable(w) && |w.times| >= 1
  {
    p => if p >= 0 && PeriodOf(w.times, r.time) == Some(p) then RowCost(w, r) else 0.0
  }

  lemma ChargedOnce(w: Weights, r: Row)
    requires IsTable(w) && |w.times| >= 1
    ensures Sum(Charge(w, r), |w.times|) == RowCost(w, r)
  {
    var p := PeriodOf(w.times, r.time);
    if p.Some? {
      SumSingle(Charge(w, r), |w.times|, p.value);
    } else {
      SumZero(Charge(w, r), |w.times|);
    }
  }

  /** Conservation: what the periods cost is what the rows cost, each at the weight in force when it fell due. */
  lemma {:induction false} FundingIsConserved(w: Weights, rows: seq<Row>)
    requires IsTable(w) && |w.times| >= 1
    ensures Sum(PeriodCosts(w, rows), |w.times|) == CostOfRows(w, rows)
  {
    var n := |w.times|;
    if |rows| == 0 {
      forall p | 0 <= p < n ensures PeriodCosts(w, rows)(p) == 0.0 {
        WeightedTotalOfZeros(w.values[p], RateRow(rows, Bound(w.times, p), Bound(w.times, p + 1), w.columns));
      }
      SumZero(PeriodCosts(w, rows), n);
    } else {
      var init, r := rows[..|rows| - 1], rows[|rows| - 1];
      FundingIsConserved(w, init);
      assert rows == init + [r];
      forall p | 0 <= p < n ensures PeriodCosts(w, rows)(p) == PeriodCosts(w, init)(p) + Charge(w, r)(p) {
        ChargedToItsPeriod(w, init, r, p);
      }
      SumAdd(PeriodCosts(w, init), Charge(w, r), PeriodCosts(w, rows), n);
      ChargedOnce(w, r);
    }
  }

  // ----- the computation

  ghost predicate Occurs(window: seq<Row>, symbol: string) { exists r :: r in window && r.symbol == symbol }

  /** Some funding row for a held symbol falls into the period. */
  ghost predicate IsObserved(w: Weights, rows: seq<Row>, p: nat, symbol: string)
    requires |w.times| >= 1
  {
    symbol in w.columns && exists r :: r in rows && r.symbol == symbol && InPeriod(w.times, p, r.time)
  }

  function Window(rows: seq<Row>, start: int, end: int): (window: seq<Row>)
    ensures |window| == CountBetween(rows, start, end)
    ensures forall r :: r in window <==> (r in rows && Between(r, start, end))
  {
    if |rows| == 0 then []
    else
      assert rows == rows[..|rows| - 1] + [rows[|rows| - 1]];
      Window(rows[..|rows| - 1], start, end) + if Between(rows[|rows| - 1], start, end) then [rows[|rows| - 1]] else []
  }

  /** Adds one pair for each column symbol that occurs in the window. */
  method Observe(observed: set<(nat, string)>, p: nat, window: seq<Row>, columns: seq<string>)
    returns (after: set<(nat, string)>)
    ensures forall q: nat, symbol :: (q, symbol) in after <==>
      ((q, symbol) in observed || (q == p && symbol in columns && Occurs(window, symbol)))
    ensures |after| <= |observed| + |columns|
  {
    after := observed;
    var symbols := set r | r in window && r.symbol in columns :: r.symbol;
    var pending := symbols;
    while pending != {}
      invariant pending <= symbols
      invariant forall q: nat, symbol :: (q, symbol) in after <==>
                  ((q, symbol) in observed || (q == p && symbol in symbols && symbol !in pending))
      invariant |after| + |pending| <= |observed| + |symbols|
      decreases pending
    {
      var symbol :| symbol in pending;
      after := after + {(p, symbol)};
      pending := pending - {symbol};
    }
    SubsetCardinality(symbols, Elements(columns));
    ElementsBound(columns);
  }

  /** The observed pairs of the first n periods. */
  ghost predicate ObservedSoFar(w: Weights, rows: seq<Row>, observed: set<(nat, string)>, n: nat)
    requires |w.times| >= 1
  {
    forall p: nat, symbol :: (p, symbol) in observed <==> (p < n && IsObserved(w, rows, p, symbol))
  }

  lemma OccursInWindow(w: Weights, rows: seq<Row>, n: nat, symbol: string)
    requires |w.times| >= 1
    ensures (symbol in w.columns && Occurs(Window(rows, Bound(w.times, n), Bound(w.times, n + 1)), symbol))
       <==> IsObserved(w, rows, n, symbol)
  {
    var window := Window(rows, Bound(w.times, n), Bound(w.times, n + 1));
    if r :| r in window && r.symbol == symbol { assert r in rows && InPeriod(w.times, n, r.time); }
    if r :| r in rows && r.symbol == symbol && InPeriod(w.times, n, r.time) { assert r in window; }
  }

  lemma EmptyWindowIsFree(w: Weights, rows: seq<Row>, p: nat)
    requires IsTable(w) && p < |w.times| && CountBetween(rows, Bound(w.times, p), Bound(w.times, p + 1)) == 0
    ensures PeriodCost(w, rows, p) == 0.0
  {
    var start, end := Bound(w.times, p), Bound(w.times, p + 1);
    forall j | 0 <= j < |w.columns| ensures SymbolRate(rows, start, end, w.columns[j]) == 0.0 {
      EmptyWindowCostsNothing(rows, start, end, w.columns[j]);
    }
    WeightedTotalOfZeros(w.values[p], RateRow(rows, start, end, w.columns));
  }

  /** One period: its cost, how many rows it takes in, and the pairs it observes. */
  method FundOnePeriod(w: Weights, rows: seq<Row>, p: nat, observed: set<(nat, string)>)
    returns (value: real, taken: nat, after: set<(nat, string)>)
    requires IsTable(w) && p < |w.times| && ObservedSoFar(w, rows, observed, p)
    ensures value == PeriodCost(w, rows, p)
    ensures taken == CountBetween(rows, Bound(w.times, p), Bound(w.times, p + 1))
    ensures ObservedSoFar(w, rows, after, p + 1) && |after| <= |observed| + |w.columns|
  {
    var start, end := Bound(w.times, p), Bound(w.times, p + 1);
    var window := Window(rows, start, end);
    forall symbol ensures (symbol in w.columns && Occurs(window, symbol)) <==> IsObserved(w, rows, p, symbol) {
      OccursInWindow(w, rows, p, symbol);
    }
    if |window| == 0 {
      EmptyWindowIsFree(w, rows, p);
      return 0.0, 0, observed;
    }
    value := WeightedTotal(w.values[p], RateRow(rows, start, end, w.columns));
    taken := |window|;
    after := Observe(observed, p, window, w.columns);
  }

  /** A cost per period that conserves the rows' total, and a coverage that counts in-range rows and observed pairs. */
  ghost predicate Accounts(w: Weights, rows: seq<Row>, cost: seq<real>, coverage: Coverage)
    requires IsTable(w) && |w.times| >= 1
  {
    && |cost| == |w.times| && (forall p :: 0 <= p < |cost| ==> cost[p] == PeriodCost(w, rows, p))
    && Total(cost) == CostOfRows(w, rows)
    && coverage.rawRows == |rows|
    && coverage.alignedRows == CountBetween(rows, w.times[0], Bound(w.times, |w.times|))
    && coverage.expected == |w.times| * |w.columns|
    && (exists pairs :: ObservedSoFar(w, rows, pairs, |w.times|) && coverage.observed == |pairs|)
    && coverage.observed + coverage.missing == coverage.expected
  }

  method FundingByPeriod(w: Weights, rows: seq<Row>) returns (cost: seq<real>, coverage: Coverage)
    requires IsTable(w) && |w.times| >= 1
    ensures Accounts(w, rows, cost, coverage)
  {
    cost := [];
    var observed, aligned := {}, 0;
    var n, width := |w.times|, |w.columns|;
    CountsAdd(rows, w.times[0], w.times[0], w.times[0]);
    for p := 0 to n
      invariant |cost| == p && forall q :: 0 <= q < p ==> cost[q] == PeriodCost(w, rows, q)
      invariant aligned == CountBetween(rows, w.times[0], Bound(w.times, p))
      invariant ObservedSoFar(w, rows, observed, p) && |observed| <= p * width
    {
      BoundsIncrease(w, 0, p);
      BoundsIncrease(w, p, p + 1);
      CountsAdd(rows, w.times[0], Bound(w.times, p), Bound(w.times, p + 1));
      var value, taken, after := FundOnePeriod(w, rows, p, observed);
      cost := cost + [value];
      aligned := aligned + taken;
      assert (p + 1) * width == p * width + width;
      observed := after;
    }
    var expected := n * width;
    var missing := if expected - |observed| > 0 then expected - |observed| else 0;
    coverage := Coverage(|rows|, aligned, expected, |observed|, missing);
    SumCongruent(Entries(cost), PeriodCosts(w, rows), n);
    FundingIsConserved(w, rows);
  }

  function EmptyCoverage(w: Weights): Coverage {
    var expected := |w.times| * |w.columns|;
    Coverage(0, 0, expected, 0, expected)
  }

  /** The whole function; without any weights there is no cost to speak of, without funding the cost is zero. */
  method FundingCostByPeriod(w: Weights, funding: Option<seq<RawRow>>)
    returns (cost: Option<seq<real>>, coverage: Coverage)
    requires IsTable(w)
    ensures cost == None <==> |w.times| == 0 || |w.columns| == 0
    ensures cost.Some? && funding.Some? && |funding.value| > 0 ==>
              Accounts(w, Normalized(funding.value), cost.value, coverage)
    ensures cost == None || funding == None || |funding.value| == 0 ==> coverage == EmptyCoverage(w)
    ensures coverage.expected == |w.times| * |w.columns| && coverage.observed + coverage.missing == coverage.expected
    ensures cost.Some? && (funding == None || |funding.value| == 0) ==>
              |cost.value| == |w.times| && forall p :: 0 <= p < |cost.value| ==> cost.value[p] == 0.0
  {
    if |w.times| == 0 || |w.columns| == 0 { return None, EmptyCoverage(w); }
    if funding == None || |funding.value| == 0 {
      return Some(seq(|w.times|, i => 0.0)), EmptyCoverage(w);
    }
    var values, detail := FundingByPeriod(w, Normalized(funding.value));
    return Some(values), detail;
  }
}
