/** The long-short return of a cross-section, from group means and from symbol weights. */
module LongShort {
  import opened Wrappers
  import opened Collections
  import opened RealAlgebra
  import opened Sums
  import opened LiquidityCosts

  // The explicit portfolio of symbol weights is what liquidity limits act on.

  datatype Observation = Observation(time: int, symbol: string, group: int, forward: real)

  /** At most one observation per time and symbol. */
  ghost predicate UniqueKeys(panel: seq<Observation>) {
    forall i, j :: 0 <= i < j < |panel| ==> panel[i].time != panel[j].time || panel[i].symbol != panel[j].symbol
  }

  function At(panel: seq<Observation>, time: int): (section: seq<Observation>)
    ensures forall o :: o in section <==> o in panel && o.time == time
  {
    if |panel| == 0 then [] else (if panel[0].time == time then [panel[0]] else []) + At(panel[1..], time)
  }

  function Leg(section: seq<Observation>, group: int): (leg: seq<Observation>)
    ensures forall o :: o in leg <==> o in section && o.group == group
  {
    if |section| == 0 then [] else (if section[0].group == group then [section[0]] else []) + Leg(section[1..], group)
  }

  // ----- the plain return

  function Forwards(leg: seq<Observation>): (r: seq<real>)
    ensures |r| == |leg| && forall i :: 0 <= i < |leg| ==> r[i] == leg[i].forward
  {
    seq(|leg|, i requires 0 <= i < |leg| => leg[i].forward)
  }

  /** The mean forward return of a leg, zero for an empty one. */
  function LegMean(leg: seq<Observation>): real {
    if |leg| == 0 then 0.0 else Ratio(Total(Forwards(leg)), |leg| as real)
  }

  /** Top group minus bottom group. */
  function PlainReturn(panel: seq<Observation>, groups: int, time: int): real {
    LegMean(Leg(At(panel, time), groups)) - LegMean(Leg(At(panel, time), 1))
  }

  // ----- the portfolio

  datatype Entry = Entry(time: int, symbol: string, weight: real)

  /** Equal weights for the symbols of a leg, adding up to one or to minus one. */
  function LegEntries(leg: seq<Observation>, sign: real): (entries: seq<Entry>)
    ensures |entries| == |leg|
    ensures forall i :: 0 <= i < |leg| ==> entries[i] == Entry(leg[i].time, leg[i].symbol, LegWeight(leg, sign))
  {
    seq(|leg|, i requires 0 <= i < |leg| => Entry(leg[i].time, leg[i].symbol, LegWeight(leg, sign)))
  }

  function LegWeight(leg: seq<Observation>, sign: real): real { Ratio(sign, |leg| as real) }

  function EntriesAt(rows: seq<Entry>, time: int): seq<Entry> {
    if |rows| == 0 then []
    else
      var last := rows[|rows| - 1];
      EntriesAt(rows[..|rows| - 1], time) + if last.time == time then [last] else []
  }

  lemma {:induction false} EntriesAtConcat(a: seq<Entry>, b: seq<Entry>, time: int)
    ensures EntriesAt(a + b, time) == EntriesAt(a, time) + EntriesAt(b, time)
  {
    if |b| == 0 {
      assert a + b == a;
    } else {
      var init, last := b[..|b| - 1], b[|b| - 1];
      assert (a + b)[..|a + b| - 1] == a + init;
      EntriesAtConcat(a, init, time);
    }
  }

  lemma {:induction false} EntriesOfOneTime(rows: seq<Entry>, time: int, other: int)
    requires forall i :: 0 <= i < |rows| ==> rows[i].time == other
    ensures EntriesAt(rows, time) == if time == other then rows else []
  {
    if |rows| != 0 { EntriesOfOneTime(rows[..|rows| - 1], time, other); }
  }

  function LegTable(panel: seq<Observation>, group: int, sign: real): int -> seq<Entry> {
    time => LegEntries(Leg(At(panel, time), group), sign)
  }

  /** The entries of legs at the times done so far have been appended to start. */
  ghost predicate Appended(rows: seq<Entry>, start: seq<Entry>, legs: int -> seq<Entry>, done: set<int>) {
    forall time :: EntriesAt(rows, time) == EntriesAt(start, time) + if time in done then legs(time) else []
  }

  lemma AppendOneMore(rows: seq<Entry>, start: seq<Entry>, legs: int -> seq<Entry>, done: set<int>, now: int)
    requires Appended(rows, start, legs, done) && now !in done
    requires forall i :: 0 <= i < |legs(now)| ==> legs(now)[i].time == now
    ensures Appended(rows + legs(now), start, legs, done + {now})
  {
    forall time ensures EntriesAt(rows + legs(now), time) ==
      EntriesAt(start, time) + if time in done + {now} then legs(time) else []
    {
      EntriesAtConcat(rows, legs(now), time);
      EntriesOfOneTime(legs(now), time, now);
    }
  }

  lemma LegIsOfItsTime(panel: seq<Observation>, group: int, sign: real, time: int)
    ensures var entries := LegTable(panel, group, sign)(time);
      forall i :: 0 <= i < |entries| ==> entries[i].time == time
    ensures LegTable(panel, group, sign)(time) != [] ==> exists o :: o in panel && o.group == group && o.time == time
  {
    var leg := Leg(At(panel, time), group);
    forall i | 0 <= i < |leg| ensures leg[i].time == time && leg[i] in panel && leg[i].group == group {
      assert leg[i] in leg;
    }
    assert |leg| > 0 ==> leg[0] in panel;
  }

  method AddLeg(start: seq<Entry>, panel: seq<Observation>, group: int, sign: real) returns (rows: seq<Entry>)
    ensures forall time :: EntriesAt(rows, time) == EntriesAt(start, time) + LegTable(panel, group, sign)(time)
  {
    rows := start;
    var times := set o | o in panel && o.group == group :: o.time;
    var pending := times;
    ghost var legs := LegTable(panel, group, sign);
    while pending != {}
      invariant pending <= times
      invariant Appended(rows, start, legs, times - pending)
      decreases pending
    {
      var time :| time in pending;
      LegIsOfItsTime(panel, group, sign, time);
      AppendOneMore(rows, start, legs, times - pending, time);
      assert times - pending + {time} == times - (pending - {time});
      rows := rows + LegEntries(Leg(At(panel, time), group), sign);
      pending := pending - {time};
    }
    assert times - pending == times;
    forall time ensures EntriesAt(rows, time) == EntriesAt(start, time) + legs(time) {
      LegIsOfItsTime(panel, group, sign, time);
    }
  }

  /** The long leg in the top group, the short leg in the bottom group. */
  method PortfolioWeights(panel: seq<Observation>, groups: int) returns (rows: seq<Entry>)
    ensures forall time :: EntriesAt(rows, time) == Positions(At(panel, time), groups)
  {
    var long := AddLeg([], panel, groups, 1.0);
    rows := AddLeg(long, panel, 1, -1.0);
  }

  function Positions(section: seq<Observation>, groups: int): seq<Entry> {
    LegEntries(Leg(section, groups), 1.0) + LegEntries(Leg(section, 1), -1.0)
  }

  // ----- rows of the pivoted tables

  datatype Cell = Cell(symbol: string, amount: real)

  /** The amount recorded for a symbol, zero when there is none. */
  function Lookup(cells: seq<Cell>, symbol: string): real {
    if |cells| == 0 then 0.0 else if cells[0].symbol == symbol then cells[0].amount else Lookup(cells[1..], symbol)
  }

  function TableRow(cells: seq<Cell>, columns: seq<string>): (row: seq<real>)
    ensures |row| == |columns| && forall j :: 0 <= j < |columns| ==> row[j] == Lookup(cells, columns[j])
  {
    seq(|columns|, j requires 0 <= j < |columns| => Lookup(cells, columns[j]))
  }

  function Amounts(cells: seq<Cell>): (r: seq<real>)
    ensures |r| == |cells| && forall i :: 0 <= i < |cells| ==> r[i] == cells[i].amount
  {
    seq(|cells|, i requires 0 <= i < |cells| => cells[i].amount)
  }

  ghost predicate DistinctSymbols(cells: seq<Cell>) {
    forall i, j :: 0 <= i < j < |cells| ==> cells[i].symbol != cells[j].symbol
  }

  lemma {:induction false} LookupFinds(cells: seq<Cell>, i: nat)
    requires DistinctSymbols(cells) && i < |cells|
    ensures Lookup(cells, cells[i].symbol) == cells[i].amount
  {
    if i > 0 { LookupFinds(cells[1..], i - 1); }
  }

  lemma {:induction false} LookupMisses(cells: seq<Cell>, symbol: string)
    requires forall i :: 0 <= i < |cells| ==> cells[i].symbol != symbol
    ensures Lookup(cells, symbol) == 0.0
  {
    if |cells| > 0 { LookupMisses(cells[1..], symbol); }
  }

  lemma TotalUpdated(s: seq<real>, j: nat, v: real)
    requires j < |s|
    ensures Total(s[j := v]) == Total(s) - s[j] + v
  {
    assert s == s[..j] + [s[j]] + s[j + 1..];
    assert s[j := v] == s[..j] + [v] + s[j + 1..];
    TotalConcat(s[..j] + [s[j]], s[j + 1..]);
    TotalConcat(s[..j] + [v], s[j + 1..]);
    TotalConcat(s[..j], [s[j]]);
    TotalConcat(s[..j], [v]);
    SingleTotal(s[j]);
    SingleTotal(v);
  }

  /** Without its first cell, a row has a zero where that cell goes, and nothing else changes. */
  lemma FirstCellFills(cells: seq<Cell>, columns: seq<string>, j: nat)
    requires |cells| > 0 && DistinctSymbols(cells) && Distinct(columns)
    requires j < |columns| && columns[j] == cells[0].symbol
    ensures TableRow(cells[1..], columns)[j] == 0.0
    ensures TableRow(cells, columns) == TableRow(cells[1..], columns)[j := cells[0].amount]
  {
    LookupMisses(cells[1..], cells[0].symbol);
  }

  lemma FirstAmountAdds(cells: seq<Cell>)
    requires |cells| > 0
    ensures Total(Amounts(cells)) == cells[0].amount + Total(Amounts(cells[1..]))
  {
    assert Amounts(cells) == [cells[0].amount] + Amounts(cells[1..]);
    TotalConcat([cells[0].amount], Amounts(cells[1..]));
    SingleTotal(cells[0].amount);
  }

  /** Adding up a table row adds up the amounts it was made from. */
  lemma {:induction false} RowTotal(cells: seq<Cell>, columns: seq<string>)
    requires DistinctSymbols(cells) && Distinct(columns)
    requires forall i :: 0 <= i < |cells| ==> cells[i].symbol in columns
    ensures Total(TableRow(cells, columns)) == Total(Amounts(cells))
  {
    if |cells| == 0 {
      SumZero(Entries(TableRow(cells, columns)), |columns|);
    } else {
      var first, rest := cells[0], cells[1..];
      RowTotal(rest, columns);
      var j :| 0 <= j < |columns| && columns[j] == first.symbol;
      FirstCellFills(cells, columns, j);
      TotalUpdated(TableRow(rest, columns), j, first.amount);
      FirstAmountAdds(cells);
    }
  }

  // ----- the two returns agree

  function WeightCells(entries: seq<Entry>): (cells: seq<Cell>)
    ensures |cells| == |entries| && forall i :: 0 <= i < |cells| ==>
      cells[i] == Cell(entries[i].symbol, entries[i].weight)
  {
    seq(|entries|, i requires 0 <= i < |entries| => Cell(entries[i].symbol, entries[i].weight))
  }

  function ReturnCells(section: seq<Observation>): (cells: seq<Cell>)
    ensures |cells| == |section| && forall i :: 0 <= i < |cells| ==>
      cells[i] == Cell(section[i].symbol, section[i].forward)
  {
    seq(|section|, i requires 0 <= i < |section| => Cell(section[i].symbol, section[i].forward))
  }

  /** The rows of the two tables at one time. */
  function WeightRow(section: seq<Observation>, groups: int, columns: seq<string>): seq<real> {
    TableRow(WeightCells(Positions(section, groups)), columns)
  }

  function ReturnRow(section: seq<Observation>, columns: seq<string>): seq<real> {
    TableRow(ReturnCells(section), columns)
  }

  /** One cross-section: no symbol twice. */
  ghost predicate IsSection(section: seq<Observation>) {
    forall i, j :: 0 <= i < j < |section| ==> section[i].symbol != section[j].symbol
  }

  lemma {:induction false} SectionOfPanel(panel: seq<Observation>, time: int)
    requires UniqueKeys(panel)
    ensures IsSection(At(panel, time))
  {
    if |panel| != 0 {
      SectionOfPanel(panel[1..], time);
      forall o | o in At(panel[1..], time) && panel[0].time == time ensures o.symbol != panel[0].symbol {
        var j :| 0 <= j < |panel[1..]| && panel[1..][j] == o;
        assert panel[j + 1] == o;
      }
    }
  }

  /** A leg is a cross-section again. */
  lemma {:induction false} LegOfSection(section: seq<Observation>, group: int)
    requires IsSection(section)
    ensures IsSection(Leg(section, group))
  {
    if |section| != 0 {
      LegOfSection(section[1..], group);
      forall o | o in Leg(section[1..], group) ensures o.symbol != section[0].symbol {
        var j :| 0 <= j < |section[1..]| && section[1..][j] == o;
        assert section[j + 1] == o;
      }
    }
  }

  lemma SymbolIdentifies(section: seq<Observation>, a: Observation, b: Observation)
    requires IsSection(section) && a in section && b in section && a.symbol == b.symbol
    ensures a == b
  {
    var i :| 0 <= i < |section| && section[i] == a;
    var j :| 0 <= j < |section| && section[j] == b;
    assert !(i < j) && !(j < i);
  }

  lemma PositionAt(section: seq<Observation>, groups: int, i: nat)
    requires i < |Leg(section, groups)| + |Leg(section, 1)|
    ensures var long, short := Leg(section, groups), Leg(section, 1);
      var o := if i < |long| then long[i] else short[i - |long|];
      && o in section && (o.group == groups || o.group == 1)
      && Positions(section, groups)[i] ==
        Entry(o.time, o.symbol, if i < |long| then LegWeight(long, 1.0) else LegWeight(short, -1.0))
  {
    var long, short := Leg(section, groups), Leg(section, 1);
    if i < |long| { assert long[i] in long; } else { assert short[i - |long|] in short; }
  }

  lemma PositionsAreDistinct(section: seq<Observation>, groups: int)
    requires IsSection(section) && groups >= 2
    ensures DistinctSymbols(WeightCells(Positions(section, groups)))
  {
    var long, short := Leg(section, groups), Leg(section, 1);
    LegOfSection(section, groups);
    LegOfSection(section, 1);
    forall i, j | 0 <= i < |long| && 0 <= j < |short| ensures long[i].symbol != short[j].symbol {
      assert long[i] in long && short[j] in short;
      if long[i].symbol == short[j].symbol { SymbolIdentifies(section, long[i], short[j]); }
    }
  }

  function Held(section: seq<Observation>, groups: int): seq<Observation> { Leg(section, groups) + Leg(section, 1) }

  lemma HeldAt(section: seq<Observation>, groups: int, i: nat)
    requires i < |Held(section, groups)|
    ensures |Positions(section, groups)| == |Held(section, groups)|
    ensures Held(section, groups)[i] in section
      && Positions(section, groups)[i].symbol == Held(section, groups)[i].symbol
  {
    PositionAt(section, groups, i);
  }

  /** Each position's weight times its forward return. */
  function Earnings(entries: seq<Entry>, held: seq<Observation>): (cells: seq<Cell>)
    requires |entries| == |held|
    ensures |cells| == |held|
    ensures forall i :: 0 <= i < |cells| ==> cells[i] == Cell(held[i].symbol, Times(entries[i].weight, held[i].forward))
  {
    seq(|held|, i requires 0 <= i < |held| => Cell(held[i].symbol, Times(entries[i].weight, held[i].forward)))
  }

  lemma ReturnOf(section: seq<Observation>, o: Observation)
    requires IsSection(section) && o in section
    ensures Lookup(ReturnCells(section), o.symbol) == o.forward
  {
    var i :| 0 <= i < |section| && section[i] == o;
    LookupFinds(ReturnCells(section), i);
  }

  /** In the two tables, too, a symbol earns its weight times its return. */
  lemma EarnedBy(section: seq<Observation>, groups: int, symbol: string)
    requires IsSection(section) && groups >= 2
    ensures Times(Lookup(WeightCells(Positions(section, groups)), symbol), Lookup(ReturnCells(section), symbol))
         == Lookup(Earnings(Positions(section, groups), Held(section, groups)), symbol)
  {
    var entries, held := Positions(section, groups), Held(section, groups);
    PositionsAreDistinct(section, groups);
    forall i | 0 <= i < |held|
      ensures held[i] in section && entries[i].symbol == held[i].symbol
    {
      HeldAt(section, groups, i);
    }
    if i :| 0 <= i < |held| && held[i].symbol == symbol {
      LookupFinds(WeightCells(entries), i);
      LookupFinds(Earnings(entries, held), i);
      ReturnOf(section, held[i]);
    } else {
      LookupMisses(WeightCells(entries), symbol);
      LookupMisses(Earnings(entries, held), symbol);
    }
  }

  lemma LegEarnings(leg: seq<Observation>, sign: real, amounts: seq<real>)
    requires |amounts| == |leg|
    requires forall i :: 0 <= i < |leg| ==> amounts[i] == Times(LegWeight(leg, sign), leg[i].forward)
    ensures Total(amounts) == Times(sign, LegMean(leg))
  {
    SumScale(Entries(Forwards(leg)), Entries(amounts), LegWeight(leg, sign), |leg|);
    if |leg| > 0 { LegShare(sign, Total(Forwards(leg)), |leg| as real); }
  }

  lemma LegShare(sign: real, total: real, n: real)
    requires n > 0.0
    ensures Times(Ratio(sign, n), total) == Times(sign, Ratio(total, n))
  {
  }

  lemma EarningsAddUp(section: seq<Observation>, groups: int)
    ensures Total(Amounts(Earnings(Positions(section, groups), Held(section, groups)))) ==
      LegMean(Leg(section, groups)) - LegMean(Leg(section, 1))
  {
    LegEarningsAddUp(Leg(section, groups), Leg(section, 1), Positions(section, groups));
  }

  lemma LegEarningsAddUp(long: seq<Observation>, short: seq<Observation>, entries: seq<Entry>)
    requires entries == LegEntries(long, 1.0) + LegEntries(short, -1.0)
    ensures Total(Amounts(Earnings(entries, long + short))) == LegMean(long) - LegMean(short)
  {
    var n := |long|;
    var amounts := Amounts(Earnings(entries, long + short));
    var a, b := amounts[..n], amounts[n..];
    assert amounts == a + b;
    TotalConcat(a, b);
    forall i | 0 <= i < n ensures a[i] == Times(LegWeight(long, 1.0), long[i].forward) {
      assert entries[i].weight == LegWeight(long, 1.0) && (long + short)[i] == long[i];
    }
    forall i | 0 <= i < |short| ensures b[i] == Times(LegWeight(short, -1.0), short[i].forward) {
      assert entries[n + i].weight == LegWeight(short, -1.0) && (long + short)[n + i] == short[i];
    }
    LegEarnings(long, 1.0, a);
    LegEarnings(short, -1.0, b);
    TimesUnits(LegMean(long));
  }

  /** Every symbol held has a column. */
  ghost predicate HasColumns(section: seq<Observation>, groups: int, columns: seq<string>) {
    Distinct(columns) && forall i :: 0 <= i < |Held(section, groups)| ==> Held(section, groups)[i].symbol in columns
  }

  lemma HeldIsDistinct(section: seq<Observation>, groups: int)
    requires IsSection(section) && groups >= 2
    ensures DistinctSymbols(Earnings(Positions(section, groups), Held(section, groups)))
  {
    PositionsAreDistinct(section, groups);
    var held, cells := Held(section, groups), WeightCells(Positions(section, groups));
    forall i | 0 <= i < |held| ensures cells[i].symbol == held[i].symbol { HeldAt(section, groups, i); }
  }

  /** The explicit portfolio earns exactly the difference of the group means. */
  lemma PortfolioEarnsTheSpread(section: seq<Observation>, groups: int, columns: seq<string>)
    requires IsSection(section) && groups >= 2 && HasColumns(section, groups, columns)
    ensures WeightedTotal(WeightRow(section, groups, columns), ReturnRow(section, columns)) ==
      LegMean(Leg(section, groups)) - LegMean(Leg(section, 1))
  {
    var entries, held := Positions(section, groups), Held(section, groups);
    forall symbol
      ensures Times(Lookup(WeightCells(entries), symbol), Lookup(ReturnCells(section), symbol)) ==
        Lookup(Earnings(entries, held), symbol)
    {
      EarnedBy(section, groups, symbol);
    }
    RowsMultiply(WeightCells(entries), ReturnCells(section), Earnings(entries, held), columns);
    HeldIsDistinct(section, groups);
    RowTotal(Earnings(entries, held), columns);
    EarningsAddUp(section, groups);
  }

  lemma RowsMultiply(weights: seq<Cell>, forwards: seq<Cell>, products: seq<Cell>, columns: seq<string>)
    requires forall symbol :: Times(Lookup(weights, symbol), Lookup(forwards, symbol)) == Lookup(products, symbol)
    ensures WeightedTotal(TableRow(weights, columns), TableRow(forwards, columns)) == Total(TableRow(products, columns))
  {
    var w, r := TableRow(weights, columns), TableRow(forwards, columns);
    forall j | 0 <= j < |columns| ensures Products(w, r)(j) == Entries(TableRow(products, columns))(j) {
      ProductAt(w, r, j);
    }
    SumCongruent(Products(w, r), Entries(TableRow(products, columns)), |columns|);
  }

  /** The portfolio is neutral when both legs are held, and each leg held has one unit. */
  lemma PortfolioIsBalanced(section: seq<Observation>, groups: int, columns: seq<string>)
    requires IsSection(section) && groups >= 2 && HasColumns(section, groups, columns)
    ensures Total(WeightRow(section, groups, columns)) ==
      (if |Leg(section, groups)| > 0 then 1.0 else 0.0) - (if |Leg(section, 1)| > 0 then 1.0 else 0.0)
  {
    var cells := WeightCells(Positions(section, groups));
    PositionsAreDistinct(section, groups);
    forall i | 0 <= i < |cells| ensures cells[i].symbol in columns { HeldAt(section, groups, i); }
    RowTotal(cells, columns);
    LegsAddUp(Leg(section, groups), Leg(section, 1));
  }

  lemma LegsAddUp(long: seq<Observation>, short: seq<Observation>)
    ensures Total(Amounts(WeightCells(LegEntries(long, 1.0) + LegEntries(short, -1.0)))) ==
      (if |long| > 0 then 1.0 else 0.0) - (if |short| > 0 then 1.0 else 0.0)
  {
    var amounts := Amounts(WeightCells(LegEntries(long, 1.0) + LegEntries(short, -1.0)));
    var a, b := amounts[..|long|], amounts[|long|..];
    assert amounts == a + b;
    TotalConcat(a, b);
    EqualShares(a, LegWeight(long, 1.0), 1.0);
    EqualShares(b, LegWeight(short, -1.0), -1.0);
  }

  lemma EqualShares(s: seq<real>, share: real, whole: real)
    requires share == Ratio(whole, |s| as real) && forall i :: 0 <= i < |s| ==> s[i] == share
    ensures Total(s) == if |s| > 0 then whole else 0.0
  {
    SumConstant(Entries(s), |s|, share);
    if |s| > 0 { RatioUndone(whole, |s| as real); }
  }

  /** What the liquidity path reports for one cross-section: the filled weights at the same returns. */
  function LiquidReturn(section: seq<Observation>, groups: int, columns: seq<string>, volume: seq<Option<real>>,
    config: Config): real
    requires |volume| == |columns|
  {
    WeightedTotal(FilledRow(WeightRow(section, groups, columns), volume, config), ReturnRow(section, columns))
  }

  /** When no cap binds, taking liquidity into account changes nothing. */
  lemma LiquidityPathAgreesWhenUncapped(panel: seq<Observation>, groups: int, columns: seq<string>,
    volume: seq<Option<real>>, config: Config, time: int)
    requires UniqueKeys(panel) && groups >= 2 && HasColumns(At(panel, time), groups, columns)
    requires |volume| == |columns| && Sane(config)
    requires NothingCapped(WeightRow(At(panel, time), groups, columns), volume, config)
    ensures LiquidReturn(At(panel, time), groups, columns, volume, config) == PlainReturn(panel, groups, time)
  {
    var section := At(panel, time);
    SectionOfPanel(panel, time);
    UncappedRowIsUnchanged(WeightRow(section, groups, columns), volume, config);
    PortfolioEarnsTheSpread(section, groups, columns);
  }
}
