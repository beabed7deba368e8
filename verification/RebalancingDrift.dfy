/**
 * A constant-mix portfolio of strategies: what its weights drift to within a period, and what bringing
 * them back to target costs.
 */
module RebalancingDrift {
  import opened Wrappers
  import opened Collections
  import opened RealAlgebra
  import opened Sums

  /** Missing returns are absent; each row has one entry per column. */
  datatype Frame = Frame(columns: seq<string>, rows: seq<seq<Option<real>>>)

  datatype Combined = Combined(gross: seq<real>, turnover: seq<real>, net: seq<real>, equity: seq<real>)

  // ----- one period

  /** The portfolio's gross return: the weighted sum of its constituents' returns. */
  function Gross(w: seq<real>, r: seq<real>): real { WeightedTotal(w, r) }

  function Growth(w: seq<real>, r: seq<real>): real { 1.0 + Gross(w, r) }

  /** w_i (1 + r_i) */
  function Grown(w: seq<real>, r: seq<real>): int -> real { i => Times(Entries(w)(i), 1.0 + Entries(r)(i)) }

  /** What the weights have become by the end of the period. */
  function Drifted(w: seq<real>, r: seq<real>): int -> real { i => Ratio(Grown(w, r)(i), Growth(w, r)) }

  function Positive(x: real): real { if x > 0.0 then x else 0.0 }

  function Distance(f: int -> real, g: int -> real): int -> real { i => Magnitude(f(i) - g(i)) }

  function Excess(f: int -> real, g: int -> real): int -> real { i => Positive(f(i) - g(i)) }

  function Difference(f: int -> real, g: int -> real): int -> real { i => f(i) - g(i) }

  /** Half the sum of the absolute differences between drifted and target weights. */
  function HalfDrift(w: seq<real>, r: seq<real>): real { Sum(Distance(Drifted(w, r), Entries(w)), |w|) / 2.0 }

  /** Between vectors with the same total, half the distance lies above and half below. */
  lemma HalfTheDistance(f: int -> real, g: int -> real, n: nat)
    requires Sum(f, n) == Sum(g, n)
    ensures Sum(Distance(f, g), n) / 2.0 == Sum(Excess(f, g), n) == Sum(Excess(g, f), n)
  {
    forall i | 0 <= i < n
      ensures Distance(f, g)(i) == Excess(f, g)(i) + Excess(g, f)(i)
           && Excess(f, g)(i) == Excess(g, f)(i) + Difference(f, g)(i)
           && Difference(f, g)(i) == 1.0 * f(i) + -1.0 * g(i)
    {
      var x, y := f(i), g(i);
      assert Magnitude(x - y) == Positive(x - y) + Positive(y - x);
    }
    SumAdd(Excess(f, g), Excess(g, f), Distance(f, g), n);
    SumAdd(Excess(g, f), Difference(f, g), Excess(f, g), n);
    SumLinear(f, g, Difference(f, g), 1.0, -1.0, n);
  }

  /** Drifted weights still add up to one. */
  lemma DriftedSumsToOne(w: seq<real>, r: seq<real>)
    requires Total(w) == 1.0 && Growth(w, r) != 0.0
    ensures Sum(Drifted(w, r), |w|) == 1.0
  {
    var n, growth := |w|, Growth(w, r);
    forall i | 0 <= i < n ensures Grown(w, r)(i) == Entries(w)(i) + Products(w, r)(i) {
      TimesSum(Entries(w)(i), 1.0, Entries(r)(i));
      TimesUnits(Entries(w)(i));
    }
    SumAdd(Entries(w), Products(w, r), Grown(w, r), n);
    forall i | 0 <= i < n ensures Drifted(w, r)(i) == Times(Ratio(1.0, growth), Grown(w, r)(i)) {
      RatioSplits(Grown(w, r)(i), growth);
    }
    SumScale(Grown(w, r), Drifted(w, r), Ratio(1.0, growth), n);
    RatioSplits(growth, growth);
    assert Ratio(growth, growth) == 1.0;
  }

  /** What is bought is what is sold, and the turnover is exactly that amount. */
  lemma TurnoverIsBoughtAndSold(w: seq<real>, r: seq<real>)
    requires Total(w) == 1.0 && Growth(w, r) != 0.0
    ensures Sum(Excess(Entries(w), Drifted(w, r)), |w|) == HalfDrift(w, r)
    ensures Sum(Excess(Drifted(w, r), Entries(w)), |w|) == HalfDrift(w, r)
  {
    DriftedSumsToOne(w, r);
    HalfTheDistance(Drifted(w, r), Entries(w), |w|);
  }

  /**
   * The money to be spent on constituent i when an account worth value before the period returns to target
   * after it.
   */
  function MoneyBought(value: real, w: seq<real>, r: seq<real>): int -> real {
    i => Positive(Times(Times(value, Growth(w, r)), Entries(w)(i)) - Times(value, Grown(w, r)(i)))
  }

  lemma ScaledPurchase(value: real, growth: real, w: real, grown: real, worth: real)
    requires value > 0.0 && growth > 0.0 && worth == Times(value, growth)
    ensures Positive(Times(worth, w) - Times(value, grown)) == Times(worth, Positive(w - Ratio(grown, growth)))
  {
    var d := Ratio(grown, growth);
    PositiveProduct(value, growth, worth);
    RatioUndone(grown, growth);
    assert Times(value, grown) == Times(worth, d);
    assert Times(worth, w) - Times(worth, d) == Times(worth, w - d);
    if w > d { PositiveProduct(worth, w - d, Times(worth, w - d)); }
    if w < d { PositiveProduct(worth, d - w, Times(worth, d - w)); }
  }

  /** Seen from an account book, turnover is the money spent on purchases per unit of the account's worth. */
  lemma TurnoverIsMoneyTraded(value: real, w: seq<real>, r: seq<real>)
    requires Total(w) == 1.0 && Growth(w, r) > 0.0 && value > 0.0
    ensures Sum(MoneyBought(value, w, r), |w|) == Times(Times(value, Growth(w, r)), HalfDrift(w, r))
  {
    var worth, bought := Times(value, Growth(w, r)), Excess(Entries(w), Drifted(w, r));
    forall i | 0 <= i < |w| ensures MoneyBought(value, w, r)(i) == Times(worth, bought(i)) {
      ScaledPurchase(value, Growth(w, r), Entries(w)(i), Grown(w, r)(i), worth);
    }
    SumScale(bought, MoneyBought(value, w, r), worth, |w|);
    TurnoverIsBoughtAndSold(w, r);
  }

  /** No position is short and none loses more than everything. */
  ghost predicate LongOnly(w: seq<real>, r: seq<real>) {
    (forall i :: 0 <= i < |w| ==> Entries(w)(i) >= 0.0) && (forall i :: 0 <= i < |w| ==> Entries(r)(i) >= -1.0)
  }

  lemma DriftedIsLong(w: seq<real>, r: seq<real>, i: int)
    requires LongOnly(w, r) && Growth(w, r) > 0.0 && 0 <= i < |w|
    ensures Drifted(w, r)(i) >= 0.0
  {
    NonnegativeProduct(Entries(w)(i), 1.0 + Entries(r)(i));
    RatioSign(Grown(w, r)(i), Growth(w, r));
  }

  /** A long-only portfolio never turns over more than once in a period. */
  lemma TurnoverIsAtMostOne(w: seq<real>, r: seq<real>)
    requires Total(w) == 1.0 && Growth(w, r) > 0.0 && LongOnly(w, r)
    ensures 0.0 <= HalfDrift(w, r) <= 1.0
  {
    var target, drifted, n := Entries(w), Drifted(w, r), |w|;
    TurnoverIsBoughtAndSold(w, r);
    forall i | 0 <= i < n ensures drifted(i) >= 0.0 { DriftedIsLong(w, r, i); }
    ExcessIsBounded(target, drifted, n);
  }

  lemma ExcessIsBounded(f: int -> real, g: int -> real, n: nat)
    requires forall i :: 0 <= i < n ==> f(i) >= 0.0
    requires forall i :: 0 <= i < n ==> g(i) >= 0.0
    ensures 0.0 <= Sum(Excess(f, g), n) <= Sum(f, n)
  {
    SumNonnegative(Excess(f, g), n);
    SumMonotone(Excess(f, g), f, n);
  }

  lemma ConstituentIsStill(w: real, r: real, gross: real, grown: real, growth: real)
    requires growth != 0.0 && growth == 1.0 + gross && grown == Times(w, 1.0 + r)
    ensures Ratio(grown, growth) == w <==> w == 0.0 || r == gross
  {
    RatioUndone(grown, growth);
    if Ratio(grown, growth) == w { assert w * (r - gross) == 0.0; }
  }

  /** Nothing needs trading exactly when every constituent held earned what the portfolio earned. */
  lemma NoTurnoverIff(w: seq<real>, r: seq<real>)
    requires Growth(w, r) != 0.0
    ensures HalfDrift(w, r) == 0.0 <==>
      forall i :: 0 <= i < |w| && Entries(w)(i) != 0.0 ==> Entries(r)(i) == Gross(w, r)
  {
    forall i | 0 <= i < |w|
      ensures Drifted(w, r)(i) == Entries(w)(i) <==> (Entries(w)(i) == 0.0 || Entries(r)(i) == Gross(w, r))
    {
      ConstituentIsStill(Entries(w)(i), Entries(r)(i), Gross(w, r), Grown(w, r)(i), Growth(w, r));
    }
    NoDistanceIff(Drifted(w, r), Entries(w), |w|);
  }

  lemma NoDistanceIff(f: int -> real, g: int -> real, n: nat)
    ensures Sum(Distance(f, g), n) == 0.0 <==> forall i :: 0 <= i < n ==> f(i) == g(i)
  {
    if forall i :: 0 <= i < n ==> f(i) == g(i) { SumZero(Distance(f, g), n); }
    if Sum(Distance(f, g), n) == 0.0 {
      forall i | 0 <= i < n ensures f(i) == g(i) { SumDominates(Distance(f, g), n, i); }
    }
  }

  // ----- the whole run

  /** The columns that have a weight, in column order. */
  function Ordered(columns: seq<string>, weights: map<string, real>): (names: seq<string>)
    ensures forall name :: name in names <==> name in columns && name in weights
  {
    if |columns| == 0 then []
    else (if columns[0] in weights then [columns[0]] else []) + Ordered(columns[1..], weights)
  }

  function WeightVector(names: seq<string>, weights: map<string, real>): (w: seq<real>)
    requires forall name :: name in names ==> name in weights
    ensures |w| == |names| && forall i :: 0 <= i < |w| ==> w[i] == weights[names[i]]
  {
    seq(|names|, i requires 0 <= i < |names| => weights[names[i]])
  }

  /** One row reduced to the weighted columns, with zero for a missing return. */
  function AlignedRow(columns: seq<string>, row: seq<Option<real>>, weights: map<string, real>): seq<real>
    requires |row| == |columns|
  {
    if |columns| == 0 then []
    else
      (if columns[0] in weights then [if row[0].Some? then row[0].value else 0.0] else [])
      + AlignedRow(columns[1..], row[1..], weights)
  }

  /** What a row says about a column, zero when the return is missing. */
  function Reading(columns: seq<string>, row: seq<Option<real>>, name: string): real
    requires |row| == |columns|
  {
    if |columns| == 0 then 0.0
    else if columns[0] == name then if row[0].Some? then row[0].value else 0.0
    else Reading(columns[1..], row[1..], name)
  }

  /** Entry by entry, the aligned row holds the returns of the weighted columns, in their order. */
  lemma {:induction false} AlignedRowMatches(columns: seq<string>, row: seq<Option<real>>, weights: map<string, real>)
    requires |row| == |columns| && Distinct(columns)
    ensures var names, aligned := Ordered(columns, weights), AlignedRow(columns, row, weights);
      && |aligned| == |names|
      && forall i :: 0 <= i < |names| ==> aligned[i] == Reading(columns, row, names[i])
  {
    if |columns| != 0 {
      AlignedRowMatches(columns[1..], row[1..], weights);
      var names := Ordered(columns[1..], weights);
      forall i | 0 <= i < |names|
        ensures Reading(columns, row, names[i]) == Reading(columns[1..], row[1..], names[i])
      {
        assert names[i] in columns[1..];
      }
    }
  }

  function PeriodTurnover(w: seq<real>, rows: seq<seq<real>>, t: nat): real
    requires t < |rows|
  {
    if t == 0 then 0.0 else HalfDrift(w, rows[t - 1])
  }

  function Rate(costBps: real): real { costBps / 10000.0 }

  function Net(w: seq<real>, rows: seq<seq<real>>, costBps: real, t: nat): real
    requires t < |rows|
  {
    Gross(w, rows[t]) - Times(PeriodTurnover(w, rows, t), Rate(costBps))
  }

  /** The cumulative product of the net growth up to and including period t. */
  function Equity(w: seq<real>, rows: seq<seq<real>>, costBps: real, t: nat): real
    requires t < |rows|
  {
    Times(if t == 0 then 1.0 else Equity(w, rows, costBps, t - 1), 1.0 + Net(w, rows, costBps, t))
  }

  function CombineRows(w: seq<real>, rows: seq<seq<real>>, costBps: real): (c: Combined)
    ensures |c.gross| == |c.turnover| == |c.net| == |c.equity| == |rows|
    ensures forall t :: 0 <= t < |rows| ==>
      c.gross[t] == Gross(w, rows[t]) && c.turnover[t] == PeriodTurnover(w, rows, t)
        && c.net[t] == Net(w, rows, costBps, t)
    ensures forall t :: 0 <= t < |rows| ==> c.equity[t] == Equity(w, rows, costBps, t)
  {
    var n := |rows|;
    Combined(
      seq(n, t requires 0 <= t < n => Gross(w, rows[t])),
      seq(n, t requires 0 <= t < n => PeriodTurnover(w, rows, t)),
      seq(n, t requires 0 <= t < n => Net(w, rows, costBps, t)),
      seq(n, t requires 0 <= t < n => Equity(w, rows, costBps, t)))
  }

  ghost predicate IsRectangular(frame: Frame) { forall row :: row in frame.rows ==> |row| == |frame.columns| }

  function TargetWeights(frame: Frame, weights: map<string, real>): seq<real> {
    WeightVector(Ordered(frame.columns, weights), weights)
  }

  function AlignedRows(frame: Frame, weights: map<string, real>): (rows: seq<seq<real>>)
    requires IsRectangular(frame)
    ensures |rows| == |frame.rows|
  {
    seq(|frame.rows|, t requires 0 <= t < |frame.rows| => AlignedRow(frame.columns, frame.rows[t], weights))
  }

  function Combine(frame: Frame, weights: map<string, real>, costBps: real): (r: Result<Combined>)
    requires IsRectangular(frame)
    ensures r.Raised? <==> |frame.rows| == 0 || forall name :: name in frame.columns ==> name !in weights
  {
    if |frame.rows| == 0 || |frame.columns| == 0 then Raised("returns is empty")
    else if |Ordered(frame.columns, weights)| == 0 then
      OrderedIsEmpty(frame.columns, weights);
      Raised("no weight keys match the columns of returns")
    else
      OrderedIsEmpty(frame.columns, weights);
      Success(CombineRows(TargetWeights(frame, weights), AlignedRows(frame, weights), costBps))
  }

  lemma OrderedIsEmpty(columns: seq<string>, weights: map<string, real>)
    ensures |Ordered(columns, weights)| == 0 <==> forall name :: name in columns ==> name !in weights
  {
    var names := Ordered(columns, weights);
    if |names| > 0 { assert names[0] in names; }
  }

  /** Every period in which the portfolio is long-only keeps some of its value. */
  ghost predicate Solvent(w: seq<real>, rows: seq<seq<real>>) {
    forall t :: 0 <= t < |rows| ==> LongOnly(w, rows[t]) && Growth(w, rows[t]) > 0.0
  }

  lemma CostWithin(turnover: real, rate: real)
    requires 0.0 <= turnover <= 1.0 && rate >= 0.0
    ensures 0.0 <= Times(turnover, rate) <= rate
    ensures turnover == 0.0 ==> Times(turnover, rate) == 0.0
  {
    MultiplyInequality(turnover, 1.0, rate);
    NonnegativeProduct(turnover, rate);
  }

  /** Rebalancing never earns anything and costs at most the full rate, and the first period is free. */
  lemma CostIsBounded(w: seq<real>, rows: seq<seq<real>>, costBps: real, t: nat)
    requires Total(w) == 1.0 && Solvent(w, rows) && costBps >= 0.0 && t < |rows|
    ensures Gross(w, rows[t]) - costBps / 10000.0 <= Net(w, rows, costBps, t) <= Gross(w, rows[t])
    ensures t == 0 ==> Net(w, rows, costBps, t) == Gross(w, rows[t])
  {
    var rate, turnover := costBps / 10000.0, PeriodTurnover(w, rows, t);
    if t > 0 { TurnoverIsAtMostOne(w, rows[t - 1]); }
    CostWithin(turnover, rate);
  }

  /**
   * What combining returns, on target weights adding up to one and solvent returns: every turnover lies in
   * [0, 1], every net return lies between gross less the full cost rate and gross, and the first period is free.
   */
  lemma CombinedIsBounded(frame: Frame, weights: map<string, real>, costBps: real, t: nat)
    requires IsRectangular(frame) && Combine(frame, weights, costBps).Success? && t < |frame.rows| && costBps >= 0.0
    requires Total(TargetWeights(frame, weights)) == 1.0
    requires Solvent(TargetWeights(frame, weights), AlignedRows(frame, weights))
    ensures var c := Combine(frame, weights, costBps).value;
      && |c.gross| == |c.turnover| == |c.net| == |c.equity| == |frame.rows|
      && 0.0 <= c.turnover[t] <= 1.0
      && c.gross[t] - costBps / 10000.0 <= c.net[t] <= c.gross[t]
      && (t == 0 ==> c.turnover[t] == 0.0 && c.net[t] == c.gross[t])
  {
    var w, rows := TargetWeights(frame, weights), AlignedRows(frame, weights);
    CostIsBounded(w, rows, costBps, t);
    if t > 0 { TurnoverIsAtMostOne(w, rows[t - 1]); }
  }

  /** Gross less net is the rate times the money spent, per unit of worth, on returning to target after the period
    * before; nothing in the first period. */
  lemma CostIsMoneyTraded(w: seq<real>, rows: seq<seq<real>>, costBps: real, t: nat, value: real)
    requires Total(w) == 1.0 && t < |rows| && value > 0.0
    requires t > 0 ==> Growth(w, rows[t - 1]) > 0.0
    ensures t == 0 ==> Net(w, rows, costBps, t) == Gross(w, rows[t])
    ensures t > 0 ==>
      Times(Times(value, Growth(w, rows[t - 1])), Gross(w, rows[t]) - Net(w, rows, costBps, t))
        == Times(Rate(costBps), Sum(MoneyBought(value, w, rows[t - 1]), |w|))
  {
    if t > 0 {
      TurnoverIsMoneyTraded(value, w, rows[t - 1]);
      Rotate(Times(value, Growth(w, rows[t - 1])), HalfDrift(w, rows[t - 1]), Rate(costBps));
    }
  }

  lemma Rotate(a: real, b: real, c: real)
    ensures Times(a, Times(b, c)) == Times(c, Times(a, b))
  {
    Associate(a, b, c);
  }

  /** What equity stood at when period t began. */
  function EquityBefore(w: seq<real>, rows: seq<seq<real>>, costBps: real, t: nat): real
    requires t < |rows|
  {
    if t == 0 then 1.0 else Equity(w, rows, costBps, t - 1)
  }

  /**
   * The books: over a period the account earns the gross return on all it is worth and pays the rate on the money
   * it spent on returning to target, as long as it was worth something.
   */
  lemma EquityBooks(w: seq<real>, rows: seq<seq<real>>, costBps: real, t: nat)
    requires Total(w) == 1.0 && t < |rows| && EquityBefore(w, rows, costBps, t) > 0.0
    requires t > 0 ==> Growth(w, rows[t - 1]) > 0.0
    ensures var before := EquityBefore(w, rows, costBps, t);
            var spent := if t == 0 then 0.0
                         else Sum(MoneyBought(before / Growth(w, rows[t - 1]), w, rows[t - 1]), |w|);
            Equity(w, rows, costBps, t) - before == Times(before, Gross(w, rows[t])) - Times(Rate(costBps), spent)
  {
    var before, gross, net := EquityBefore(w, rows, costBps, t), Gross(w, rows[t]), Net(w, rows, costBps, t);
    if t == 0 {
      CostIsMoneyTraded(w, rows, costBps, t, 1.0);
      TimesUnits(Rate(costBps));
    } else {
      var growth := Growth(w, rows[t - 1]);
      var value := before / growth;
      assert Times(value, growth) == before;
      CancelPositive(growth, value);
      if value == 0.0 { assert false; }
      CostIsMoneyTraded(w, rows, costBps, t, value);
    }
    GainIsGrossLessCost(before, gross, net);
  }

  lemma GainIsGrossLessCost(before: real, gross: real, net: real)
    ensures Times(before, 1.0 + net) - before == Times(before, gross) - Times(before, gross - net)
  {
  }

  /** A portfolio of strategies that move together compounds its gross return whatever trading costs. */
  lemma {:induction false} MovingTogetherIsFree(w: seq<real>, rows: seq<seq<real>>, costBps: real, t: nat)
    requires t < |rows|
    requires forall s :: 0 <= s < t ==> MovesTogether(w, rows[s])
    ensures Equity(w, rows, costBps, t) == Equity(w, rows, 0.0, t)
    decreases t
  {
    if t > 0 {
      MovingTogetherIsFree(w, rows, costBps, t - 1);
      assert MovesTogether(w, rows[t - 1]);
      NoTurnoverIff(w, rows[t - 1]);
    }
  }

  ghost predicate MovesTogether(w: seq<real>, r: seq<real>) {
    && Growth(w, r) != 0.0
    && forall i :: 0 <= i < |w| && Entries(w)(i) != 0.0 ==> Entries(r)(i) == Gross(w, r)
  }
}
