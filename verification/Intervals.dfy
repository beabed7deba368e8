/** Lists of day intervals per symbol, and the mask that filters observations by them. */
module Intervals {
  import opened Wrappers

  datatype Interval = Interval(first: int, last: int)

  type IntervalMap = map<string, seq<Interval>>

  function Get(m: IntervalMap, s: string): seq<Interval> { if s in m then m[s] else [] }

  ghost predicate NoEmptyEntries(m: IntervalMap) { forall s :: s in m ==> |m[s]| > 0 }

  /** m.setdefault(s, []).append(iv) */
  function Append(m: IntervalMap, s: string, iv: Interval): (r: IntervalMap)
    ensures Get(r, s) == Get(m, s) + [iv]
    ensures forall t :: t != s ==> Get(r, t) == Get(m, t)
  {
    m[s := Get(m, s) + [iv]]
  }

  /** Some interval holds the day, ends included: how the mask reads a list. */
  predicate Covers(ivs: seq<Interval>, day: int) {
    exists i :: 0 <= i < |ivs| && ivs[i].first <= day <= ivs[i].last
  }

  /** Some interval holds the day, its last day excluded. */
  ghost predicate CoversHalfOpen(ivs: seq<Interval>, day: int) {
    exists i :: 0 <= i < |ivs| && ivs[i].first <= day < ivs[i].last
  }

  lemma CoversAppend(ivs: seq<Interval>, iv: Interval, day: int)
    ensures Covers(ivs + [iv], day) <==> Covers(ivs, day) || iv.first <= day <= iv.last
    ensures CoversHalfOpen(ivs + [iv], day) <==> CoversHalfOpen(ivs, day) || iv.first <= day < iv.last
  {
    var all := ivs + [iv];
    assert all[|ivs|] == iv;
    assert forall i :: 0 <= i < |ivs| ==> all[i] == ivs[i];
  }

  /** One row of a factor panel, stamped with its midnight timestamp. */
  datatype Observation = Observation(day: int, symbol: string, value: real)

  /** Some closed interval of the row's symbol covers its day. */
  function KeptBy(m: IntervalMap): Observation -> bool {
    (row: Observation) => Covers(Get(m, row.symbol), row.day)
  }

  /** The rows of a panel that a predicate keeps, in order. */
  ghost function Filter(panel: seq<Observation>, keep: Observation -> bool): seq<Observation> {
    if |panel| == 0 then []
    else Filter(panel[..|panel| - 1], keep) + (if keep(panel[|panel| - 1]) then [panel[|panel| - 1]] else [])
  }

  /** active |= (timestamps >= start) & (timestamps <= end), interval by interval. */
  method ActiveRows(panel: seq<Observation>, ivs: seq<Interval>) returns (active: seq<bool>)
    ensures |active| == |panel|
    ensures forall r :: 0 <= r < |panel| ==> active[r] == Covers(ivs, panel[r].day)
  {
    active := seq(|panel|, _ => false);
    for i := 0 to |ivs|
      invariant |active| == |panel|
      invariant forall r :: 0 <= r < |panel| ==> active[r] == Covers(ivs[..i], panel[r].day)
    {
      var iv := ivs[i];
      ghost var before := active;
      active := seq(|panel|, r requires 0 <= r < |panel| => active[r] || iv.first <= panel[r].day <= iv.last);
      assert ivs[..i + 1] == ivs[..i] + [iv];
      forall r | 0 <= r < |panel| ensures active[r] == Covers(ivs[..i + 1], panel[r].day) {
        CoversAppend(ivs[..i], iv, panel[r].day);
      }
    }
    assert ivs[..|ivs|] == ivs;
  }

  method SelectRows(panel: seq<Observation>, mask: seq<bool>, ghost keep: Observation -> bool)
    returns (rows: seq<Observation>)
    requires |mask| == |panel| && forall r :: 0 <= r < |panel| ==> mask[r] == keep(panel[r])
    ensures rows == Filter(panel, keep)
  {
    rows := [];
    for r := 0 to |panel|
      invariant rows == Filter(panel[..r], keep)
    {
      assert panel[..r + 1][..r] == panel[..r];
      if mask[r] { rows := rows + [panel[r]]; }
    }
    assert panel[..|panel|] == panel;
  }

  /** What the mask leaves of a panel: an absent or empty interval map keeps everything. */
  ghost predicate IsMasked(panel: seq<Observation>, intervals: Option<IntervalMap>, rows: seq<Observation>) {
    if intervals.None? || |intervals.value| == 0 then rows == panel
    else rows == Filter(panel, KeptBy(intervals.value))
  }

  /**
   * The mask keeps exactly the rows that some closed interval of their symbol covers - except that an
   * absent or empty interval map keeps everything.
   */
  method ApplyMembershipMask(panel: seq<Observation>, intervals: Option<IntervalMap>) returns (rows: seq<Observation>)
    ensures IsMasked(panel, intervals, rows)
  {
    if intervals.None? || |intervals.value| == 0 { return panel; }
    if |panel| == 0 { return panel; }
    var m := intervals.value;
    var mask := seq(|panel|, _ => false);
    var pending := m.Keys;
    while pending != {}
      invariant pending <= m.Keys && |mask| == |panel|
      invariant forall r :: 0 <= r < |panel| ==>
                  mask[r] == (panel[r].symbol in m.Keys - pending && Covers(m[panel[r].symbol], panel[r].day))
    {
      var symbol :| symbol in pending;
      pending := pending - {symbol};
      if !exists r :: 0 <= r < |panel| && panel[r].symbol == symbol { continue; }
      var active := ActiveRows(panel, m[symbol]);
      mask := seq(|panel|, r requires 0 <= r < |panel| => mask[r] || (panel[r].symbol == symbol && active[r]));
    }
    rows := SelectRows(panel, mask, KeptBy(m));
  }

  /** Filtering by two predicates that agree on the panel's rows gives the same rows. */
  lemma {:induction false} FilterCongruent(panel: seq<Observation>, p: Observation -> bool, q: Observation -> bool)
    requires forall r :: 0 <= r < |panel| ==> p(panel[r]) == q(panel[r])
    ensures Filter(panel, p) == Filter(panel, q)
  {
    if |panel| != 0 { FilterCongruent(panel[..|panel| - 1], p, q); }
  }

  lemma FilterOne(row: Observation, keep: Observation -> bool)
    ensures Filter([row], keep) == if keep(row) then [row] else []
  {
    assert [row][..0] == [];
  }

  /** Filtering goes through a panel part by part, in order. */
  lemma {:induction false} FilterConcat(a: seq<Observation>, b: seq<Observation>, keep: Observation -> bool)
    ensures Filter(a + b, keep) == Filter(a, keep) + Filter(b, keep)
    decreases |b|
  {
    if |b| == 0 {
      assert a + b == a;
    } else {
      var n := |b| - 1;
      assert (a + b)[..|a + b| - 1] == a + b[..n];
      FilterConcat(a, b[..n], keep);
    }
  }

  /** A predicate that no row of the panel meets keeps nothing. */
  lemma {:induction false} FilterRejects(panel: seq<Observation>, keep: Observation -> bool)
    requires forall r :: 0 <= r < |panel| ==> !keep(panel[r])
    ensures Filter(panel, keep) == []
  {
    if |panel| != 0 { FilterRejects(panel[..|panel| - 1], keep); }
  }
}
