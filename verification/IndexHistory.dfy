/**
 * Point-in-time membership of an index, recovered from today's members and a log of dated changes.
 * Days are integers; the log is sorted by effective date.
 */
module IndexHistory {
  import opened Wrappers

  datatype Change = Change(date: int, added: Option<string>, removed: Option<string>)

  function Tickers(o: Option<string>): set<string> { match o { case None => {} case Some(s) => {s} } }

  function Movers(row: Change): set<string> { Tickers(row.added) + Tickers(row.removed) }

  ghost predicate Sorted(rows: seq<Change>) {
    forall i, j :: 0 <= i < j < |rows| ==> rows[i].date <= rows[j].date
  }

  ghost predicate Descending(rows: seq<Change>) {
    forall i, j :: 0 <= i < j < |rows| ==> rows[i].date >= rows[j].date
  }

  // ----- what the log means: replaying it forward

  function Apply(members: set<string>, row: Change): set<string> {
    members - Tickers(row.removed) + Tickers(row.added)
  }

  ghost function Replay(members: set<string>, rows: seq<Change>): set<string> {
    if |rows| == 0 then members else Apply(Replay(members, rows[..|rows| - 1]), rows[|rows| - 1])
  }

  /** Every row adds absentees and removes members. */
  ghost predicate Consistent(members: set<string>, rows: seq<Change>) {
    forall i :: 0 <= i < |rows| ==>
      && Tickers(rows[i].removed) <= Replay(members, rows[..i])
      && Tickers(rows[i].added) !! Replay(members, rows[..i])
  }

  ghost predicate MovesOncePerDate(rows: seq<Change>) {
    forall i, j :: 0 <= i < j < |rows| && rows[i].date == rows[j].date ==> Movers(rows[i]) !! Movers(rows[j])
  }

  /** How many leading rows take effect on or before a day. */
  function CountUpTo(rows: seq<Change>, day: int): (k: nat)
    ensures k <= |rows|
    ensures forall i :: 0 <= i < k ==> rows[i].date <= day
    ensures k < |rows| ==> rows[k].date > day
  {
    if |rows| == 0 || rows[0].date > day then 0 else 1 + CountUpTo(rows[1..], day)
  }

  /** The true membership on a day. */
  ghost function MembersOn(baseline: set<string>, rows: seq<Change>, day: int): set<string> {
    Replay(baseline, rows[..CountUpTo(rows, day)])
  }

  lemma CountIsUnique(rows: seq<Change>, day: int, k: nat)
    requires Sorted(rows) && k <= |rows|
    requires forall i :: 0 <= i < k ==> rows[i].date <= day
    requires k < |rows| ==> rows[k].date > day
    ensures k == CountUpTo(rows, day)
  {
  }

  // ----- undoing the log backward

  function Undo(members: set<string>, row: Change): set<string> {
    members - Tickers(row.added) + Tickers(row.removed)
  }

  ghost function UndoAll(members: set<string>, order: seq<Change>): set<string> {
    if |order| == 0 then members else Undo(UndoAll(members, order[..|order| - 1]), order[|order| - 1])
  }

  /** Any arrangement of the rows after a day, latest first; rows of one date may stand in any order. */
  ghost predicate LatestFirst(order: seq<Change>, rows: seq<Change>, day: int) {
    && multiset(order) == multiset(rows[CountUpTo(rows, day)..])
    && Descending(order)
  }

  method ReconstructMembership(current: set<string>, order: seq<Change>) returns (members: set<string>)
    ensures members == UndoAll(current, order)
  {
    members := current;
    for i := 0 to |order|
      invariant members == UndoAll(current, order[..i])
    {
      assert order[..i + 1][..i] == order[..i];
      var row := order[i];
      if row.added.Some? && row.added.value in members {
        members := members - {row.added.value};
      }
      if row.removed.Some? {
        members := members + {row.removed.value};
      }
    }
    assert order[..|order|] == order;
  }

  function FirstMention(rows: seq<Change>, s: string): (r: Option<Change>)
    ensures r.Some? ==> r.value in rows && s in Movers(r.value)
  {
    if |rows| == 0 then None
    else if s in Movers(rows[0]) then Some(rows[0])
    else FirstMention(rows[1..], s)
  }

  function LastMention(rows: seq<Change>, s: string): (r: Option<Change>)
    ensures r.Some? ==> r.value in rows && s in Movers(r.value)
    ensures r.None? ==> forall row :: row in rows ==> s !in Movers(row)
  {
    if |rows| == 0 then None
    else
      var n := |rows| - 1;
      if s in Movers(rows[n]) then Some(rows[n])
      else
        assert forall row :: row in rows ==> row in rows[..n] || row == rows[n];
        LastMention(rows[..n], s)
  }

  lemma {:induction false} LastMentionIsEarliest(order: seq<Change>, s: string, row: Change)
    requires Descending(order) && row in order && s in Movers(row)
    ensures LastMention(order, s).Some? && LastMention(order, s).value.date <= row.date
  {
    var n := |order| - 1;
    var k :| 0 <= k < |order| && order[k] == row;
    if s !in Movers(order[n]) {
      assert order[..n][k] == row;
      LastMentionIsEarliest(order[..n], s, row);
    }
  }

  lemma {:induction false} FirstMentionIsEarliest(rows: seq<Change>, s: string, row: Change)
    requires Sorted(rows) && row in rows && s in Movers(row)
    ensures FirstMention(rows, s).Some? && FirstMention(rows, s).value.date <= row.date
  {
    var k :| 0 <= k < |rows| && rows[k] == row;
    if s !in Movers(rows[0]) {
      assert rows[1..][k - 1] == row;
      FirstMentionIsEarliest(rows[1..], s, row);
    }
  }

  /** Undoing leaves a ticker in the state its last undone move dictates. */
  lemma {:induction false} UndoStatus(current: set<string>, order: seq<Change>, s: string)
    ensures s in UndoAll(current, order) <==>
              match LastMention(order, s) { case None => s in current case Some(r) => r.removed == Some(s) }
  {
    if |order| != 0 {
      UndoStatus(current, order[..|order| - 1], s);
    }
  }

  lemma {:induction false} ReplaySplits(members: set<string>, a: seq<Change>, b: seq<Change>)
    ensures Replay(members, a + b) == Replay(Replay(members, a), b)
    decreases |b|
  {
    if |b| == 0 {
      assert a + b == a;
    } else {
      var n := |b| - 1;
      assert (a + b)[..|a + b| - 1] == a + b[..n];
      ReplaySplits(members, a, b[..n]);
    }
  }

  lemma ConsistentTail(members: set<string>, rows: seq<Change>, k: nat)
    requires Consistent(members, rows) && k <= |rows|
    ensures Consistent(Replay(members, rows[..k]), rows[k..])
  {
    forall i | 0 <= i < |rows| - k
      ensures Replay(Replay(members, rows[..k]), rows[k..][..i]) == Replay(members, rows[..k + i])
    {
      ReplaySplits(members, rows[..k], rows[k..][..i]);
      assert rows[..k] + rows[k..][..i] == rows[..k + i];
    }
  }

  /** Before a consistent stretch of log, a ticker is in the state its first move presupposes. */
  lemma {:induction false} ReplayStatus(members: set<string>, rows: seq<Change>, s: string)
    requires Consistent(members, rows)
    ensures s in members <==>
              match FirstMention(rows, s)
              case None => s in Replay(members, rows)
              case Some(r) => r.removed == Some(s)
    decreases |rows|
  {
    if |rows| != 0 {
      assert rows[..0] == [] && rows[..1] == [rows[0]];
      ReplaySplits(members, [rows[0]], rows[1..]);
      assert [rows[0]] + rows[1..] == rows;
      assert Replay(members, [rows[0]]) == Apply(members, rows[0]) by { assert [rows[0]][..0] == []; }
      if s !in Movers(rows[0]) {
        ConsistentTail(members, rows, 1);
        ReplayStatus(Apply(members, rows[0]), rows[1..], s);
      }
    }
  }

  /** No ticker's first move after a day shares its date with a move of the opposite kind. */
  ghost predicate TieSafe(rows: seq<Change>, day: int) {
    var future := rows[CountUpTo(rows, day)..];
    forall s: string, r: Change ::
      r in future && s in Movers(r) && FirstMention(future, s).Some? && r.date == FirstMention(future, s).value.date
      ==> (r.removed == Some(s) <==> FirstMention(future, s).value.removed == Some(s))
  }

  ghost predicate Reconstructs(baseline: set<string>, rows: seq<Change>, day: int, order: seq<Change>) {
    UndoAll(Replay(baseline, rows), order) == MembersOn(baseline, rows, day)
  }

  /**
   * Reconstruction from today's set returns the membership that replaying the log forward gives for
   * that day, whatever order the rows of one date are undone in.
   */
  lemma ReconstructionIsExact(baseline: set<string>, rows: seq<Change>, day: int, order: seq<Change>)
    requires Sorted(rows) && Consistent(baseline, rows) && TieSafe(rows, day)
    requires LatestFirst(order, rows, day)
    ensures Reconstructs(baseline, rows, day, order)
  {
    var truth, future := MembersOn(baseline, rows, day), rows[CountUpTo(rows, day)..];
    TruthSplits(baseline, rows, day);
    forall s: string ensures s in UndoAll(Replay(truth, future), order) <==> s in truth {
      MentionsAgree(rows, day, order, s);
      UndoUndoesReplay(truth, future, order, s);
    }
  }

  lemma TruthSplits(baseline: set<string>, rows: seq<Change>, day: int)
    requires Consistent(baseline, rows)
    ensures var truth, future := MembersOn(baseline, rows, day), rows[CountUpTo(rows, day)..];
            Consistent(truth, future) && Replay(truth, future) == Replay(baseline, rows)
  {
    var k := CountUpTo(rows, day);
    ConsistentTail(baseline, rows, k);
    ReplaySplits(baseline, rows[..k], rows[k..]);
    assert rows[..k] + rows[k..] == rows;
  }

  ghost predicate SameEffect(a: Option<Change>, b: Option<Change>, s: string) {
    (a.Some? <==> b.Some?) && (a.Some? ==> (a.value.removed == Some(s) <==> b.value.removed == Some(s)))
  }

  lemma UndoUndoesReplay(truth: set<string>, future: seq<Change>, order: seq<Change>, s: string)
    requires Consistent(truth, future) && LastMention(order, s).Some? == FirstMention(future, s).Some?
    ensures (s in UndoAll(Replay(truth, future), order) <==> s in truth)
       <==> SameEffect(FirstMention(future, s), LastMention(order, s), s)
  {
    UndoStatus(Replay(truth, future), order, s);
    ReplayStatus(truth, future, s);
  }

  lemma SameElements(a: seq<Change>, b: seq<Change>, x: Change)
    requires multiset(a) == multiset(b)
    ensures x in a <==> x in b
  {
    assert x in a <==> x in multiset(a);
    assert x in b <==> x in multiset(b);
  }

  /** The undoing order and the log agree on which date moves a ticker first. */
  lemma MentionsShareDate(rows: seq<Change>, day: int, order: seq<Change>, s: string)
    requires Sorted(rows) && LatestFirst(order, rows, day)
    ensures var first, last := FirstMention(rows[CountUpTo(rows, day)..], s), LastMention(order, s);
            && (first.Some? <==> last.Some?)
            && (first.Some? ==> first.value.date == last.value.date && last.value in rows[CountUpTo(rows, day)..])
  {
    var future := rows[CountUpTo(rows, day)..];
    var first, last := FirstMention(future, s), LastMention(order, s);
    if first.Some? {
      SameElements(order, future, first.value);
      LastMentionIsEarliest(order, s, first.value);
    }
    if last.Some? {
      SameElements(order, future, last.value);
      FirstMentionIsEarliest(future, s, last.value);
    }
  }

  lemma MentionsAgree(rows: seq<Change>, day: int, order: seq<Change>, s: string)
    requires Sorted(rows) && TieSafe(rows, day) && LatestFirst(order, rows, day)
    ensures SameEffect(FirstMention(rows[CountUpTo(rows, day)..], s), LastMention(order, s), s)
  {
    MentionsShareDate(rows, day, order, s);
  }

  /** Moving every ticker at most once per date is enough. */
  lemma OneMovePerDateIsTieSafe(rows: seq<Change>, day: int)
    requires MovesOncePerDate(rows)
    ensures TieSafe(rows, day)
  {
    var future := rows[CountUpTo(rows, day)..];
    forall s: string, r: Change |
      r in future && s in Movers(r) && FirstMention(future, s).Some? && r.date == FirstMention(future, s).value.date
      ensures r == FirstMention(future, s).value
    {
      OneMovePerDate(rows, r, FirstMention(future, s).value, s);
    }
  }

  lemma OneMovePerDate(rows: seq<Change>, a: Change, b: Change, s: string)
    requires MovesOncePerDate(rows) && a in rows && b in rows
    requires a.date == b.date && s in Movers(a) && s in Movers(b)
    ensures a == b
  {
    var i :| 0 <= i < |rows| && rows[i] == a;
    var j :| 0 <= j < |rows| && rows[j] == b;
    assert !(i < j) && !(j < i);
  }

  // ----- and only then

  ghost function Reverse(rows: seq<Change>): (r: seq<Change>)
    ensures |r| == |rows|
    ensures forall i :: 0 <= i < |rows| ==> r[i] == rows[|rows| - 1 - i]
    ensures multiset(r) == multiset(rows)
  {
    if |rows| == 0 then []
    else
      assert rows == [rows[0]] + rows[1..];
      Reverse(rows[1..]) + [rows[0]]
  }

  lemma {:induction false} LastOfReverse(rows: seq<Change>, s: string)
    ensures LastMention(Reverse(rows), s) == FirstMention(rows, s)
    decreases |rows|
  {
    if |rows| != 0 {
      assert Reverse(rows)[..|rows| - 1] == Reverse(rows[1..]);
      LastOfReverse(rows[1..], s);
    }
  }

  lemma {:induction false} FirstMentionAfter(a: seq<Change>, b: seq<Change>, s: string)
    requires forall row :: row in a ==> s !in Movers(row)
    ensures FirstMention(a + b, s) == FirstMention(b, s)
  {
    if |a| == 0 {
      assert a + b == b;
    } else {
      assert (a + b)[1..] == a[1..] + b && (a + b)[0] == a[0];
      FirstMentionAfter(a[1..], b, s);
    }
  }

  /** Row q brought forward to position p. */
  ghost function Promote(rows: seq<Change>, p: nat, q: nat): seq<Change>
    requires p <= q < |rows|
  {
    rows[..p] + ([rows[q]] + rows[p..q] + rows[q + 1..])
  }

  lemma PromoteWithinDate(rows: seq<Change>, p: nat, q: nat)
    requires Sorted(rows) && p <= q < |rows| && rows[p].date == rows[q].date
    ensures Sorted(Promote(rows, p, q)) && multiset(Promote(rows, p, q)) == multiset(rows)
  {
    PromoteKeepsRows(rows[..p], rows[p..q], rows[q], rows[q + 1..]);
    assert rows == rows[..p] + (rows[p..q] + [rows[q]] + rows[q + 1..]);
    PromoteKeepsDates(rows, p, q);
  }

  lemma PromoteKeepsRows(a: seq<Change>, b: seq<Change>, r: Change, c: seq<Change>)
    ensures multiset(a + ([r] + b + c)) == multiset(a + (b + [r] + c))
  {
  }

  /** All rows from p to q carry one date, so the dates at every position stay what they were. */
  lemma PromoteKeepsDates(rows: seq<Change>, p: nat, q: nat)
    requires Sorted(rows) && p <= q < |rows| && rows[p].date == rows[q].date
    ensures Sorted(Promote(rows, p, q))
  {
    var promoted := Promote(rows, p, q);
    forall i | 0 <= i < |rows| ensures promoted[i].date == rows[i].date {
      if p < i <= q {
        assert promoted[i] == rows[i - 1];
        assert rows[p].date <= rows[i - 1].date && rows[i].date <= rows[q].date;
      }
    }
  }

  /** Any move of a ticker's first date can be made its first move without leaving date order. */
  lemma PromoteToFirst(rows: seq<Change>, s: string, r: Change) returns (promoted: seq<Change>)
    requires Sorted(rows) && r in rows && s in Movers(r)
    requires FirstMention(rows, s).Some? && r.date == FirstMention(rows, s).value.date
    ensures Sorted(promoted) && multiset(promoted) == multiset(rows) && FirstMention(promoted, s) == Some(r)
  {
    var q :| 0 <= q < |rows| && rows[q] == r;
    var p := CountUpTo(rows, r.date - 1);
    forall row | row in rows[..p] ensures s !in Movers(row) {
      if s in Movers(row) { FirstMentionIsEarliest(rows, s, row); }
    }
    PromoteWithinDate(rows, p, q);
    promoted := Promote(rows, p, q);
    FirstMentionAfter(rows[..p], [r] + rows[p..q] + rows[q + 1..], s);
  }

  lemma ReverseIsDescending(rows: seq<Change>)
    requires Sorted(rows)
    ensures Descending(Reverse(rows))
  {
  }

  /** If a ticker's first date holds moves of both kinds, some order of that date's rows gets the ticker wrong. */
  lemma UnsafeTieMisleads(baseline: set<string>, rows: seq<Change>, day: int, s: string, r: Change)
    returns (order: seq<Change>)
    requires Sorted(rows) && Consistent(baseline, rows)
    requires r in rows[CountUpTo(rows, day)..] && s in Movers(r)
    requires var first := FirstMention(rows[CountUpTo(rows, day)..], s);
             && first.Some? && r.date == first.value.date
             && !(r.removed == Some(s) <==> first.value.removed == Some(s))
    ensures LatestFirst(order, rows, day) && !Reconstructs(baseline, rows, day, order)
  {
    var future := rows[CountUpTo(rows, day)..];
    var promoted := PromoteToFirst(future, s, r);
    order := Reverse(promoted);
    ReverseIsDescending(promoted);
    LastOfReverse(promoted, s);
    TruthSplits(baseline, rows, day);
    UndoUndoesReplay(MembersOn(baseline, rows, day), future, order, s);
  }

  /** Over a sorted, consistent log: every tie order reconstructs the day exactly when the day is tie-safe. */
  lemma ReconstructionIsExactIffTieSafe(baseline: set<string>, rows: seq<Change>, day: int)
    requires Sorted(rows) && Consistent(baseline, rows)
    ensures (forall order :: LatestFirst(order, rows, day) ==> Reconstructs(baseline, rows, day, order))
       <==> TieSafe(rows, day)
  {
    if TieSafe(rows, day) {
      forall order | LatestFirst(order, rows, day) ensures Reconstructs(baseline, rows, day, order) {
        ReconstructionIsExact(baseline, rows, day, order);
      }
    } else {
      var future := rows[CountUpTo(rows, day)..];
      var s: string, r: Change :| r in future && s in Movers(r) && FirstMention(future, s).Some?
        && r.date == FirstMention(future, s).value.date
        && !(r.removed == Some(s) <==> FirstMention(future, s).value.removed == Some(s));
      var order := UnsafeTieMisleads(baseline, rows, day, s, r);
    }
  }

  /** A ticker added and removed on one date reappears before that date when the addition is undone first. */
  lemma SameDayRoundTripMisleads()
    ensures var rows := [Change(5, Some("A"), None), Change(5, None, Some("A"))];
            Sorted(rows) && Consistent({}, rows) && LatestFirst(rows, rows, 4) && !Reconstructs({}, rows, 4, rows)
  {
    var add, remove := Change(5, Some("A"), None), Change(5, None, Some("A"));
    var rows := [add, remove];
    assert rows[..1] == [add] && rows[..0] == [] && rows[0..] == rows && [add][..0] == [];
    assert Replay({}, [add]) == {"A"};
    assert Replay({}, rows) == {};
    assert UndoAll({}, rows) == Undo(UndoAll({}, [add]), remove) by { assert rows[..|rows| - 1] == [add]; }
    assert UndoAll({}, [add]) == Undo(UndoAll({}, []), add) == {};
    assert CountUpTo(rows, 4) == 0;
  }
}
