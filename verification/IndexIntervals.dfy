/** The per-ticker membership intervals of an index over a window, built in one forward pass over the log. */
module IndexIntervals {
  import opened Wrappers
  import opened Intervals
  import opened IndexHistory

  // ----- one ticker's view of the pass

  /** When the ticker's current spell began, if it is a member, and its finished spells. */
  datatype Track = Track(open: Option<int>, closed: seq<Interval>)

  ghost function StartTrack(members: set<string>, s: string, start: int): Track {
    Track(if s in members then Some(start) else None, [])
  }

  ghost function StepTrack(t: Track, row: Change, s: string): Track {
    var afterRemoval :=
      if row.removed == Some(s) && t.open.Some? then Track(None, t.closed + [Interval(t.open.value, row.date)]) else t;
    if row.added == Some(s) && afterRemoval.open.None? then Track(Some(row.date), afterRemoval.closed) else afterRemoval
  }

  ghost function FollowTrack(t: Track, rows: seq<Change>, s: string): Track {
    if |rows| == 0 then t else StepTrack(FollowTrack(t, rows[..|rows| - 1], s), rows[|rows| - 1], s)
  }

  /** The spells of the pass, the current one included and still running. */
  ghost predicate Running(t: Track, day: int) {
    CoversHalfOpen(t.closed, day) || (t.open.Some? && t.open.value <= day)
  }

  /** On that day the ticker was a member and a row removed it. */
  ghost predicate RemovedOn(members: set<string>, rows: seq<Change>, s: string, day: int) {
    exists i :: RemovedBy(members, rows, s, day, i)
  }

  ghost predicate RemovedBy(members: set<string>, rows: seq<Change>, s: string, day: int, i: int) {
    0 <= i < |rows| && rows[i].date == day && rows[i].removed == Some(s) && s in Replay(members, rows[..i])
  }

  /** The rows of a window start after its first day and are in date order. */
  ghost predicate WindowRows(rows: seq<Change>, start: int) {
    Sorted(rows) && forall i :: 0 <= i < |rows| ==> rows[i].date > start
  }

  ghost function LastDate(rows: seq<Change>, start: int): int {
    if |rows| == 0 then start else rows[|rows| - 1].date
  }

  /** Spells follow one another in time and never reach past the last row seen. */
  ghost predicate Chronological(t: Track, start: int, end: int) {
    && (forall i :: 0 <= i < |t.closed| ==> start <= t.closed[i].first <= t.closed[i].last <= end)
    && (forall i, j :: 0 <= i < j < |t.closed| ==> t.closed[i].last <= t.closed[j].first)
    && (t.open.Some? ==> start <= t.open.value <= end
                         && forall i :: 0 <= i < |t.closed| ==> t.closed[i].last <= t.open.value)
  }

  lemma {:induction false} TrackIsChronological(members: set<string>, rows: seq<Change>, s: string, start: int)
    requires WindowRows(rows, start)
    ensures var t := FollowTrack(StartTrack(members, s, start), rows, s);
            && Chronological(t, start, LastDate(rows, start))
            && (t.open.Some? <==> s in Replay(members, rows))
  {
    if |rows| != 0 {
      var init, last := rows[..|rows| - 1], rows[|rows| - 1];
      TrackIsChronological(members, init, s, start);
      StepIsChronological(FollowTrack(StartTrack(members, s, start), init, s), last, s, start, LastDate(init, start));
    }
  }

  lemma StepIsChronological(t: Track, row: Change, s: string, start: int, end: int)
    requires Chronological(t, start, end) && start <= end <= row.date
    ensures Chronological(StepTrack(t, row, s), start, row.date)
    ensures StepTrack(t, row, s).open.Some? <==> row.added == Some(s) || (t.open.Some? && row.removed != Some(s))
  {
  }

  lemma CountOfPrefix(rows: seq<Change>, day: int)
    requires Sorted(rows) && |rows| > 0
    ensures var n := |rows| - 1;
            CountUpTo(rows, day) == if rows[n].date <= day then |rows| else CountUpTo(rows[..n], day)
  {
    var n := |rows| - 1;
    CountIsUnique(rows, day, if rows[n].date <= day then |rows| else CountUpTo(rows[..n], day));
  }

  /** A row changes how its own day and later ones are covered, and no earlier one. */
  lemma StepRunning(t: Track, row: Change, s: string, start: int, end: int, day: int)
    requires Chronological(t, start, end) && end <= row.date
    ensures day < row.date ==> (Running(StepTrack(t, row, s), day) <==> Running(t, day))
    ensures day >= row.date ==>
      (Running(StepTrack(t, row, s), day) <==> row.added == Some(s) || (t.open.Some? && row.removed != Some(s)))
  {
    if t.open.Some? { CoversAppend(t.closed, Interval(t.open.value, row.date), day); }
  }

  /**
   * From the window's first day on, the spells cover a day exactly when replaying the log makes the ticker a
   * member.
   */
  lemma {:induction false} TrackMeetsReplay(members: set<string>, rows: seq<Change>, s: string, start: int, day: int)
    requires WindowRows(rows, start) && start <= day
    ensures Running(FollowTrack(StartTrack(members, s, start), rows, s), day) <==> s in MembersOn(members, rows, day)
  {
    if |rows| != 0 {
      var init, last := rows[..|rows| - 1], rows[|rows| - 1];
      var t := FollowTrack(StartTrack(members, s, start), init, s);
      TrackMeetsReplay(members, init, s, start, day);
      TrackIsChronological(members, init, s, start);
      StepRunning(t, last, s, start, LastDate(init, start), day);
      MembersAfterLastRow(members, rows, day);
    }
  }

  lemma MembersAfterLastRow(members: set<string>, rows: seq<Change>, day: int)
    requires Sorted(rows) && |rows| > 0
    ensures var n := |rows| - 1;
      MembersOn(members, rows, day) ==
        if rows[n].date <= day then Replay(members, rows) else MembersOn(members, rows[..n], day)
  {
    CountOfPrefix(rows, day);
    var init := rows[..|rows| - 1];
    assert rows[..|rows|] == rows;
    assert rows[..CountUpTo(init, day)] == init[..CountUpTo(init, day)];
  }

  /** Counting last days as well, the finished spells also cover the days the ticker was removed on, and no others. */
  lemma {:induction false} ClosedReading(members: set<string>, rows: seq<Change>, s: string, start: int, day: int)
    requires WindowRows(rows, start)
    ensures var t := FollowTrack(StartTrack(members, s, start), rows, s);
            Covers(t.closed, day) <==> CoversHalfOpen(t.closed, day) || RemovedOn(members, rows, s, day)
  {
    if |rows| != 0 {
      var n := |rows| - 1;
      var init, last := rows[..n], rows[n];
      var t := FollowTrack(StartTrack(members, s, start), init, s);
      ClosedReading(members, init, s, start, day);
      TrackIsChronological(members, init, s, start);
      RemovalsOfPrefix(members, rows, s, day);
      if t.open.Some? { CoversAppend(t.closed, Interval(t.open.value, last.date), day); }
    }
  }

  lemma RemovalsOfPrefix(members: set<string>, rows: seq<Change>, s: string, day: int)
    requires |rows| > 0
    ensures var n := |rows| - 1;
            RemovedOn(members, rows, s, day) <==>
              RemovedOn(members, rows[..n], s, day) || RemovedBy(members, rows, s, day, n)
  {
    var n := |rows| - 1;
    forall i | 0 <= i < n ensures RemovedBy(members, rows, s, day, i) == RemovedBy(members, rows[..n], s, day, i) {
      assert rows[..n][..i] == rows[..i];
    }
  }

  // ----- the pass itself

  ghost predicate Agrees(openSince: map<string, int>, intervals: IntervalMap, s: string, t: Track) {
    && Get(intervals, s) == t.closed
    && (s in openSince <==> t.open.Some?)
    && (s in openSince ==> openSince[s] == t.open.value)
  }

  method StepMaps(openSince: map<string, int>, intervals: IntervalMap, row: Change)
    returns (openNext: map<string, int>, next: IntervalMap)
    requires NoEmptyEntries(intervals)
    ensures forall s, t :: Agrees(openSince, intervals, s, t) ==> Agrees(openNext, next, s, StepTrack(t, row, s))
    ensures NoEmptyEntries(next)
  {
    openNext, next := openSince, intervals;
    if row.removed.Some? && row.removed.value in openNext {
      next := Append(next, row.removed.value, Interval(openNext[row.removed.value], row.date));
      openNext := openNext - {row.removed.value};
    }
    if row.added.Some? && row.added.value !in openNext {
      openNext := openNext[row.added.value := row.date];
    }
  }

  method Pass(members: set<string>, rows: seq<Change>, start: int)
    returns (openSince: map<string, int>, intervals: IntervalMap)
    ensures forall s :: Agrees(openSince, intervals, s, FollowTrack(StartTrack(members, s, start), rows, s))
    ensures NoEmptyEntries(intervals)
  {
    openSince := map s | s in members :: start;
    intervals := map[];
    for i := 0 to |rows|
      invariant forall s :: Agrees(openSince, intervals, s, FollowTrack(StartTrack(members, s, start), rows[..i], s))
      invariant NoEmptyEntries(intervals)
    {
      assert rows[..i + 1][..i] == rows[..i];
      openSince, intervals := StepMaps(openSince, intervals, rows[i]);
    }
    assert rows[..|rows|] == rows;
  }

  /** A track's spells once the window's end closes the current one. */
  ghost function Finished(t: Track, end: int): seq<Interval> {
    if t.open.Some? then t.closed + [Interval(t.open.value, end)] else t.closed
  }

  method CloseAll(openSince: map<string, int>, intervals: IntervalMap, end: int) returns (closed: IntervalMap)
    requires NoEmptyEntries(intervals)
    ensures forall s ::
              Get(closed, s) == Get(intervals, s) + if s in openSince then [Interval(openSince[s], end)] else []
    ensures NoEmptyEntries(closed)
  {
    closed := intervals;
    var pending := openSince.Keys;
    while pending != {}
      invariant pending <= openSince.Keys && NoEmptyEntries(closed)
      invariant forall s ::
                  Get(closed, s) == Get(intervals, s)
                    + if s in openSince && s !in pending then [Interval(openSince[s], end)] else []
    {
      var s :| s in pending;
      closed := Append(closed, s, Interval(openSince[s], end));
      pending := pending - {s};
    }
  }

  /** The log rows strictly after a window's first day and up to its last. */
  function InWindow(changes: seq<Change>, start: int, end: int): seq<Change>
    requires start <= end
  {
    var k, l := CountUpTo(changes, start), CountUpTo(changes, end);
    if k <= l then changes[k..l] else []
  }

  lemma CountIsMonotone(changes: seq<Change>, a: int, b: int)
    requires Sorted(changes) && a <= b
    ensures CountUpTo(changes, a) <= CountUpTo(changes, b)
  {
  }

  lemma WindowIsOrdered(changes: seq<Change>, start: int, end: int)
    requires start <= end && Sorted(changes)
    ensures WindowRows(InWindow(changes, start, end), start)
  {
    CountIsMonotone(changes, start, end);
    var k, rows := CountUpTo(changes, start), InWindow(changes, start, end);
    forall i | 0 <= i < |rows| ensures rows[i].date > start {
      assert rows[i] == changes[k + i] && changes[k].date <= changes[k + i].date;
    }
  }

  /**
   * Read with open ends, a ticker's intervals hold a day exactly when replaying the rows makes it a member
   * on that day; read with closed ends, they add exactly the days on which it was removed.
   */
  ghost predicate MeansFor(ivs: seq<Interval>, members: set<string>, rows: seq<Change>, s: string, start: int,
    end: int) {
    && (forall d :: start <= d < end ==> (CoversHalfOpen(ivs, d) <==> s in MembersOn(members, rows, d)))
    && (forall d :: start <= d <= end ==>
          (Covers(ivs, d) <==> s in MembersOn(members, rows, d) || RemovedOn(members, rows, s, d)))
  }

  ghost predicate MeansMembership(m: IntervalMap, members: set<string>, rows: seq<Change>, start: int, end: int) {
    forall s :: MeansFor(Get(m, s), members, rows, s, start, end)
  }

  method MembershipIntervals(start: int, end: int, current: set<string>, changes: seq<Change>, order: seq<Change>)
    returns (r: Result<IntervalMap>)
    requires Sorted(changes) && LatestFirst(order, changes, start)
    ensures r.Raised? <==> end < start
    ensures r.Success? ==>
      && NoEmptyEntries(r.value)
      && MeansMembership(r.value, UndoAll(current, order), InWindow(changes, start, end), start, end)
  {
    if end < start { return Raised("end must be on or after start"); }
    var members := ReconstructMembership(current, order);
    var rows := InWindow(changes, start, end);
    WindowIsOrdered(changes, start, end);
    var openSince, intervals := Pass(members, rows, start);
    var closed := CloseAll(openSince, intervals, end);
    SpellsMeanMembership(members, rows, start, end, openSince, intervals, closed);
    r := Success(closed);
  }

  lemma SpellsMeanMembership(members: set<string>, rows: seq<Change>, start: int, end: int,
                             openSince: map<string, int>, intervals: IntervalMap, closed: IntervalMap)
    requires WindowRows(rows, start) && start <= end
    requires forall s :: Agrees(openSince, intervals, s, FollowTrack(StartTrack(members, s, start), rows, s))
    requires forall s ::
               Get(closed, s) == Get(intervals, s) + if s in openSince then [Interval(openSince[s], end)] else []
    ensures MeansMembership(closed, members, rows, start, end)
  {
    forall s: string ensures MeansFor(Get(closed, s), members, rows, s, start, end) {
      assert Agrees(openSince, intervals, s, FollowTrack(StartTrack(members, s, start), rows, s));
      assert Get(closed, s) == Finished(FollowTrack(StartTrack(members, s, start), rows, s), end);
      FinishedMeans(members, rows, s, start, end);
    }
  }

  lemma FinishedMeans(members: set<string>, rows: seq<Change>, s: string, start: int, end: int)
    requires WindowRows(rows, start) && start <= end
    ensures MeansFor(Finished(FollowTrack(StartTrack(members, s, start), rows, s), end), members, rows, s, start, end)
  {
    forall d | start <= d <= end
      ensures var spells := Finished(FollowTrack(StartTrack(members, s, start), rows, s), end);
              && (d < end ==> (CoversHalfOpen(spells, d) <==> s in MembersOn(members, rows, d)))
              && (Covers(spells, d) <==> s in MembersOn(members, rows, d) || RemovedOn(members, rows, s, d))
    {
      FinishedReadings(members, rows, s, start, end, d);
    }
  }

  lemma FinishedReadings(members: set<string>, rows: seq<Change>, s: string, start: int, end: int, d: int)
    requires WindowRows(rows, start) && start <= d <= end
    ensures var spells := Finished(FollowTrack(StartTrack(members, s, start), rows, s), end);
            && (d < end ==> (CoversHalfOpen(spells, d) <==> s in MembersOn(members, rows, d)))
            && (Covers(spells, d) <==> s in MembersOn(members, rows, d) || RemovedOn(members, rows, s, d))
  {
    var t := FollowTrack(StartTrack(members, s, start), rows, s);
    TrackMeetsReplay(members, rows, s, start, d);
    ClosedReading(members, rows, s, start, d);
    if t.open.Some? { CoversAppend(t.closed, Interval(t.open.value, end), d); }
  }

  // ----- against reconstruction of single days

  lemma WindowPrefix(changes: seq<Change>, start: int, end: int, day: int)
    requires Sorted(changes) && start <= day <= end
    ensures var rows, k, m := InWindow(changes, start, end), CountUpTo(changes, start), CountUpTo(changes, day);
            k <= m && rows[..CountUpTo(rows, day)] == changes[k..m]
  {
    CountIsMonotone(changes, start, day);
    CountIsMonotone(changes, day, end);
    var rows, k, m := InWindow(changes, start, end), CountUpTo(changes, start), CountUpTo(changes, day);
    var l := CountUpTo(changes, end);
    assert rows == changes[k..l];
    CountOfSlice(changes, k, l, day);
    SliceOfSlice(changes, k, l, m);
  }

  lemma SliceOfSlice<T>(s: seq<T>, k: nat, l: nat, m: nat)
    requires k <= m <= l <= |s|
    ensures s[k..l][..m - k] == s[k..m]
  {
  }

  lemma ReplayInTwoParts(baseline: set<string>, changes: seq<Change>, k: nat, m: nat)
    requires k <= m <= |changes|
    ensures Replay(Replay(baseline, changes[..k]), changes[k..m]) == Replay(baseline, changes[..m])
  {
    ReplaySplits(baseline, changes[..k], changes[k..m]);
    assert changes[..k] + changes[k..m] == changes[..m];
  }

  lemma CountOfSlice(changes: seq<Change>, k: nat, l: nat, day: int)
    requires Sorted(changes) && k <= CountUpTo(changes, day) <= l <= |changes|
    ensures CountUpTo(changes[k..l], day) == CountUpTo(changes, day) - k
  {
    CountIsUnique(changes[k..l], day, CountUpTo(changes, day) - k);
  }

  /** Replaying the window's rows from its first day is replaying the whole log from the baseline. */
  lemma WindowReplay(baseline: set<string>, changes: seq<Change>, start: int, end: int, day: int)
    requires Sorted(changes) && start <= day <= end
    ensures MembersOn(MembersOn(baseline, changes, start), InWindow(changes, start, end), day) ==
      MembersOn(baseline, changes, day)
  {
    WindowPrefix(changes, start, end, day);
    ReplayInTwoParts(baseline, changes, CountUpTo(changes, start), CountUpTo(changes, day));
  }

  ghost predicate RemovalDate(changes: seq<Change>, s: string, day: int) {
    exists row :: row in changes && row.date == day && row.removed == Some(s)
  }

  lemma RowIsRemoval(baseline: set<string>, changes: seq<Change>, k: nat, l: nat, day: int, s: string, j: nat)
    requires Consistent(baseline, changes) && k <= j < l <= |changes|
    requires changes[j].date == day && changes[j].removed == Some(s)
    ensures RemovedBy(Replay(baseline, changes[..k]), changes[k..l], s, day, j - k)
  {
    assert Tickers(changes[j].removed) <= Replay(baseline, changes[..j]);
    assert changes[k..l][..j - k] == changes[k..j] && changes[..k] + changes[k..j] == changes[..j];
    ReplaySplits(baseline, changes[..k], changes[k..j]);
  }

  lemma SliceRemovalIsRemoval(members: set<string>, changes: seq<Change>, k: nat, l: nat, day: int, s: string)
    requires k <= l <= |changes| && RemovedOn(members, changes[k..l], s, day)
    ensures RemovalDate(changes, s, day)
  {
    var i :| RemovedBy(members, changes[k..l], s, day, i);
    assert changes[k..l][i] == changes[k + i];
    assert changes[k + i] in changes;
  }

  lemma RemovalIsSliceRemoval(baseline: set<string>, changes: seq<Change>, k: nat, l: nat, day: int, s: string)
    requires Consistent(baseline, changes) && k <= l <= |changes| && RemovalDate(changes, s, day)
    requires forall j :: 0 <= j < |changes| && changes[j].date == day ==> k <= j < l
    ensures RemovedOn(Replay(baseline, changes[..k]), changes[k..l], s, day)
  {
    var row :| row in changes && row.date == day && row.removed == Some(s);
    var j :| 0 <= j < |changes| && changes[j] == row;
    RowIsRemoval(baseline, changes, k, l, day, s, j);
  }

  lemma DatedRowsAreInside(changes: seq<Change>, start: int, end: int, day: int)
    requires Sorted(changes) && start < day <= end
    ensures forall j :: 0 <= j < |changes| && changes[j].date == day ==>
              CountUpTo(changes, start) <= j < CountUpTo(changes, end)
  {
    var l := CountUpTo(changes, end);
    assert forall j :: l <= j < |changes| ==> changes[l].date <= changes[j].date;
  }

  /** On a consistent log every removal row removes a member. */
  lemma RemovalsRemoveMembers(baseline: set<string>, changes: seq<Change>, start: int, end: int, day: int, s: string)
    requires Sorted(changes) && Consistent(baseline, changes) && start < day <= end
    ensures RemovedOn(MembersOn(baseline, changes, start), InWindow(changes, start, end), s, day)
       <==> RemovalDate(changes, s, day)
  {
    CountIsMonotone(changes, start, end);
    var k, l := CountUpTo(changes, start), CountUpTo(changes, end);
    DatedRowsAreInside(changes, start, end, day);
    if RemovalDate(changes, s, day) { RemovalIsSliceRemoval(baseline, changes, k, l, day, s); }
    if RemovedOn(MembersOn(baseline, changes, start), changes[k..l], s, day) {
      SliceRemovalIsRemoval(MembersOn(baseline, changes, start), changes, k, l, day, s);
    }
  }

  /**
   * The interval index and day-by-day reconstruction agree.  On a consistent log, a ticker's half-open
   * intervals hold a day exactly when undoing the log back to that day leaves the ticker in; the closed
   * reading differs only on the dates of the ticker's removals.
   */
  lemma IntervalsAgreeWithReconstruction(baseline: set<string>, changes: seq<Change>, start: int, end: int, day: int,
                                         atStart: seq<Change>, atDay: seq<Change>, m: IntervalMap, s: string)
    requires Sorted(changes) && Consistent(baseline, changes) && start <= day <= end
    requires TieSafe(changes, start) && TieSafe(changes, day)
    requires LatestFirst(atStart, changes, start) && LatestFirst(atDay, changes, day)
    requires MeansMembership(m, UndoAll(Replay(baseline, changes), atStart), InWindow(changes, start, end), start, end)
    ensures day < end ==> (CoversHalfOpen(Get(m, s), day) <==> s in UndoAll(Replay(baseline, changes), atDay))
    ensures start < day ==>
      (Covers(Get(m, s), day) <==> s in UndoAll(Replay(baseline, changes), atDay) || RemovalDate(changes, s, day))
  {
    ReconstructionIsExact(baseline, changes, start, atStart);
    ReconstructionIsExact(baseline, changes, day, atDay);
    WindowReplay(baseline, changes, start, end, day);
    if start < day { RemovalsRemoveMembers(baseline, changes, start, end, day, s); }
    assert MeansFor(Get(m, s), MembersOn(baseline, changes, start), InWindow(changes, start, end), s, start, end);
  }
}
