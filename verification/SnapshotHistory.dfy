/** Point-in-time membership of a universe known only through daily snapshots. */
module SnapshotHistory {
  import opened Wrappers
  import opened Intervals

  // A log maps a day to the symbols listed on it, or to nothing when the day is known to have no snapshot.

  type Log = map<int, Option<seq<string>>>

  predicate Listed(log: Log, day: int, s: string) {
    day in log && log[day].Some? && s in log[day].value
  }

  ghost predicate Ascending(days: seq<int>) { forall i, j :: 0 <= i < j < |days| ==> days[i] < days[j] }

  function Insert(days: seq<int>, day: int): seq<int> {
    if |days| == 0 || day < days[0] then [day] + days else [days[0]] + Insert(days[1..], day)
  }

  lemma {:induction false} InsertKeepsAscending(days: seq<int>, day: int)
    requires Ascending(days) && day !in days
    ensures Ascending(Insert(days, day))
    ensures forall d :: d in Insert(days, day) <==> d in days || d == day
  {
    if |days| == 0 || day < days[0] {
    } else {
      var rest := Insert(days[1..], day);
      InsertKeepsAscending(days[1..], day);
      assert days == [days[0]] + days[1..];
      forall k | 0 <= k < |rest| ensures days[0] < rest[k] {
        assert rest[k] in rest;
      }
    }
  }

  /** sorted(daily_snapshots.keys()) */
  method SortedDays(log: Log) returns (days: seq<int>)
    ensures Ascending(days) && forall d :: d in days <==> d in log
  {
    days := [];
    var pending := log.Keys;
    while exists d :: d in pending
      decreases pending
      invariant pending <= log.Keys && Ascending(days) && forall d :: d in days <==> d in log.Keys - pending
    {
      var day :| day in pending;
      InsertKeepsAscending(days, day);
      days := Insert(days, day);
      pending := pending - {day};
    }
  }

  // ----- one symbol's view of the pass

  datatype Track = Track(open: Option<int>, lastSeen: Option<int>, closed: seq<Interval>)

  ghost function StepTrack(log: Log, day: int, s: string, t: Track): Track {
    if Listed(log, day, s) then Track(Some(if t.open.Some? then t.open.value else day), Some(day), t.closed)
    else if t.open.Some? && t.lastSeen.Some?
      then Track(None, t.lastSeen, t.closed + [Interval(t.open.value, t.lastSeen.value)])
    else Track(None, t.lastSeen, t.closed)
  }

  /** The symbol's state after the first i days. */
  ghost function Follow(log: Log, days: seq<int>, s: string, i: nat): Track
    requires i <= |days|
  {
    if i == 0 then Track(None, None, []) else StepTrack(log, days[i - 1], s, Follow(log, days, s, i - 1))
  }

  /** iv spans the days a..b, all of which list the symbol, and cannot be extended to either side. */
  ghost predicate IsRun(log: Log, days: seq<int>, s: string, iv: Interval, a: int, b: int) {
    && 0 <= a <= b < |days|
    && iv == Interval(days[a], days[b])
    && (forall k :: a <= k <= b ==> Listed(log, days[k], s))
    && (a > 0 ==> !Listed(log, days[a - 1], s))
    && (b + 1 < |days| ==> !Listed(log, days[b + 1], s))
  }

  ghost predicate MaximalRun(log: Log, days: seq<int>, s: string, iv: Interval) {
    exists a, b :: IsRun(log, days, s, iv, a, b)
  }

  ghost predicate MaximalRuns(log: Log, days: seq<int>, s: string, ivs: seq<Interval>) {
    && (forall k :: 0 <= k < |ivs| ==> MaximalRun(log, days, s, ivs[k]))
    && (forall j, k :: 0 <= j < k < |ivs| ==> ivs[j].last < ivs[k].first)
  }

  /** A spell is running after i days exactly when day i-1 lists the symbol; it began at an unlisted edge. */
  ghost predicate OpenSpell(log: Log, days: seq<int>, s: string, i: nat, t: Track, a: int)
    requires i <= |days|
  {
    && 0 <= a < i
    && t.open == Some(days[a]) && t.lastSeen == Some(days[i - 1])
    && (forall k :: a <= k < i ==> Listed(log, days[k], s))
    && (a > 0 ==> !Listed(log, days[a - 1], s))
    && (forall k :: 0 <= k < |t.closed| ==> t.closed[k].last < days[a])
  }

  ghost predicate Sound(log: Log, days: seq<int>, s: string, i: nat, t: Track)
    requires i <= |days|
  {
    && (t.open.Some? <==> i > 0 && Listed(log, days[i - 1], s))
    && (t.open.Some? ==> exists a :: OpenSpell(log, days, s, i, t, a))
    && MaximalRuns(log, days, s, t.closed)
    && (forall k :: 0 <= k < |t.closed| ==> exists b :: 0 <= b < i && t.closed[k].last == days[b])
  }

  lemma {:induction false} FollowIsSound(log: Log, days: seq<int>, s: string, i: nat)
    requires Ascending(days) && i <= |days|
    ensures Sound(log, days, s, i, Follow(log, days, s, i))
  {
    if i > 0 {
      FollowIsSound(log, days, s, i - 1);
      var t := Follow(log, days, s, i - 1);
      if Listed(log, days[i - 1], s) {
        SeeingIsSound(log, days, s, i, t);
      } else {
        MissingIsSound(log, days, s, i, t);
      }
    }
  }

  lemma SeeingIsSound(log: Log, days: seq<int>, s: string, i: nat, t: Track)
    requires Ascending(days) && 0 < i <= |days| && Sound(log, days, s, i - 1, t) && Listed(log, days[i - 1], s)
    ensures Sound(log, days, s, i, StepTrack(log, days[i - 1], s, t))
  {
    var a := i - 1;
    if t.open.Some? { a :| OpenSpell(log, days, s, i - 1, t, a); }
    assert OpenSpell(log, days, s, i, StepTrack(log, days[i - 1], s, t), a);
  }

  lemma MissingIsSound(log: Log, days: seq<int>, s: string, i: nat, t: Track)
    requires Ascending(days) && 0 < i <= |days| && Sound(log, days, s, i - 1, t) && !Listed(log, days[i - 1], s)
    ensures Sound(log, days, s, i, StepTrack(log, days[i - 1], s, t))
  {
    if t.open.Some? {
      var a :| OpenSpell(log, days, s, i - 1, t, a);
      assert IsRun(log, days, s, Interval(days[a], days[i - 2]), a, i - 2);
    }
  }

  /** A day is spanned when it lists the symbol, or lies between two consecutive logged days that both do. */
  ghost predicate SpannedAt(log: Log, days: seq<int>, s: string, day: int, j: int) {
    && 0 <= j < |days|
    && Listed(log, days[j], s)
    && (days[j] == day || (j + 1 < |days| && days[j] < day < days[j + 1] && Listed(log, days[j + 1], s)))
  }

  ghost predicate Spanned(log: Log, days: seq<int>, s: string, day: int) {
    exists j :: SpannedAt(log, days, s, day, j)
  }

  ghost predicate InSpell(t: Track, day: int) {
    Covers(t.closed, day) || (t.open.Some? && t.lastSeen.Some? && t.open.value <= day <= t.lastSeen.value)
  }

  lemma SpannedBySoFar(log: Log, days: seq<int>, s: string, day: int, i: nat)
    requires 0 < i <= |days|
    ensures Spanned(log, days[..i], s, day) <==>
              || Spanned(log, days[..i - 1], s, day)
              || (Listed(log, days[i - 1], s)
                  && (day == days[i - 1]
                      || (i > 1 && days[i - 2] < day < days[i - 1] && Listed(log, days[i - 2], s))))
  {
    var now, before := days[..i], days[..i - 1];
    if j :| SpannedAt(log, before, s, day, j) { assert SpannedAt(log, now, s, day, j); }
    if Listed(log, days[i - 1], s) {
      if day == days[i - 1] { assert SpannedAt(log, now, s, day, i - 1); }
      if i > 1 && days[i - 2] < day < days[i - 1] && Listed(log, days[i - 2], s) {
        assert SpannedAt(log, now, s, day, i - 2);
      }
    }
    if j :| SpannedAt(log, now, s, day, j) {
      if j < i - 2 || (j == i - 2 && days[j] == day) { assert SpannedAt(log, before, s, day, j); }
    }
  }

  /** The spells of the pass hold exactly the spanned days. */
  lemma {:induction false} SpellsAreSpans(log: Log, days: seq<int>, s: string, i: nat, day: int)
    requires Ascending(days) && i <= |days|
    ensures InSpell(Follow(log, days, s, i), day) <==> Spanned(log, days[..i], s, day)
  {
    if i > 0 {
      SpellsAreSpans(log, days, s, i - 1, day);
      FollowIsSound(log, days, s, i - 1);
      SpannedBySoFar(log, days, s, day, i);
      var t := Follow(log, days, s, i - 1);
      if t.open.Some? {
        var a :| OpenSpell(log, days, s, i - 1, t, a);
        CoversAppend(t.closed, Interval(t.open.value, t.lastSeen.value), day);
      }
    }
  }

  // ----- the pass itself

  ghost predicate Agrees(openSince: map<string, int>, lastSeen: map<string, int>, intervals: IntervalMap, s: string,
    t: Track) {
    && Get(intervals, s) == t.closed
    && (if s in openSince then t.open == Some(openSince[s]) else t.open == None)
    && (if s in lastSeen then t.lastSeen == Some(lastSeen[s]) else t.lastSeen == None)
  }

  /** Closes the open spells of the given symbols at the day each was last seen. */
  method CloseSpells(symbols: set<string>, openSince: map<string, int>, lastSeen: map<string, int>,
    intervals: IntervalMap)
    returns (stillOpen: map<string, int>, closed: IntervalMap)
    requires symbols <= openSince.Keys <= lastSeen.Keys && NoEmptyEntries(intervals)
    ensures stillOpen == openSince - symbols && NoEmptyEntries(closed)
    ensures forall s :: Get(closed, s) ==
              if s in symbols then Get(intervals, s) + [Interval(openSince[s], lastSeen[s])] else Get(intervals, s)
  {
    stillOpen, closed := openSince, intervals;
    var pending := symbols;
    while pending != {}
      invariant pending <= symbols && NoEmptyEntries(closed)
      invariant stillOpen == openSince - (symbols - pending)
      invariant forall s :: Get(closed, s) ==
                  if s in symbols - pending then Get(intervals, s) + [Interval(openSince[s], lastSeen[s])]
                    else Get(intervals, s)
    {
      var s :| s in pending;
      closed := Append(closed, s, Interval(openSince[s], lastSeen[s]));
      stillOpen := stillOpen - {s};
      pending := pending - {s};
    }
  }

  /** Records the symbols of one snapshot as seen, opening a spell for those without one. */
  method SeeSymbols(day: int, present: set<string>, openSince: map<string, int>, lastSeen: map<string, int>)
    returns (openNext: map<string, int>, seen: map<string, int>)
    ensures openNext.Keys == openSince.Keys + present && seen.Keys == lastSeen.Keys + present
    ensures forall s :: s in openNext ==> openNext[s] == if s in openSince then openSince[s] else day
    ensures forall s :: s in seen ==> seen[s] == if s in present then day else lastSeen[s]
  {
    openNext, seen := openSince, lastSeen;
    var pending := present;
    while pending != {}
      invariant pending <= present
      invariant openNext.Keys == openSince.Keys + (present - pending)
        && seen.Keys == lastSeen.Keys + (present - pending)
      invariant forall s :: s in openNext ==> openNext[s] == if s in openSince then openSince[s] else day
      invariant forall s :: s in seen ==> seen[s] == if s in present - pending then day else lastSeen[s]
    {
      var s :| s in pending;
      if s !in openNext { openNext := openNext[s := day]; }
      seen := seen[s := day];
      pending := pending - {s};
    }
  }

  /** A day known to have no snapshot closes every open spell. */
  method MissDay(log: Log, day: int, openSince: map<string, int>, lastSeen: map<string, int>, intervals: IntervalMap)
    returns (openNext: map<string, int>, next: IntervalMap)
    requires day in log && log[day].None? && openSince.Keys <= lastSeen.Keys && NoEmptyEntries(intervals)
    ensures openNext == map[] && NoEmptyEntries(next)
    ensures forall s, t :: Agrees(openSince, lastSeen, intervals, s, t) ==>
              Agrees(openNext, lastSeen, next, s, StepTrack(log, day, s, t))
  {
    openNext, next := CloseSpells(openSince.Keys, openSince, lastSeen, intervals);
  }

  /** A snapshot opens and extends the spells of the symbols it lists and closes the others. */
  method SeeDay(log: Log, day: int, openSince: map<string, int>, lastSeen: map<string, int>, intervals: IntervalMap)
    returns (openNext: map<string, int>, seen: map<string, int>, next: IntervalMap)
    requires day in log && log[day].Some? && openSince.Keys <= lastSeen.Keys && NoEmptyEntries(intervals)
    ensures openNext.Keys <= seen.Keys && NoEmptyEntries(next)
    ensures forall s, t :: Agrees(openSince, lastSeen, intervals, s, t) ==>
              Agrees(openNext, seen, next, s, StepTrack(log, day, s, t))
  {
    var present := set s | s in log[day].value;
    openNext, seen := SeeSymbols(day, present, openSince, lastSeen);
    ghost var withNew := openNext;
    openNext, next := CloseSpells(openNext.Keys - present, openNext, seen, intervals);
    forall s, t | Agrees(openSince, lastSeen, intervals, s, t)
      ensures Agrees(openNext, seen, next, s, StepTrack(log, day, s, t))
    {
      if s in present {
        assert s in withNew && s !in withNew.Keys - present && seen[s] == day;
      } else {
        assert !Listed(log, day, s);
      }
    }
  }

  method StepDay(log: Log, day: int, openSince: map<string, int>, lastSeen: map<string, int>, intervals: IntervalMap)
    returns (openNext: map<string, int>, seen: map<string, int>, next: IntervalMap)
    requires day in log && openSince.Keys <= lastSeen.Keys && NoEmptyEntries(intervals)
    ensures openNext.Keys <= seen.Keys && NoEmptyEntries(next)
    ensures forall s, t :: Agrees(openSince, lastSeen, intervals, s, t) ==>
              Agrees(openNext, seen, next, s, StepTrack(log, day, s, t))
  {
    if log[day].None? {
      seen := lastSeen;
      openNext, next := MissDay(log, day, openSince, lastSeen, intervals);
    } else {
      openNext, seen, next := SeeDay(log, day, openSince, lastSeen, intervals);
    }
  }

  /**
   * The intervals are the symbol's maximal runs, disjoint and in order, and hold exactly the days spanned by
   * the log.
   */
  ghost predicate MeansSpans(log: Log, days: seq<int>, s: string, ivs: seq<Interval>) {
    && MaximalRuns(log, days, s, ivs)
    && forall d :: Covers(ivs, d) <==> Spanned(log, days, s, d)
  }

  method ReconstructIntervals(log: Log) returns (intervals: IntervalMap, ghost days: seq<int>)
    ensures Ascending(days) && forall d :: d in days <==> d in log
    ensures NoEmptyEntries(intervals)
    ensures forall s :: MeansSpans(log, days, s, Get(intervals, s))
  {
    var ordered := SortedDays(log);
    days := ordered;
    var openSince: map<string, int>, lastSeen: map<string, int> := map[], map[];
    intervals := map[];
    for i := 0 to |ordered|
      invariant openSince.Keys <= lastSeen.Keys && NoEmptyEntries(intervals)
      invariant forall s :: Agrees(openSince, lastSeen, intervals, s, Follow(log, ordered, s, i))
    {
      assert ordered[i] in ordered;
      openSince, lastSeen, intervals := StepDay(log, ordered[i], openSince, lastSeen, intervals);
    }
    ghost var before := intervals;
    openSince, intervals := CloseSpells(openSince.Keys, openSince, lastSeen, intervals);
    forall s ensures MeansSpans(log, days, s, Get(intervals, s)) {
      FinishedIsSpans(log, days, s);
    }
  }

  ghost function Finished(t: Track): seq<Interval> {
    if t.open.Some? && t.lastSeen.Some? then t.closed + [Interval(t.open.value, t.lastSeen.value)] else t.closed
  }

  lemma FinishedIsSpans(log: Log, days: seq<int>, s: string)
    requires Ascending(days)
    ensures MeansSpans(log, days, s, Finished(Follow(log, days, s, |days|)))
  {
    var n := |days|;
    var t := Follow(log, days, s, n);
    FollowIsSound(log, days, s, n);
    if t.open.Some? {
      var a :| OpenSpell(log, days, s, n, t, a);
      assert IsRun(log, days, s, Interval(days[a], days[n - 1]), a, n - 1);
    }
    forall d ensures Covers(Finished(t), d) <==> Spanned(log, days, s, d) {
      SpellsAreSpans(log, days, s, n, d);
      assert days[..n] == days;
      if t.open.Some? { CoversAppend(t.closed, Interval(t.open.value, t.lastSeen.value), d); }
    }
  }

  // ----- what the intervals say about single days

  ghost predicate CoversListed(intervals: IntervalMap, log: Log) {
    forall s, d :: Covers(Get(intervals, s), d) <==> Listed(log, d, s)
  }

  ghost predicate Straddles(log: Log, days: seq<int>, j: int, s: string)
    requires 0 <= j < |days| - 1
  {
    Listed(log, days[j], s) && Listed(log, days[j + 1], s)
  }

  /** No symbol is listed on both sides of a calendar day that the log does not mention. */
  ghost predicate NoBridgedGap(log: Log, days: seq<int>) {
    forall j, s :: 0 <= j < |days| - 1 && Straddles(log, days, j, s) ==> days[j + 1] == days[j] + 1
  }

  /** The log has an entry for every calendar day of its range. */
  ghost predicate EveryDayLogged(days: seq<int>) {
    forall j :: 0 <= j < |days| - 1 ==> days[j + 1] == days[j] + 1
  }

  /** A logged day is spanned exactly when it lists the symbol: gaps and absences are never bridged. */
  lemma LoggedDaySpan(log: Log, days: seq<int>, s: string, d: int)
    requires Ascending(days) && (forall x :: x in days <==> x in log) && d in log
    ensures Spanned(log, days, s, d) <==> Listed(log, d, s)
  {
    assert d in days;
    var k :| 0 <= k < |days| && days[k] == d;
    if Listed(log, d, s) { assert SpannedAt(log, days, s, d, k); }
  }

  lemma UnloggedDaySpan(log: Log, days: seq<int>, s: string, d: int)
    requires Ascending(days) && (forall x :: x in days <==> x in log) && d !in log && NoBridgedGap(log, days)
    ensures !Spanned(log, days, s, d)
  {
    if j :| SpannedAt(log, days, s, d, j) {
      assert days[j] in days;
      assert Straddles(log, days, j, s);
    }
  }

  /**
   * The intervals cover a day exactly when that day was snapshotted and listed the symbol - for all
   * symbols and days, if and only if no symbol straddles an unlogged day.
   */
  lemma CoverageIsListingIffNoBridgedGap(log: Log, days: seq<int>, intervals: IntervalMap)
    requires Ascending(days) && forall x :: x in days <==> x in log
    requires forall s :: MeansSpans(log, days, s, Get(intervals, s))
    ensures CoversListed(intervals, log) <==> NoBridgedGap(log, days)
  {
    if NoBridgedGap(log, days) {
      forall s, d ensures Covers(Get(intervals, s), d) <==> Listed(log, d, s) {
        if d in log { LoggedDaySpan(log, days, s, d); } else { UnloggedDaySpan(log, days, s, d); }
      }
    } else {
      var j, s :| 0 <= j < |days| - 1 && Straddles(log, days, j, s) && days[j + 1] != days[j] + 1;
      var d := days[j] + 1;
      assert SpannedAt(log, days, s, d, j);
      assert d !in days;
      assert Covers(Get(intervals, s), d) && !Listed(log, d, s);
    }
  }

  lemma EveryDayLoggedHasNoGap(log: Log, days: seq<int>)
    requires EveryDayLogged(days)
    ensures NoBridgedGap(log, days)
  {
  }

  ghost function ListedIn(log: Log): Observation -> bool {
    (row: Observation) => Listed(log, row.day, row.symbol)
  }

  /** With every calendar day logged, the rows some interval covers are the snapshotted rows. */
  lemma CoveredRowsAreListed(log: Log, days: seq<int>, intervals: IntervalMap, panel: seq<Observation>)
    requires Ascending(days) && EveryDayLogged(days) && forall x :: x in days <==> x in log
    requires forall s :: MeansSpans(log, days, s, Get(intervals, s))
    ensures Filter(panel, KeptBy(intervals)) == Filter(panel, ListedIn(log))
  {
    EveryDayLoggedHasNoGap(log, days);
    CoverageIsListingIffNoBridgedGap(log, days, intervals);
    FilterCongruent(panel, KeptBy(intervals), ListedIn(log));
  }

  lemma EntryMeansListed(log: Log, days: seq<int>, intervals: IntervalMap, s: string)
    requires NoEmptyEntries(intervals) && s in intervals && MaximalRuns(log, days, s, Get(intervals, s))
    ensures exists d :: Listed(log, d, s)
  {
    var iv := Get(intervals, s)[0];
    assert MaximalRun(log, days, s, iv);
    var a, b :| IsRun(log, days, s, iv, a, b);
    assert Listed(log, days[a], s);
  }

  /** The interval map is empty - and so the mask keeps everything - exactly when no snapshot lists anything. */
  lemma EmptyMapMeansNothingListed(log: Log, days: seq<int>, intervals: IntervalMap)
    requires Ascending(days) && NoEmptyEntries(intervals) && forall x :: x in days <==> x in log
    requires forall s :: MeansSpans(log, days, s, Get(intervals, s))
    ensures |intervals| == 0 <==> forall s, d :: !Listed(log, d, s)
  {
    if s, d :| Listed(log, d, s) {
      LoggedDaySpan(log, days, s, d);
      assert MeansSpans(log, days, s, Get(intervals, s));
      assert s in intervals;
    }
    if |intervals| != 0 {
      var s :| s in intervals;
      EntryMeansListed(log, days, intervals, s);
    }
  }

  ghost predicate SomethingListed(log: Log) { exists s, d :: Listed(log, d, s) }

  /**
   * With every calendar day logged, what the mask returns is exactly the snapshotted rows of the panel -
   * unless no snapshot lists anything: then the interval map is empty and the mask lets every row pass.
   */
  lemma MaskKeepsSnapshotsIff(log: Log, days: seq<int>, intervals: IntervalMap, panel: seq<Observation>,
                              rows: seq<Observation>)
    requires Ascending(days) && EveryDayLogged(days) && forall x :: x in days <==> x in log
    requires NoEmptyEntries(intervals) && forall s :: MeansSpans(log, days, s, Get(intervals, s))
    requires IsMasked(panel, Some(intervals), rows)
    ensures rows == Filter(panel, ListedIn(log)) <==> panel == [] || SomethingListed(log)
  {
    EmptyMapMeansNothingListed(log, days, intervals);
    if SomethingListed(log) {
      CoveredRowsAreListed(log, days, intervals, panel);
    } else {
      FilterRejects(panel, ListedIn(log));
    }
  }

  /** Whatever the panel, the mask returns exactly its snapshotted rows. */
  ghost predicate MaskIsExact(intervals: IntervalMap, log: Log) {
    forall panel, rows :: IsMasked(panel, Some(intervals), rows) ==> rows == Filter(panel, ListedIn(log))
  }

  /**
   * For any log at all: the mask is exact on every panel if and only if no symbol straddles an unlogged day
   * and some snapshot lists something.
   */
  lemma MaskIsExactIff(log: Log, days: seq<int>, intervals: IntervalMap)
    requires Ascending(days) && forall x :: x in days <==> x in log
    requires NoEmptyEntries(intervals) && forall s :: MeansSpans(log, days, s, Get(intervals, s))
    ensures MaskIsExact(intervals, log) <==> NoBridgedGap(log, days) && SomethingListed(log)
  {
    EmptyMapMeansNothingListed(log, days, intervals);
    CoverageIsListingIffNoBridgedGap(log, days, intervals);
    if !SomethingListed(log) {
      NothingListedIsInexact(log, intervals);
    } else if CoversListed(intervals, log) {
      CoveringIsExact(log, intervals);
    } else {
      BridgingIsInexact(log, intervals);
    }
  }

  lemma NothingListedIsInexact(log: Log, intervals: IntervalMap)
    requires !SomethingListed(log) && |intervals| == 0
    ensures !MaskIsExact(intervals, log)
  {
    var row := Observation(0, "", 0.0);
    assert !Listed(log, row.day, row.symbol);
    FilterOne(row, ListedIn(log));
    assert IsMasked([row], Some(intervals), [row]);
  }

  lemma CoveringIsExact(log: Log, intervals: IntervalMap)
    requires CoversListed(intervals, log) && |intervals| > 0
    ensures MaskIsExact(intervals, log)
  {
    forall panel, rows | IsMasked(panel, Some(intervals), rows) ensures rows == Filter(panel, ListedIn(log)) {
      FilterCongruent(panel, KeptBy(intervals), ListedIn(log));
    }
  }

  lemma BridgingIsInexact(log: Log, intervals: IntervalMap)
    requires !CoversListed(intervals, log) && |intervals| > 0
    ensures !MaskIsExact(intervals, log)
  {
    var s, d :| Covers(Get(intervals, s), d) != Listed(log, d, s);
    var row := Observation(d, s, 0.0);
    FilterOne(row, KeptBy(intervals));
    FilterOne(row, ListedIn(log));
    assert IsMasked([row], Some(intervals), Filter([row], KeptBy(intervals)));
  }

  /** A log whose only snapshot lists nothing switches the mask off: a row it never listed stays in. */
  lemma EmptySnapshotMasksNothing(row: Observation, intervals: IntervalMap, rows: seq<Observation>)
    requires NoEmptyEntries(intervals) && forall s :: MeansSpans(map[0 := Some([])], [0], s, Get(intervals, s))
    requires IsMasked([row], Some(intervals), rows)
    ensures rows == [row] && Filter([row], ListedIn(map[0 := Some([])])) == []
  {
    var log: Log := map[0 := Some([])];
    EmptyMapMeansNothingListed(log, [0], intervals);
    FilterRejects([row], ListedIn(log));
  }

  /** A symbol listed on two days that enclose a day missing from the log is taken to be there on that day too. */
  lemma UnmentionedDayIsBridged(intervals: IntervalMap)
    requires forall s :: MeansSpans(map[0 := Some(["A"]), 2 := Some(["A"])], [0, 2], s, Get(intervals, s))
    ensures Covers(Get(intervals, "A"), 1) && !Listed(map[0 := Some(["A"]), 2 := Some(["A"])], 1, "A")
  {
    var log: Log := map[0 := Some(["A"]), 2 := Some(["A"])];
    assert SpannedAt(log, [0, 2], "A", 1, 0);
    assert MeansSpans(log, [0, 2], "A", Get(intervals, "A"));
  }
}
