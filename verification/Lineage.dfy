/** Lineage of a run: the walk up the parent pointers, and the listing of every descendant. */
module Lineage {
  import opened Wrappers
  import opened Collections
  import opened Forests

  // The walk up must survive cycles, since nothing rules them out in the index.  The listing uses an explicit
  // stack and is compared with the depth-first listing of Forests.

  /** parent is empty for a run without one; createdAt orders runs as their creation stamps do. */
  datatype Record = Record(runId: string, parent: string, createdAt: int)

  ghost predicate DistinctIds(records: seq<Record>) {
    forall i, j :: 0 <= i < j < |records| ==> records[i].runId != records[j].runId
  }

  /** records_by_id.get(id) */
  function Find(records: seq<Record>, id: string): (r: Option<Record>)
    ensures r.Some? ==> r.value in records && r.value.runId == id
    ensures r.None? ==> forall x :: x in records ==> x.runId != id
  {
    if |records| == 0 then None
    else if records[0].runId == id then Some(records[0])
    else Find(records[1..], id)
  }

  lemma IdIdentifies(records: seq<Record>, x: Record, y: Record)
    requires DistinctIds(records) && x in records && y in records && x.runId == y.runId
    ensures x == y
  {
    var i :| 0 <= i < |records| && records[i] == x;
    var j :| 0 <= j < |records| && records[j] == y;
    assert !(i < j) && !(j < i);
  }

  predicate IsParent(p: Record, r: Record) { r.parent != "" && r.parent == p.runId }

  // ----- the chain to the root

  /** From the top down to r: each record is the parent of the next, and no run occurs twice. */
  ghost predicate IsPathDownTo(records: seq<Record>, chain: seq<Record>, r: Record) {
    && |chain| > 0 && chain[|chain| - 1] == r
    && (forall i :: 0 <= i < |chain| ==> chain[i] in records)
    && (forall i, j :: 0 <= i < j < |chain| && j == i + 1 ==> IsParent(chain[i], chain[j]))
    && Distinct(chain)
  }

  /** The top record points back into the chain. */
  ghost predicate EndsInRepeat(chain: seq<Record>)
    requires |chain| > 0
  {
    chain[0].parent != "" && exists i :: 0 <= i < |chain| && chain[i].runId == chain[0].parent
  }

  /** The chain cannot be extended, and missing names the parent that could not be found, if any. */
  ghost predicate IsComplete(records: seq<Record>, chain: seq<Record>, missing: Option<string>)
    requires |chain| > 0
  {
    match missing
    case Some(id) => id != "" && chain[0].parent == id && Find(records, id).None?
    case None => chain[0].parent == "" || EndsInRepeat(chain)
  }

  function Reversed<T>(s: seq<T>): (r: seq<T>)
    ensures |r| == |s| && forall i :: 0 <= i < |s| ==> r[i] == s[|s| - 1 - i]
  {
    if |s| == 0 then [] else Reversed(s[1..]) + [s[0]]
  }

  function IdsOf(s: seq<Record>): (ids: set<string>)
    ensures forall r :: r in s ==> r.runId in ids
    ensures forall id :: id in ids ==> exists i :: 0 <= i < |s| && s[i].runId == id
  {
    if |s| == 0 then {} else
      assert s == s[..|s| - 1] + [s[|s| - 1]];
      IdsOf(s[..|s| - 1]) + {s[|s| - 1].runId}
  }

  ghost predicate LinkedUpward(upward: seq<Record>) {
    forall i, j :: 0 <= i < j < |upward| && j == i + 1 ==> IsParent(upward[j], upward[i])
  }

  lemma LinksExtend(upward: seq<Record>, parent: Record)
    requires LinkedUpward(upward) && |upward| > 0 && IsParent(parent, upward[|upward| - 1])
    ensures LinkedUpward(upward + [parent])
  {
  }

  /** The walk so far, from r upward. */
  ghost predicate IsClimb(records: seq<Record>, upward: seq<Record>, r: Record) {
    && |upward| > 0 && upward[0] == r
    && (forall i :: 0 <= i < |upward| ==> upward[i] in records)
    && LinkedUpward(upward) && Distinct(upward)
  }

  lemma ClimbOneStep(records: seq<Record>, upward: seq<Record>, r: Record, parent: Record)
    requires IsClimb(records, upward, r) && parent in records && parent.runId !in IdsOf(upward)
    requires IsParent(parent, upward[|upward| - 1])
    ensures IsClimb(records, upward + [parent], r)
    ensures IdsOf(upward + [parent]) == IdsOf(upward) + {parent.runId}
    ensures |upward| < |records|
  {
    var longer := upward + [parent];
    IdsOfExtended(upward, parent);
    DistinctConcat(upward, [parent]);
    LinksExtend(upward, parent);
    DistinctWithin(longer, records);
  }

  lemma IdsOfExtended(s: seq<Record>, r: Record)
    ensures IdsOf(s + [r]) == IdsOf(s) + {r.runId}
  {
    assert (s + [r])[..|s|] == s;
  }

  method ChainToRoot(record: Record, records: seq<Record>) returns (chain: seq<Record>, missing: Option<string>)
    requires DistinctIds(records) && record in records
    ensures IsPathDownTo(records, chain, record)
    ensures IsComplete(records, chain, missing)
  {
    var upward, seen, current := [record], {record.runId}, record;
    missing := None;
    DistinctWithin(upward, records);
    while current.parent != ""
      invariant IsClimb(records, upward, record) && current == upward[|upward| - 1]
      invariant seen == IdsOf(upward)
      invariant missing == None
      decreases |records| - |upward|
    {
      var parent := Find(records, current.parent);
      if parent.None? {
        missing := Some(current.parent);
        break;
      }
      if parent.value.runId in seen { break; }
      ClimbOneStep(records, upward, record, parent.value);
      upward := upward + [parent.value];
      seen := seen + {parent.value.runId};
      current := parent.value;
    }
    chain := Reversed(upward);
    TurnAround(records, upward, chain, record);
    if missing.None? && current.parent != "" { RepeatIsSeen(upward, chain); }
  }

  lemma RepeatIsSeen(upward: seq<Record>, chain: seq<Record>)
    requires |upward| > 0 && chain == Reversed(upward)
    requires upward[|upward| - 1].parent != "" && upward[|upward| - 1].parent in IdsOf(upward)
    ensures EndsInRepeat(chain)
  {
    var i :| 0 <= i < |upward| && upward[i].runId == upward[|upward| - 1].parent;
    assert chain[|upward| - 1 - i] == upward[i];
  }

  lemma DistinctWithin<T(!new)>(s: seq<T>, all: seq<T>)
    requires Distinct(s) && forall i :: 0 <= i < |s| ==> s[i] in all
    ensures |s| <= |all|
  {
    DistinctCount(s);
    SubsetCardinality(Elements(s), Elements(all));
    ElementsBound(all);
  }

  lemma TurnAround(records: seq<Record>, upward: seq<Record>, chain: seq<Record>, record: Record)
    requires IsClimb(records, upward, record) && chain == Reversed(upward)
    ensures IsPathDownTo(records, chain, record) && chain[0] == upward[|upward| - 1]
  {
    forall i, j | 0 <= i < j < |chain| && j == i + 1 ensures IsParent(chain[i], chain[j]) {
      var k := |upward| - 1 - j;
      assert upward[k + 1] == chain[i] && upward[k] == chain[j];
    }
  }

  /** The two conditions leave no choice: a record has exactly one such chain, and one verdict on it. */
  lemma ChainIsUnique(records: seq<Record>, r: Record, c: seq<Record>, m: Option<string>, d: seq<Record>,
    k: Option<string>)
    requires DistinctIds(records)
    requires IsPathDownTo(records, c, r) && IsComplete(records, c, m)
    requires IsPathDownTo(records, d, r) && IsComplete(records, d, k)
    ensures c == d && m == k
  {
    CompleteStops(records, r, c, m, d);
    CompleteStops(records, r, d, k, c);
    forall i | 0 <= i < |c| ensures c[i] == d[i] {
      ChainsAgreeAt(records, r, c, d, |c| - 1 - i);
    }
    assert c == d;
    VerdictIsUnique(records, r, c, m, k);
  }

  lemma VerdictIsUnique(records: seq<Record>, r: Record, c: seq<Record>, m: Option<string>, k: Option<string>)
    requires IsPathDownTo(records, c, r) && IsComplete(records, c, m) && IsComplete(records, c, k)
    ensures m == k
  {
    if EndsInRepeat(c) {
      var j :| 0 <= j < |c| && c[j].runId == c[0].parent;
      assert c[j] in records;
    }
  }

  lemma {:induction false} ChainsAgreeAt(records: seq<Record>, r: Record, c: seq<Record>, d: seq<Record>, i: nat)
    requires DistinctIds(records) && IsPathDownTo(records, c, r) && IsPathDownTo(records, d, r)
    requires i < |c| && i < |d|
    ensures c[|c| - 1 - i] == d[|d| - 1 - i]
  {
    if i != 0 {
      ChainsAgreeAt(records, r, c, d, i - 1);
      var p, q := |c| - 1 - i, |d| - 1 - i;
      assert IsParent(c[p], c[p + 1]) && IsParent(d[q], d[q + 1]);
      IdIdentifies(records, c[p], d[q]);
    }
  }

  /** A complete chain is not a proper part of another one. */
  lemma CompleteStops(records: seq<Record>, r: Record, c: seq<Record>, m: Option<string>, d: seq<Record>)
    requires DistinctIds(records) && IsPathDownTo(records, c, r) && IsComplete(records, c, m)
    requires IsPathDownTo(records, d, r)
    ensures |d| <= |c|
  {
    if |c| < |d| {
      ChainsAgreeAt(records, r, c, d, |c| - 1);
      var q := |d| - |c|;
      assert c[0] == d[q] && IsParent(d[q - 1], d[q]);
      assert EndsInRepeat(c);
      var j :| 0 <= j < |c| && c[j].runId == c[0].parent;
      ChainsAgreeAt(records, r, c, d, |c| - 1 - j);
    }
  }

  // ----- generations

  /** How many parents can be followed upward from r, counting at most n. */
  function Generation(records: seq<Record>, r: Record, n: nat): (g: nat)
    ensures g <= n
    decreases n
  {
    if n == 0 || r.parent == "" || Find(records, r.parent).None? then 0
    else 1 + Generation(records, Find(records, r.parent).value, n - 1)
  }

  function Depth(records: seq<Record>, r: Record): nat { Generation(records, r, |records|) }

  /** Exactly the chains that are cut at a repeat belong to records from which the parents never run out. */
  lemma RepeatMeansCycle(records: seq<Record>, r: Record, chain: seq<Record>, missing: Option<string>)
    requires DistinctIds(records) && IsPathDownTo(records, chain, r) && IsComplete(records, chain, missing)
    ensures Depth(records, r) < |records| <==> !EndsInRepeat(chain)
    ensures !EndsInRepeat(chain) ==> Depth(records, r) == |chain| - 1
  {
    DistinctWithin(chain, records);
    if EndsInRepeat(chain) {
      RepeatNeverEnds(records, r, chain, |chain| - 1, |records|);
    } else {
      ChainLength(records, r, chain, missing, |chain| - 1, |records|);
    }
  }

  lemma {:induction false} RepeatNeverEnds(records: seq<Record>, r: Record, chain: seq<Record>, i: nat, n: nat)
    requires DistinctIds(records) && IsPathDownTo(records, chain, r) && EndsInRepeat(chain) && i < |chain|
    ensures Generation(records, chain[i], n) == n
    decreases n
  {
    if n != 0 {
      var j := ParentWithin(records, r, chain, i);
      ParentIsFound(records, chain[j], chain[i]);
      RepeatNeverEnds(records, r, chain, j, n - 1);
    }
  }

  lemma ParentWithin(records: seq<Record>, r: Record, chain: seq<Record>, i: nat) returns (j: nat)
    requires IsPathDownTo(records, chain, r) && EndsInRepeat(chain) && i < |chain|
    ensures j < |chain| && IsParent(chain[j], chain[i])
  {
    if i == 0 {
      j :| 0 <= j < |chain| && chain[j].runId == chain[0].parent;
    } else {
      j := i - 1;
      assert IsParent(chain[j], chain[j + 1]);
    }
  }

  lemma ParentIsFound(records: seq<Record>, p: Record, r: Record)
    requires DistinctIds(records) && p in records && IsParent(p, r)
    ensures Find(records, r.parent) == Some(p)
  {
    var found := Find(records, r.parent);
    assert found.Some?;
    IdIdentifies(records, found.value, p);
  }

  lemma {:induction false} ChainLength(records: seq<Record>, r: Record, chain: seq<Record>, missing: Option<string>,
    i: nat, n: nat)
    requires DistinctIds(records) && IsPathDownTo(records, chain, r) && IsComplete(records, chain, missing)
    requires !EndsInRepeat(chain) && i < |chain| && i <= n
    ensures Generation(records, chain[i], n) == i
  {
    if i != 0 {
      assert IsParent(chain[i - 1], chain[i]);
      ParentIsFound(records, chain[i - 1], chain[i]);
      ChainLength(records, r, chain, missing, i - 1, n - 1);
    }
  }

  // ----- children in order of creation

  /** children_by_parent.get(id, []): in the order of the records. */
  function Children(records: seq<Record>, id: string): (c: seq<Record>)
    ensures forall r :: r in c <==> r in records && r.parent != "" && r.parent == id
  {
    if |records| == 0 then []
    else
      var last := |records| - 1;
      Children(records[..last], id) +
      if records[last].parent != "" && records[last].parent == id then [records[last]] else []
  }

  lemma {:induction false} ChildrenAreDistinct(records: seq<Record>, id: string)
    requires DistinctIds(records)
    ensures Distinct(Children(records, id))
  {
    if |records| != 0 { ChildrenAreDistinct(records[..|records| - 1], id); }
  }

  /** r goes after everything not created later. */
  function Placed(s: seq<Record>, r: Record): seq<Record> {
    if |s| == 0 || s[|s| - 1].createdAt <= r.createdAt then s + [r]
    else Placed(s[..|s| - 1], r) + [s[|s| - 1]]
  }

  /** sorted(s, key=created_at) */
  function Sorted(s: seq<Record>): seq<Record> {
    if |s| == 0 then [] else Placed(Sorted(s[..|s| - 1]), s[|s| - 1])
  }

  ghost predicate Chronological(s: seq<Record>) {
    forall i, j :: 0 <= i < j < |s| ==> s[i].createdAt <= s[j].createdAt
  }

  function CreatedAt(s: seq<Record>, t: int): seq<Record> {
    if |s| == 0 then []
    else CreatedAt(s[..|s| - 1], t) + if s[|s| - 1].createdAt == t then [s[|s| - 1]] else []
  }

  lemma {:induction false} PlacedMembers(s: seq<Record>, r: Record, x: Record)
    ensures x in Placed(s, r) <==> x in s || x == r
  {
    if |s| != 0 && s[|s| - 1].createdAt > r.createdAt {
      PlacedMembers(s[..|s| - 1], r, x);
      assert s == s[..|s| - 1] + [s[|s| - 1]];
    }
  }

  lemma {:induction false} SortedMembers(s: seq<Record>, x: Record)
    ensures x in Sorted(s) <==> x in s
  {
    if |s| != 0 {
      SortedMembers(s[..|s| - 1], x);
      PlacedMembers(Sorted(s[..|s| - 1]), s[|s| - 1], x);
      assert s == s[..|s| - 1] + [s[|s| - 1]];
    }
  }

  lemma {:induction false} PlacedIsChronological(s: seq<Record>, r: Record)
    requires Chronological(s)
    ensures Chronological(Placed(s, r))
    ensures forall x :: x in Placed(s, r) <==> x in s || x == r
  {
    forall x ensures x in Placed(s, r) <==> x in s || x == r { PlacedMembers(s, r, x); }
    if |s| != 0 && s[|s| - 1].createdAt > r.createdAt {
      var init, last := s[..|s| - 1], s[|s| - 1];
      PlacedIsChronological(init, r);
      forall i | 0 <= i < |Placed(init, r)| ensures Placed(init, r)[i].createdAt <= last.createdAt {
        assert Placed(init, r)[i] in Placed(init, r);
      }
    }
  }

  lemma {:induction false} PlacedIsStable(s: seq<Record>, r: Record, t: int)
    ensures CreatedAt(Placed(s, r), t) == CreatedAt(s, t) + if r.createdAt == t then [r] else []
  {
    if |s| == 0 || s[|s| - 1].createdAt <= r.createdAt {
      assert (s + [r])[..|s|] == s;
    } else {
      var init, last := s[..|s| - 1], s[|s| - 1];
      PlacedIsStable(init, r, t);
      assert (Placed(init, r) + [last])[..|Placed(init, r)|] == Placed(init, r);
    }
  }

  /** Sorting orders by creation and keeps the runs created at the same time in their order. */
  lemma {:induction false} SortedIsStable(s: seq<Record>)
    ensures Chronological(Sorted(s))
    ensures forall t :: CreatedAt(Sorted(s), t) == CreatedAt(s, t)
  {
    if |s| != 0 {
      var init, last := s[..|s| - 1], s[|s| - 1];
      SortedIsStable(init);
      PlacedIsChronological(Sorted(init), last);
      forall t ensures CreatedAt(Sorted(s), t) == CreatedAt(s, t) { PlacedIsStable(Sorted(init), last, t); }
    }
  }

  lemma {:induction false} PlacedIsDistinct(s: seq<Record>, r: Record)
    requires Distinct(s) && r !in s
    ensures Distinct(Placed(s, r))
  {
    if |s| != 0 && s[|s| - 1].createdAt > r.createdAt {
      var init, last := s[..|s| - 1], s[|s| - 1];
      PlacedIsDistinct(init, r);
      PlacedMembers(init, r, last);
      DistinctConcat(Placed(init, r), [last]);
    }
  }

  lemma {:induction false} SortedIsDistinct(s: seq<Record>)
    requires Distinct(s)
    ensures Distinct(Sorted(s))
  {
    if |s| != 0 {
      var init, last := s[..|s| - 1], s[|s| - 1];
      SortedIsDistinct(init);
      SortedMembers(init, last);
      PlacedIsDistinct(Sorted(init), last);
    }
  }

  function Offspring(records: seq<Record>, id: string): seq<Record> { Sorted(Children(records, id)) }

  lemma OffspringMembers(records: seq<Record>, id: string)
    ensures forall r :: r in Offspring(records, id) <==> r in records && r.parent != "" && r.parent == id
  {
    forall r ensures r in Offspring(records, id) <==> r in Children(records, id) {
      SortedMembers(Children(records, id), r);
    }
  }

  lemma OffspringIsDistinct(records: seq<Record>, id: string)
    requires DistinctIds(records)
    ensures Distinct(Offspring(records, id))
  {
    ChildrenAreDistinct(records, id);
    SortedIsDistinct(Children(records, id));
  }

  // ----- descendants

  /** r is k + 1 generations below the run id: following parents k + 1 times from r arrives there. */
  ghost predicate Descends(records: seq<Record>, id: string, r: Record, k: nat)
    decreases k
  {
    && r in records && r.parent != ""
    && if k == 0 then r.parent == id else exists p :: p in records && IsParent(p, r) && Descends(records, id, p, k - 1)
  }

  ghost predicate IsDescendant(records: seq<Record>, id: string, r: Record) {
    exists k: nat :: Descends(records, id, r, k)
  }

  ghost predicate IsChildOf(records: seq<Record>, id: string, c: Record) {
    c in records && c.parent != "" && c.parent == id
  }

  lemma {:induction false} DescendsFromTop(records: seq<Record>, id: string, r: Record, k: nat)
    ensures Descends(records, id, r, k + 1) <==>
              exists c :: IsChildOf(records, id, c) && Descends(records, c.runId, r, k)
    decreases k
  {
    if Descends(records, id, r, k + 1) {
      var p :| p in records && IsParent(p, r) && Descends(records, id, p, k);
      if k == 0 {
        assert IsChildOf(records, id, p) && Descends(records, p.runId, r, 0);
      } else {
        DescendsFromTop(records, id, p, k - 1);
        var c :| IsChildOf(records, id, c) && Descends(records, c.runId, p, k - 1);
        assert Descends(records, c.runId, r, k);
      }
    }
    if c :| IsChildOf(records, id, c) && Descends(records, c.runId, r, k) {
      if k == 0 {
        assert IsParent(c, r) && Descends(records, id, c, 0);
      } else {
        var p :| p in records && IsParent(p, r) && Descends(records, c.runId, p, k - 1);
        DescendsFromTop(records, id, p, k - 1);
        assert Descends(records, id, p, k);
      }
    }
  }

  /** kids gives each record its children. */
  ghost predicate GivesChildren(records: seq<Record>, kids: Record -> seq<Record>) {
    forall p, c :: c in kids(p) <==> IsChildOf(records, p.runId, c)
  }

  lemma KidsGiveChildren(records: seq<Record>)
    ensures GivesChildren(records, KidsOf(records))
  {
    forall p, c ensures c in KidsOf(records)(p) <==> IsChildOf(records, p.runId, c) {
      OffspringMembers(records, p.runId);
    }
  }

  lemma {:induction false} DownIsUp(records: seq<Record>, kids: Record -> seq<Record>, p: Record, r: Record, k: nat)
    requires GivesChildren(records, kids) && Beneath(kids, p, r, k)
    ensures Descends(records, p.runId, r, k)
    decreases k
  {
    if k != 0 {
      var c :| c in kids(p) && Beneath(kids, c, r, k - 1);
      DownIsUp(records, kids, c, r, k - 1);
      DescendsFromTop(records, p.runId, r, k - 1);
    }
  }

  lemma {:induction false} UpIsDown(records: seq<Record>, kids: Record -> seq<Record>, p: Record, r: Record, k: nat)
    requires GivesChildren(records, kids) && Descends(records, p.runId, r, k)
    ensures Beneath(kids, p, r, k)
    decreases k
  {
    if k != 0 {
      DescendsFromTop(records, p.runId, r, k - 1);
      var c :| IsChildOf(records, p.runId, c) && Descends(records, c.runId, r, k - 1);
      UpIsDown(records, kids, c, r, k - 1);
      assert c in kids(p);
    }
  }

  // ----- runs that are not their own descendants

  /** Following parents from the run comes back to it. */
  ghost predicate OnCycle(records: seq<Record>, id: string) {
    exists r :: IsDescendant(records, id, r) && r.runId == id
  }

  /** A record found at two different distances below a run puts the run below itself. */
  lemma {:induction false} TwoLevelsMakeCycle(records: seq<Record>, id: string, r: Record, k: nat, m: nat)
    requires DistinctIds(records) && Descends(records, id, r, k) && Descends(records, id, r, m) && k < m
    ensures OnCycle(records, id)
    decreases k
  {
    var q :| q in records && IsParent(q, r) && Descends(records, id, q, m - 1);
    if k == 0 {
      assert IsDescendant(records, id, q) && q.runId == id;
    } else {
      var p :| p in records && IsParent(p, r) && Descends(records, id, p, k - 1);
      IdIdentifies(records, p, q);
      TwoLevelsMakeCycle(records, id, p, k - 1, m - 1);
    }
  }

  /** A run off every cycle is a fixed number of generations above each of its descendants. */
  lemma LevelIsUnique(records: seq<Record>, id: string, r: Record, k: nat, m: nat)
    requires DistinctIds(records) && !OnCycle(records, id) && Descends(records, id, r, k) && Descends(records, id, r, m)
    ensures k == m
  {
    if k < m { TwoLevelsMakeCycle(records, id, r, k, m); }
    if m < k { TwoLevelsMakeCycle(records, id, r, m, k); }
  }

  /** The records passed on the way down, one a generation. */
  lemma {:induction false} WayDown(records: seq<Record>, id: string, r: Record, k: nat) returns (way: seq<Record>)
    requires Descends(records, id, r, k)
    ensures |way| == k + 1 && forall i :: 0 <= i < |way| ==> Descends(records, id, way[i], i)
    decreases k
  {
    if k == 0 {
      way := [r];
    } else {
      var p :| p in records && IsParent(p, r) && Descends(records, id, p, k - 1);
      way := WayDown(records, id, p, k - 1);
      way := way + [r];
    }
  }

  /** So no descendant is more generations below than there are records. */
  lemma LevelIsBounded(records: seq<Record>, id: string, r: Record, k: nat)
    requires DistinctIds(records) && !OnCycle(records, id) && Descends(records, id, r, k)
    ensures k < |records|
  {
    var way := WayDown(records, id, r, k);
    forall i, j | 0 <= i < j < |way| ensures way[i] != way[j] {
      if way[i] == way[j] { LevelIsUnique(records, id, way[i], i, j); }
    }
    DistinctWithin(way, records);
  }

  ghost function Level(records: seq<Record>, id: string, r: Record): nat {
    if k: nat :| Descends(records, id, r, k) then k else 0
  }

  lemma LevelIs(records: seq<Record>, id: string, r: Record, k: nat)
    requires DistinctIds(records) && !OnCycle(records, id) && Descends(records, id, r, k)
    ensures Level(records, id, r) == k < |records|
  {
    var m: nat := Level(records, id, r);
    assert Descends(records, id, r, m);
    LevelIsUnique(records, id, r, k, m);
    LevelIsBounded(records, id, r, k);
  }

  function KidsOf(records: seq<Record>): Record -> seq<Record> { (r: Record) => Offspring(records, r.runId) }

  ghost function DescendantSet(records: seq<Record>, id: string): set<Record> {
    set r | r in records && IsDescendant(records, id, r)
  }

  /** A run's descendants as a hierarchy, sound when the run is off every cycle. */
  ghost function Family(records: seq<Record>, id: string): Hierarchy<Record> {
    Hierarchy(DescendantSet(records, id), KidsOf(records), (r: Record) => Level(records, id, r), |records|)
  }

  lemma FamilyIsSound(records: seq<Record>, id: string)
    requires DistinctIds(records) && !OnCycle(records, id)
    ensures Sound(Family(records, id))
  {
    var h := Family(records, id);
    forall p | p in h.nodes ensures NodeIsSound(h, p) { NodeIsSoundInFamily(records, id, p); }
    forall p, q, c | p in h.nodes && q in h.nodes && c in h.kids(p) && c in h.kids(q) ensures p == q {
      OffspringMembers(records, p.runId);
      OffspringMembers(records, q.runId);
      IdIdentifies(records, p, q);
    }
  }

  lemma ChildLevel(records: seq<Record>, id: string, p: Record, c: Record, k: nat)
    requires DistinctIds(records) && !OnCycle(records, id) && Descends(records, id, p, k)
    requires IsChildOf(records, p.runId, c)
    ensures c in DescendantSet(records, id) && Level(records, id, c) == k + 1
  {
    assert IsParent(p, c) && Descends(records, id, c, k + 1);
    LevelIs(records, id, c, k + 1);
  }

  lemma NodeIsSoundInFamily(records: seq<Record>, id: string, p: Record)
    requires DistinctIds(records) && !OnCycle(records, id) && IsDescendant(records, id, p)
    ensures NodeIsSound(Family(records, id), p)
  {
    var h := Family(records, id);
    var k: nat :| Descends(records, id, p, k);
    LevelIs(records, id, p, k);
    OffspringIsDistinct(records, p.runId);
    KidsGiveChildren(records);
    forall c | c in h.kids(p) ensures c in h.nodes && h.depth(c) == h.depth(p) + 1 { ChildLevel(records, id, p, c, k); }
  }

  /** The walk starts from nodes of the family that are all on its first level. */
  lemma OffspringIsFirstLevel(records: seq<Record>, id: string)
    requires DistinctIds(records) && !OnCycle(records, id)
    ensures SameDepth(Family(records, id), Offspring(records, id), 0)
    ensures Enough(Family(records, id), Offspring(records, id), |records|)
  {
    OffspringMembers(records, id);
    forall c | c in Offspring(records, id) ensures c in DescendantSet(records, id) && Level(records, id, c) == 0 {
      assert Descends(records, id, c, 0);
      LevelIs(records, id, c, 0);
    }
  }

  /** The depth-first listing of everything below a run. */
  function DescendantsOf(records: seq<Record>, id: string): seq<Record> {
    Forest(KidsOf(records), Offspring(records, id), |records|)
  }

  function Listed(childrenOf: map<string, seq<Record>>, id: string): seq<Record> {
    if id in childrenOf then childrenOf[id] else []
  }

  method GroupByParent(records: seq<Record>) returns (childrenOf: map<string, seq<Record>>)
    ensures forall id :: Listed(childrenOf, id) == Children(records, id)
  {
    childrenOf := map[];
    for i := 0 to |records|
      invariant forall id :: Listed(childrenOf, id) == Children(records[..i], id)
    {
      assert records[..i + 1][..i] == records[..i];
      var r := records[i];
      if r.parent != "" {
        childrenOf := childrenOf[r.parent := Listed(childrenOf, r.parent) + [r]];
      }
    }
    assert records[..|records|] == records;
  }

  /** What a stack of records still has to list. */
  ghost function Pending(records: seq<Record>, stack: seq<Record>): seq<Record> {
    Forest(KidsOf(records), stack, |records|)
  }

  ghost predicate AllBelow(records: seq<Record>, id: string, s: seq<Record>) {
    forall c :: c in s ==> IsDescendant(records, id, c)
  }

  /** What is listed so far and what the stack still has to list make up the whole listing. */
  ghost predicate Walked(records: seq<Record>, id: string, ordered: seq<Record>, stack: seq<Record>) {
    AllBelow(records, id, stack) && ordered + Pending(records, stack) == DescendantsOf(records, id)
  }

  lemma WalkStarts(records: seq<Record>, id: string)
    requires DistinctIds(records) && !OnCycle(records, id)
    ensures Walked(records, id, [], Offspring(records, id))
  {
    OffspringIsFirstLevel(records, id);
    assert [] + DescendantsOf(records, id) == DescendantsOf(records, id);
  }

  lemma WalkGoesOn(records: seq<Record>, id: string, ordered: seq<Record>, stack: seq<Record>)
    requires DistinctIds(records) && !OnCycle(records, id) && |stack| > 0 && Walked(records, id, ordered, stack)
    ensures var next := Turn(KidsOf(records), stack);
      Walked(records, id, ordered + [stack[0]], next) && |Pending(records, next)| < |Pending(records, stack)|
  {
    TurnLists(records, id, stack);
    ConcatAssociates(ordered, [stack[0]], Pending(records, Turn(KidsOf(records), stack)));
  }

  lemma TurnLists(records: seq<Record>, id: string, stack: seq<Record>)
    requires DistinctIds(records) && !OnCycle(records, id) && |stack| > 0 && AllBelow(records, id, stack)
    ensures AllBelow(records, id, Turn(KidsOf(records), stack))
    ensures Pending(records, stack) == [stack[0]] + Pending(records, Turn(KidsOf(records), stack))
  {
    assert stack == [stack[0]] + stack[1..];
    PopRecord(records, id, stack[0], stack[1..]);
  }

  lemma PopRecord(records: seq<Record>, id: string, child: Record, rest: seq<Record>)
    requires DistinctIds(records) && !OnCycle(records, id) && AllBelow(records, id, [child] + rest)
    ensures AllBelow(records, id, Offspring(records, child.runId) + rest)
    ensures Pending(records, [child] + rest) == [child] + Pending(records, Offspring(records, child.runId) + rest)
  {
    var h := Family(records, id);
    FamilyIsSound(records, id);
    assert child in [child] + rest && NodeIsSound(h, child);
    assert forall c :: c in rest ==> c in [child] + rest;
    PopAndPush(h, child, rest, |records|);
  }

  /** Pops the record on top and puts its children, in order of creation, in front of what was waiting. */
  method TakeTurn(ghost records: seq<Record>, childrenOf: map<string, seq<Record>>, stack: seq<Record>)
    returns (child: Record, next: seq<Record>)
    requires |stack| > 0 && forall id :: Listed(childrenOf, id) == Children(records, id)
    ensures child == stack[0] && next == Turn(KidsOf(records), stack)
  {
    child, next := stack[0], stack[1..];
    next := Sorted(Listed(childrenOf, child.runId)) + next;
  }

  /** The walk from a run that is not its own descendant; the rest of the index may hold cycles. */
  method Descendants(runId: string, records: seq<Record>) returns (ordered: seq<Record>)
    requires DistinctIds(records) && !OnCycle(records, runId)
    ensures ordered == DescendantsOf(records, runId)
  {
    var childrenOf := GroupByParent(records);
    ordered := [];
    var stack := Sorted(Listed(childrenOf, runId));
    WalkStarts(records, runId);
    while |stack| > 0
      invariant Walked(records, runId, ordered, stack)
      decreases |Pending(records, stack)|
    {
      WalkGoesOn(records, runId, ordered, stack);
      var child;
      child, stack := TakeTurn(records, childrenOf, stack);
      ordered := ordered + [child];
    }
  }

  /** From a run on a cycle the walk starts at one of the records on a cycle, each of which has a child that is too. */
  lemma CycleNeverEnds(records: seq<Record>, id: string) returns (nodes: set<Record>, c: Record)
    requires OnCycle(records, id)
    ensures NeverEnds(KidsOf(records), nodes) && c in Offspring(records, id) && c in nodes
  {
    nodes := set r | r in records && OnCycle(records, r.runId);
    c := ChildOnCycle(records, id);
    OffspringMembers(records, id);
    KidsGiveChildren(records);
    forall p | p in nodes ensures HasChildIn(KidsOf(records), nodes, p) {
      var d := ChildOnCycle(records, p.runId);
      assert d in KidsOf(records)(p);
    }
  }

  /** The walk from a run empties its stack if and only if the run is not its own descendant. */
  lemma WalkEndsIff(records: seq<Record>, id: string)
    requires DistinctIds(records)
    ensures (exists n: nat :: Turns(KidsOf(records), Offspring(records, id), n) == []) <==> !OnCycle(records, id)
  {
    var kids, start := KidsOf(records), Offspring(records, id);
    if OnCycle(records, id) {
      var nodes, p := CycleNeverEnds(records, id);
      forall n: nat ensures Turns(kids, start, n) != [] { var c := StackNeverEmpties(kids, nodes, start, p, n); }
    } else {
      FamilyIsSound(records, id);
      OffspringIsFirstLevel(records, id);
      var m := StackEmpties(Family(records, id), start, 0, start);
    }
  }

  /** Two runs that name each other as parent. */
  lemma MutualParentsAreACycle()
    ensures var records := [Record("a", "b", 0), Record("b", "a", 1)];
      DistinctIds(records) && OnCycle(records, "a")
  {
    var a, b := Record("a", "b", 0), Record("b", "a", 1);
    assert Descends([a, b], "a", b, 0);
    assert IsParent(b, a) && Descends([a, b], "a", a, 1);
    assert IsDescendant([a, b], "a", a);
  }

  /** From a run on a cycle the listing never ends: with every further generation allowed it gets longer. */
  lemma CycleListsForever(records: seq<Record>, id: string, n: nat)
    requires OnCycle(records, id)
    ensures |Forest(KidsOf(records), Offspring(records, id), n)| > n
  {
    var r :| IsDescendant(records, id, r) && r.runId == id;
    KidsGiveChildren(records);
    CycleGoesOn(records, KidsOf(records), r, n);
  }

  lemma {:induction false} CycleGoesOn(records: seq<Record>, kids: Record -> seq<Record>, p: Record, n: nat)
    requires GivesChildren(records, kids) && OnCycle(records, p.runId)
    ensures |Forest(kids, kids(p), n)| > n
    decreases n
  {
    var c := ChildOnCycle(records, p.runId);
    assert c in kids(p);
    BranchWithin(kids, kids(p), c, n);
    if n > 0 { CycleGoesOn(records, kids, c, n - 1); }
  }

  lemma ChildOnCycle(records: seq<Record>, id: string) returns (c: Record)
    requires OnCycle(records, id)
    ensures IsChildOf(records, id, c) && OnCycle(records, c.runId)
  {
    var r :| IsDescendant(records, id, r) && r.runId == id;
    var k: nat :| Descends(records, id, r, k);
    if k == 0 {
      c := r;
      assert IsDescendant(records, c.runId, c);
    } else {
      DescendsFromTop(records, id, r, k - 1);
      c :| IsChildOf(records, id, c) && Descends(records, c.runId, r, k - 1);
      assert IsParent(r, c) && Descends(records, c.runId, c, k);
      assert IsDescendant(records, c.runId, c);
    }
  }

  // ----- what the listing contains

  lemma ReachedIsDescendant(records: seq<Record>, kids: Record -> seq<Record>, id: string, c: Record, n: nat, r: Record)
    requires GivesChildren(records, kids) && IsChildOf(records, id, c) && Within(kids, c, n, r)
    ensures IsDescendant(records, id, r)
  {
    var k: nat :| k < n && Beneath(kids, c, r, k);
    DownIsUp(records, kids, c, r, k);
    DescendsFromTop(records, id, r, k);
  }

  lemma DescendantIsReached(records: seq<Record>, kids: Record -> seq<Record>, id: string, r: Record, k: nat)
    returns (c: Record)
    requires DistinctIds(records) && !OnCycle(records, id) && GivesChildren(records, kids)
      && Descends(records, id, r, k)
    ensures IsChildOf(records, id, c) && (r == c || Within(kids, c, |records|, r))
  {
    if k == 0 {
      c := r;
    } else {
      LevelIsBounded(records, id, r, k);
      DescendsFromTop(records, id, r, k - 1);
      c :| IsChildOf(records, id, c) && Descends(records, c.runId, r, k - 1);
      UpIsDown(records, kids, c, r, k - 1);
    }
  }

  /** The listing holds exactly the proper descendants, however deep. */
  lemma ListsExactlyTheDescendants(records: seq<Record>, id: string, r: Record)
    requires DistinctIds(records) && !OnCycle(records, id)
    ensures r in DescendantsOf(records, id) <==> IsDescendant(records, id, r)
  {
    var kids, below, n := KidsOf(records), Offspring(records, id), |records|;
    OffspringMembers(records, id);
    KidsGiveChildren(records);
    ForestMembers(kids, below, n, r);
    if r in below { assert Descends(records, id, r, 0); }
    if WithinAny(kids, below, n, r) {
      var c :| c in below && Within(kids, c, n, r);
      ReachedIsDescendant(records, kids, id, c, n, r);
    }
    if k: nat :| Descends(records, id, r, k) {
      var c := DescendantIsReached(records, kids, id, r, k);
      assert c in below;
    }
  }

  /** Every descendant is listed once, and the run itself is not among them. */
  lemma ListsEachOnce(records: seq<Record>, id: string)
    requires DistinctIds(records) && !OnCycle(records, id)
    ensures Distinct(DescendantsOf(records, id)) && forall r :: r in DescendantsOf(records, id) ==> r.runId != id
  {
    FamilyIsSound(records, id);
    OffspringIsDistinct(records, id);
    OffspringIsFirstLevel(records, id);
    ForestIsDistinct(Family(records, id), Offspring(records, id), 0, |records|);
    forall r | r in DescendantsOf(records, id) ensures r.runId != id { ListsExactlyTheDescendants(records, id, r); }
  }

  /** Depth-first pre-order: directly after each listed run stands its own complete listing. */
  lemma SubtreesAreContiguous(records: seq<Record>, id: string, r: Record)
    requires DistinctIds(records) && !OnCycle(records, id) && r in DescendantsOf(records, id)
    ensures FollowedBy(DescendantsOf(records, id), r, DescendantsOf(records, r.runId))
  {
    FamilyIsSound(records, id);
    OffspringIsFirstLevel(records, id);
    ForestIsPreOrder(Family(records, id), Offspring(records, id), |records|, r);
  }
}
