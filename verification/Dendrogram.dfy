/**
 * Ordering the leaves of a single-linkage dendrogram.  Row r of the linkage merges two earlier
 * clusters into cluster n + r; ids below n are leaves, and 2n - 2 is the root.
 */
module Dendrogram {
  import opened Collections
  import opened HierarchicalRiskParity

  datatype Merge = Merge(left: nat, right: nat)

  /** The merged ids in reading order: two slots a row. */
  function Slot(link: seq<Merge>, s: nat): nat
    requires s < 2 * |link|
  {
    if s % 2 == 0 then link[s / 2].left else link[s / 2].right
  }

  /** Every row merges two existing clusters, and no cluster is merged twice. */
  ghost predicate WellFormed(link: seq<Merge>, n: nat) {
    && n >= 2
    && |link| == n - 1
    && (forall r :: 0 <= r < |link| ==> link[r].left < n + r && link[r].right < n + r)
    && (forall s, t :: 0 <= s < t < 2 * |link| ==> Slot(link, s) != Slot(link, t))
  }

  /** The leaves below a cluster, left subtree first. */
  function Leaves(link: seq<Merge>, n: nat, id: nat): (ls: seq<nat>)
    requires WellFormed(link, n) && id < 2 * n - 1
    ensures |ls| > 0
    ensures forall x :: x in ls ==> x < n && x <= id
  {
    if id < n then [id]
    else Leaves(link, n, link[id - n].left) + Leaves(link, n, link[id - n].right)
  }

  ghost predicate ValidIds(n: nat, ids: seq<nat>) {
    forall k :: 0 <= k < |ids| ==> ids[k] < 2 * n - 1
  }

  /** The leaves below a list of clusters. */
  ghost function Flatten(link: seq<Merge>, n: nat, ids: seq<nat>): seq<nat>
    requires WellFormed(link, n) && ValidIds(n, ids)
  {
    if |ids| == 0 then [] else Leaves(link, n, ids[0]) + Flatten(link, n, ids[1..])
  }

  lemma {:induction false} FlattenConcat(link: seq<Merge>, n: nat, a: seq<nat>, b: seq<nat>)
    requires WellFormed(link, n) && ValidIds(n, a) && ValidIds(n, b)
    ensures Flatten(link, n, a + b) == Flatten(link, n, a) + Flatten(link, n, b)
  {
    if |a| == 0 {
      assert a + b == b;
    } else {
      FlattenConcat(link, n, a[1..], b);
      assert (a + b)[1..] == a[1..] + b;
      FlattenHead(link, n, a + b);
      FlattenHead(link, n, a);
    }
  }

  lemma FlattenHead(link: seq<Merge>, n: nat, ids: seq<nat>)
    requires WellFormed(link, n) && ValidIds(n, ids) && |ids| > 0
    ensures Flatten(link, n, ids) == Leaves(link, n, ids[0]) + Flatten(link, n, ids[1..])
  {
  }

  lemma {:induction false} FlattenOfLeaves(link: seq<Merge>, n: nat, ids: seq<nat>)
    requires WellFormed(link, n) && forall k :: 0 <= k < |ids| ==> ids[k] < n
    ensures Flatten(link, n, ids) == ids
  {
    if |ids| != 0 { FlattenOfLeaves(link, n, ids[1..]); }
  }

  function Max(ids: seq<nat>): (m: nat)
    requires |ids| > 0
    ensures m in ids && forall k :: 0 <= k < |ids| ==> ids[k] <= m
  {
    if |ids| == 1 then ids[0]
    else
      var rest := Max(ids[1..]);
      assert forall k :: 1 <= k < |ids| ==> ids[k] == ids[1..][k - 1];
      if ids[0] > rest then ids[0] else rest
  }

  /** What one cluster is replaced by in a pass. */
  function Parts(link: seq<Merge>, n: nat, id: nat): (ps: seq<nat>)
    requires WellFormed(link, n) && id < 2 * n - 1
    ensures |ps| > 0 && ValidIds(n, ps)
    ensures forall k :: 0 <= k < |ps| ==> ps[k] <= id && (id >= n ==> ps[k] < id)
  {
    if id >= n then [link[id - n].left, link[id - n].right] else [id]
  }

  lemma FlattenParts(link: seq<Merge>, n: nat, id: nat)
    requires WellFormed(link, n) && id < 2 * n - 1
    ensures Flatten(link, n, Parts(link, n, id)) == Leaves(link, n, id) == Flatten(link, n, [id])
  {
    var ps := Parts(link, n, id);
    assert [id][1..] == [];
    if id >= n {
      assert ps[1..] == [link[id - n].right] && ps[1..][1..] == [];
    } else {
      assert ps[1..] == [];
    }
  }

  lemma FlattenStep(link: seq<Merge>, n: nat, ids: seq<nat>, next: seq<nat>, k: nat)
    requires WellFormed(link, n) && ValidIds(n, ids) && ValidIds(n, next) && k < |ids|
    requires Flatten(link, n, next) == Flatten(link, n, ids[..k])
    ensures Flatten(link, n, next + Parts(link, n, ids[k])) == Flatten(link, n, ids[..k + 1])
  {
    FlattenParts(link, n, ids[k]);
    FlattenConcat(link, n, next, Parts(link, n, ids[k]));
    FlattenConcat(link, n, ids[..k], [ids[k]]);
    assert ids[..k + 1] == ids[..k] + [ids[k]];
  }

  /** One pass: every cluster in the list is replaced by its two parts, in place, all at once. */
  method ExpandClusters(link: seq<Merge>, n: nat, ids: seq<nat>) returns (next: seq<nat>)
    requires WellFormed(link, n) && ValidIds(n, ids) && |ids| > 0 && Max(ids) >= n
    ensures ValidIds(n, next) && |next| > 0
    ensures Flatten(link, n, next) == Flatten(link, n, ids)
    ensures Max(next) < Max(ids)
  {
    next := [];
    for k := 0 to |ids|
      invariant ValidIds(n, next) && |next| >= k
      invariant Flatten(link, n, next) == Flatten(link, n, ids[..k])
      invariant forall j :: 0 <= j < |next| ==> next[j] < Max(ids)
    {
      FlattenStep(link, n, ids, next, k);
      next := next + Parts(link, n, ids[k]);
    }
    assert ids[..|ids|] == ids;
  }

  /** The expansion loop computes the recursive left-to-right leaf listing of the root. */
  method QuasiDiagonalOrder(link: seq<Merge>, n: nat) returns (order: seq<nat>)
    requires WellFormed(link, n)
    ensures order == Leaves(link, n, 2 * n - 2)
  {
    var last := link[|link| - 1];
    order := [last.left, last.right];
    FlattenParts(link, n, 2 * n - 2);
    while Max(order) >= n
      invariant |order| > 0 && ValidIds(n, order)
      invariant Flatten(link, n, order) == Leaves(link, n, 2 * n - 2)
      decreases Max(order)
    {
      order := ExpandClusters(link, n, order);
    }
    FlattenOfLeaves(link, n, order);
  }

  // ----- the listing is a permutation with contiguous clusters

  ghost predicate IsPart(link: seq<Merge>, n: nat, c: nat, p: nat)
    requires WellFormed(link, n)
  {
    n <= p < 2 * n - 1 && (link[p - n].left == c || link[p - n].right == c)
  }

  lemma PartOfOne(link: seq<Merge>, n: nat, c: nat, p: nat, q: nat)
    requires WellFormed(link, n) && IsPart(link, n, c, p) && IsPart(link, n, c, q)
    ensures p == q && link[p - n].left != link[p - n].right
  {
    var s := 2 * (p - n) + if link[p - n].left == c then 0 else 1;
    var t := 2 * (q - n) + if link[q - n].left == c then 0 else 1;
    assert Slot(link, s) == c && Slot(link, t) == c;
    assert Slot(link, 2 * (p - n)) != Slot(link, 2 * (p - n) + 1);
  }

  /** Two clusters that share a leaf are nested: the smaller is merged no later than the larger is formed. */
  lemma {:induction false} SharedLeafNests(link: seq<Merge>, n: nat, x: nat, a: nat, b: nat)
    requires WellFormed(link, n) && a < b < 2 * n - 1
    requires x in Leaves(link, n, a) && x in Leaves(link, n, b)
    ensures exists p: nat :: p <= b && IsPart(link, n, a, p)
    decreases b
  {
    var l, r := link[b - n].left, link[b - n].right;
    var c := if x in Leaves(link, n, l) then l else r;
    assert IsPart(link, n, c, b);
    if a < c {
      SharedLeafNests(link, n, x, a, c);
    } else if c < a {
      SharedLeafNests(link, n, x, c, a);
      var p: nat :| p <= a && IsPart(link, n, c, p);
      PartOfOne(link, n, c, p, b);
    }
  }

  lemma {:induction false} LeavesAreDistinct(link: seq<Merge>, n: nat, id: nat)
    requires WellFormed(link, n) && id < 2 * n - 1
    ensures Distinct(Leaves(link, n, id))
  {
    if id >= n {
      var l, r := link[id - n].left, link[id - n].right;
      LeavesAreDistinct(link, n, l);
      LeavesAreDistinct(link, n, r);
      DistinctConcat(Leaves(link, n, l), Leaves(link, n, r)) by {
        forall x | x in Leaves(link, n, l) ensures x !in Leaves(link, n, r) { PartsAreDisjoint(link, n, id, x); }
      }
    }
  }

  lemma PartsAreDisjoint(link: seq<Merge>, n: nat, id: nat, x: nat)
    requires WellFormed(link, n) && n <= id < 2 * n - 1 && x in Leaves(link, n, link[id - n].left)
    ensures x !in Leaves(link, n, link[id - n].right)
  {
    var l, r := link[id - n].left, link[id - n].right;
    assert IsPart(link, n, l, id) && IsPart(link, n, r, id);
    PartOfOne(link, n, l, id, id);
    if x in Leaves(link, n, r) {
      var a, b := if l < r then l else r, if l < r then r else l;
      SharedLeafNests(link, n, x, a, b);
      var p: nat :| p <= b && IsPart(link, n, a, p);
      PartOfOne(link, n, a, p, id);
    }
  }

  /** Every cluster but the root is part of a later one. */
  lemma HasParent(link: seq<Merge>, n: nat, id: nat)
    requires WellFormed(link, n) && id < 2 * n - 2
    ensures exists p: nat :: id < p && IsPart(link, n, id, p)
  {
    var slots: seq<nat> := seq(2 * |link|, s requires 0 <= s < 2 * |link| => Slot(link, s));
    DistinctBelowIsAll(slots, id);
    var s :| 0 <= s < |slots| && slots[s] == id;
    assert IsPart(link, n, id, n + s / 2);
  }

  ghost predicate Contiguous(part: seq<nat>, whole: seq<nat>) {
    exists k: nat :: OccursAt(part, whole, k)
  }

  ghost predicate OccursAt(part: seq<nat>, whole: seq<nat>, k: nat) {
    k + |part| <= |whole| && whole[k..k + |part|] == part
  }

  /** The leaves of every cluster stand together in the final order. */
  lemma {:induction false} ClusterIsContiguous(link: seq<Merge>, n: nat, id: nat)
    requires WellFormed(link, n) && id < 2 * n - 1
    ensures Contiguous(Leaves(link, n, id), Leaves(link, n, 2 * n - 2))
    decreases 2 * n - 2 - id
  {
    var part, whole := Leaves(link, n, id), Leaves(link, n, 2 * n - 2);
    if id == 2 * n - 2 {
      assert OccursAt(part, whole, 0);
    } else {
      HasParent(link, n, id);
      var p: nat :| id < p && IsPart(link, n, id, p);
      ClusterIsContiguous(link, n, p);
      var outer := Leaves(link, n, p);
      var k: nat :| OccursAt(outer, whole, k);
      var l := link[p - n].left;
      var offset := if id == l then 0 else |Leaves(link, n, l)|;
      assert outer == Leaves(link, n, l) + Leaves(link, n, link[p - n].right);
      assert outer[offset..offset + |part|] == part;
      assert whole[k + offset..k + offset + |part|] == outer[offset..offset + |part|];
      assert OccursAt(part, whole, k + offset);
    }
  }

  /** In the final order the leaves of a cluster's left part come right before those of its right part. */
  lemma LeftPrecedesRight(link: seq<Merge>, n: nat, id: nat)
    requires WellFormed(link, n) && n <= id < 2 * n - 1
    ensures InTurn(Leaves(link, n, link[id - n].left), Leaves(link, n, link[id - n].right), Leaves(link, n, 2 * n - 2))
  {
    var left, right := Leaves(link, n, link[id - n].left), Leaves(link, n, link[id - n].right);
    var part, whole := Leaves(link, n, id), Leaves(link, n, 2 * n - 2);
    ClusterIsContiguous(link, n, id);
    var k: nat :| OccursAt(part, whole, k);
    assert part == left + right;
    SplitOccurrence(left, right, whole, k);
    assert OccurInTurn(left, right, whole, k);
  }

  ghost predicate InTurn(left: seq<nat>, right: seq<nat>, whole: seq<nat>) {
    exists k: nat :: OccurInTurn(left, right, whole, k)
  }

  ghost predicate OccurInTurn(left: seq<nat>, right: seq<nat>, whole: seq<nat>, k: nat) {
    OccursAt(left, whole, k) && OccursAt(right, whole, k + |left|)
  }

  lemma SplitOccurrence(left: seq<nat>, right: seq<nat>, whole: seq<nat>, k: nat)
    requires OccursAt(left + right, whole, k)
    ensures OccursAt(left, whole, k) && OccursAt(right, whole, k + |left|)
  {
    var part := whole[k..k + |left + right|];
    assert part[..|left|] == left && part[|left|..] == right;
    assert whole[k..k + |left|] == part[..|left|];
    assert whole[k + |left|..k + |left| + |right|] == part[|left|..];
  }

  lemma EveryLeafIsListed(link: seq<Merge>, n: nat, i: nat)
    requires WellFormed(link, n) && i < n
    ensures i in Leaves(link, n, 2 * n - 2)
  {
    var order := Leaves(link, n, 2 * n - 2);
    ClusterIsContiguous(link, n, i);
    assert Leaves(link, n, i) == [i];
    var k: nat :| OccursAt([i], order, k);
    assert order[k] == order[k..k + 1][0];
  }

  /** The order that bisection runs over names every leaf exactly once. */
  lemma OrderIsPermutation(link: seq<Merge>, n: nat)
    requires WellFormed(link, n)
    ensures IsPermutation(Leaves(link, n, 2 * n - 2), n)
  {
    var order := Leaves(link, n, 2 * n - 2);
    LeavesAreDistinct(link, n, 2 * n - 2);
    forall i: nat | i < n ensures i in order { EveryLeafIsListed(link, n, i); }
    DistinctCount(order);
    assert Elements(order) == Below(n);
    assert forall k :: 0 <= k < |order| ==> order[k] in order;
  }
}
