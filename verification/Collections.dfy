/**
 * Facts about sequences without repetition and about finite counts.
 *
 * A sequence without repetition has as many entries as elements, so it is no longer than any sequence
 * it draws from, and m distinct numbers below m are all of them.  These two counting arguments stand
 * behind the leaf order of a dendrogram, the bound on a chain of ancestors and the number of observed
 * pairs of a funding report.
 */
module Collections {

  ghost predicate Distinct<T>(s: seq<T>) {
    forall i, j :: 0 <= i < j < |s| ==> s[i] != s[j]
  }

  lemma DistinctConcat<T>(a: seq<T>, b: seq<T>)
    requires Distinct(a) && Distinct(b)
    requires forall x :: x in a ==> x !in b
    ensures Distinct(a + b)
  {
    forall i, j | 0 <= i < |a| && |a| <= j < |a| + |b| ensures (a + b)[i] != (a + b)[j] {
      assert (a + b)[i] in a && (a + b)[j] in b;
    }
  }

  lemma SubsetCardinality<T>(a: set<T>, b: set<T>)
    requires a <= b
    ensures |a| <= |b|
  {
    assert b == a + (b - a);
    assert |b| == |a| + |b - a|;
  }

  function Below(m: nat): (s: set<nat>)
    ensures |s| == m && forall i: nat :: i in s <==> i < m
  {
    if m == 0 then {} else Below(m - 1) + {m - 1}
  }

  function Elements<T(!new)>(f: seq<T>): (s: set<T>)
    ensures forall x :: x in s <==> x in f
  {
    set x | x in f
  }

  lemma {:induction false} DistinctCount<T(!new)>(f: seq<T>)
    requires Distinct(f)
    ensures |Elements(f)| == |f|
  {
    if |f| != 0 {
      var m := |f| - 1;
      DistinctCount(f[..m]);
      assert f == f[..m] + [f[m]];
      assert Elements(f) == Elements(f[..m]) + {f[m]};
    }
  }

  lemma {:induction false} ElementsBound<T(!new)>(s: seq<T>)
    ensures |Elements(s)| <= |s|
  {
    if |s| != 0 {
      var m := |s| - 1;
      ElementsBound(s[..m]);
      assert s == s[..m] + [s[m]];
      assert Elements(s) == Elements(s[..m]) + {s[m]};
    }
  }

  /** Pigeonhole: m distinct numbers below m are all the numbers below m. */
  lemma DistinctBelowIsAll(f: seq<nat>, x: nat)
    requires x < |f| && Distinct(f)
    requires forall k :: 0 <= k < |f| ==> f[k] < |f|
    ensures x in f
  {
    DistinctCount(f);
    if x !in f {
      SubsetCardinality(Elements(f), Below(|f|) - {x});
    }
  }
}
