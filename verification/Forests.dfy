/**
 * Depth-first listings of a hierarchy.
 *
 * A hierarchy is given by the ordered children of each node; a listing of it is cut off after a number of
 * generations, so that it is defined for every choice of children.  In a hierarchy with bounded depth the
 * cut-off does not matter, and the listing names every node below a start exactly once, each directly
 * followed by everything below it.
 */
module Forests {
  import opened Collections

  /** The nodes of s, each directly followed by up to n generations below it, first branch first. */
  function Forest<T>(kids: T -> seq<T>, s: seq<T>, n: nat): seq<T>
    decreases n, |s|
  {
    if |s| == 0 then [] else Subtree(kids, s[0], n) + Forest(kids, s[1..], n)
  }

  function Subtree<T>(kids: T -> seq<T>, p: T, n: nat): seq<T>
    decreases n, 0
  {
    [p] + Lower(kids, p, n)
  }

  /** What stands below p in the listing. */
  function Lower<T>(kids: T -> seq<T>, p: T, n: nat): seq<T>
    decreases n, 0, 0
  {
    if n == 0 then [] else Forest(kids, kids(p), n - 1)
  }

  lemma ForestParts<T>(kids: T -> seq<T>, s: seq<T>, n: nat)
    requires |s| > 0 && n > 0
    ensures Forest(kids, s, n) == [s[0]] + Forest(kids, kids(s[0]), n - 1) + Forest(kids, s[1..], n)
  {
    assert Subtree(kids, s[0], n) == [s[0]] + Lower(kids, s[0], n);
  }

  lemma ForestHead<T>(kids: T -> seq<T>, p: T, rest: seq<T>, n: nat)
    ensures Forest(kids, [p] + rest, n) == Subtree(kids, p, n) + Forest(kids, rest, n)
  {
    assert ([p] + rest)[1..] == rest;
  }

  lemma ConcatAssociates<T>(a: seq<T>, b: seq<T>, c: seq<T>)
    ensures a + (b + c) == a + b + c
  {
  }

  lemma {:induction false} ForestConcat<T>(kids: T -> seq<T>, s: seq<T>, t: seq<T>, n: nat)
    ensures Forest(kids, s + t, n) == Forest(kids, s, n) + Forest(kids, t, n)
  {
    if |s| == 0 {
      assert s + t == t;
    } else {
      var p, rest := s[0], s[1..];
      ForestConcat(kids, rest, t, n);
      ForestHead(kids, p, rest, n);
      ForestHead(kids, p, rest + t, n);
      assert s == [p] + rest && s + t == [p] + (rest + t);
      ConcatAssociates(Subtree(kids, p, n), Forest(kids, rest, n), Forest(kids, t, n));
    }
  }

  /** Nodes with ordered children and a depth; every node lies above the bottom. */
  datatype Hierarchy<!T> = Hierarchy(nodes: set<T>, kids: T -> seq<T>, depth: T -> nat, bottom: nat)

  ghost predicate NodeIsSound<T(!new)>(h: Hierarchy<T>, p: T) {
    && h.depth(p) < h.bottom && Distinct(h.kids(p))
    && forall c :: c in h.kids(p) ==> c in h.nodes && h.depth(c) == h.depth(p) + 1
  }

  /** Children are one deeper than their parent, and no node has two parents. */
  ghost predicate Sound<T(!new)>(h: Hierarchy<T>) {
    (forall p :: p in h.nodes ==> NodeIsSound(h, p)) && OneParentEach(h)
  }

  ghost predicate OneParentEach<T(!new)>(h: Hierarchy<T>) {
    forall p, q, c :: p in h.nodes && q in h.nodes && c in h.kids(p) && c in h.kids(q) ==> p == q
  }

  /** n generations are enough to reach the bottom from every node of s. */
  ghost predicate Enough<T(!new)>(h: Hierarchy<T>, s: seq<T>, n: nat) {
    forall c :: c in s ==> c in h.nodes && h.depth(c) + n >= h.bottom
  }

  lemma EnoughBelow<T(!new)>(h: Hierarchy<T>, s: seq<T>, n: nat)
    requires Sound(h) && Enough(h, s, n) && |s| > 0
    ensures n > 0 && Enough(h, s[1..], n) && Enough(h, h.kids(s[0]), n - 1)
  {
    var p := s[0];
    assert p in s;
    assert NodeIsSound(h, p);
  }

  lemma {:induction false} ForestSettles<T(!new)>(h: Hierarchy<T>, s: seq<T>, n: nat)
    requires Sound(h) && Enough(h, s, n)
    ensures Forest(h.kids, s, n + 1) == Forest(h.kids, s, n)
    decreases n, |s|
  {
    if |s| != 0 {
      EnoughBelow(h, s, n);
      ForestSettles(h, h.kids(s[0]), n - 1);
      ForestSettles(h, s[1..], n);
      ForestParts(h.kids, s, n);
      ForestParts(h.kids, s, n + 1);
    }
  }

  /** Once n generations are enough, allowing for more changes nothing. */
  lemma {:induction false} ForestSettled<T(!new)>(h: Hierarchy<T>, s: seq<T>, n: nat, m: nat)
    requires Sound(h) && Enough(h, s, n) && n <= m
    ensures Forest(h.kids, s, m) == Forest(h.kids, s, n)
    decreases m
  {
    if n < m {
      ForestSettled(h, s, n, m - 1);
      ForestSettles(h, s, m - 1);
    }
  }

  /** What a stack with p on top holds is p and what the stack holds once p has given way to its children. */
  lemma PopAndPush<T(!new)>(h: Hierarchy<T>, p: T, rest: seq<T>, n: nat)
    requires Sound(h) && Enough(h, [p] + rest, n)
    ensures Enough(h, h.kids(p) + rest, n)
    ensures Forest(h.kids, [p] + rest, n) == [p] + Forest(h.kids, h.kids(p) + rest, n)
  {
    var below, stack := h.kids(p), [p] + rest;
    assert stack[0] == p && stack[1..] == rest;
    EnoughBelow(h, stack, n);
    ForestSettled(h, below, n - 1, n);
    ForestConcat(h.kids, below, rest, n);
    ForestParts(h.kids, stack, n);
  }

  // ----- membership

  /** r is k + 1 generations below p. */
  ghost predicate Beneath<T(!new)>(kids: T -> seq<T>, p: T, r: T, k: nat) {
    if k == 0 then r in kids(p) else exists c :: c in kids(p) && Beneath(kids, c, r, k - 1)
  }

  /** r is below p, at most n generations. */
  ghost predicate Within<T(!new)>(kids: T -> seq<T>, p: T, n: nat, r: T) {
    exists k: nat :: k < n && Beneath(kids, p, r, k)
  }

  ghost predicate WithinAny<T(!new)>(kids: T -> seq<T>, s: seq<T>, n: nat, r: T) {
    exists c :: c in s && Within(kids, c, n, r)
  }

  lemma WithinSteps<T(!new)>(kids: T -> seq<T>, p: T, n: nat, r: T)
    requires n > 0
    ensures Within(kids, p, n, r) <==> (r in kids(p) || WithinAny(kids, kids(p), n - 1, r))
  {
    if Within(kids, p, n, r) {
      var k: nat :| k < n && Beneath(kids, p, r, k);
      if k > 0 {
        var c :| c in kids(p) && Beneath(kids, c, r, k - 1);
        assert Within(kids, c, n - 1, r);
      }
    }
    if r in kids(p) { assert Beneath(kids, p, r, 0); }
    if WithinAny(kids, kids(p), n - 1, r) {
      var c :| c in kids(p) && Within(kids, c, n - 1, r);
      var k: nat :| k < n - 1 && Beneath(kids, c, r, k);
      assert Beneath(kids, p, r, k + 1);
    }
  }

  lemma WithinAnySplit<T(!new)>(kids: T -> seq<T>, s: seq<T>, n: nat, r: T)
    requires |s| > 0
    ensures WithinAny(kids, s, n, r) <==> (Within(kids, s[0], n, r) || WithinAny(kids, s[1..], n, r))
  {
    assert forall c :: c in s <==> c == s[0] || c in s[1..];
  }

  lemma {:induction false} ForestMembers<T(!new)>(kids: T -> seq<T>, s: seq<T>, n: nat, r: T)
    ensures r in Forest(kids, s, n) <==> (r in s || WithinAny(kids, s, n, r))
    decreases n, |s|
  {
    if |s| != 0 {
      ForestMembers(kids, s[1..], n, r);
      WithinAnySplit(kids, s, n, r);
      LowerMembers(kids, s[0], n, r);
      assert Forest(kids, s, n) == Subtree(kids, s[0], n) + Forest(kids, s[1..], n);
      assert r in s <==> r == s[0] || r in s[1..];
    }
  }

  lemma {:induction false} LowerMembers<T(!new)>(kids: T -> seq<T>, p: T, n: nat, r: T)
    ensures r in Lower(kids, p, n) <==> Within(kids, p, n, r)
    decreases n, 0
  {
    if n != 0 {
      ForestMembers(kids, kids(p), n - 1, r);
      WithinSteps(kids, p, n, r);
    }
  }

  // ----- no repetition

  lemma {:induction false} BeneathIsDeeper<T(!new)>(h: Hierarchy<T>, p: T, r: T, k: nat)
    requires Sound(h) && p in h.nodes && Beneath(h.kids, p, r, k)
    ensures r in h.nodes && h.depth(r) == h.depth(p) + k + 1
    decreases k
  {
    assert NodeIsSound(h, p);
    if k != 0 {
      var c :| c in h.kids(p) && Beneath(h.kids, c, r, k - 1);
      BeneathIsDeeper(h, c, r, k - 1);
    }
  }

  /** A node has one ancestor at each distance. */
  lemma {:induction false} AncestorIsUnique<T(!new)>(h: Hierarchy<T>, p: T, q: T, r: T, k: nat)
    requires Sound(h) && p in h.nodes && q in h.nodes && Beneath(h.kids, p, r, k) && Beneath(h.kids, q, r, k)
    ensures p == q
    decreases k
  {
    if k != 0 {
      assert NodeIsSound(h, p) && NodeIsSound(h, q);
      var c :| c in h.kids(p) && Beneath(h.kids, c, r, k - 1);
      var d :| d in h.kids(q) && Beneath(h.kids, d, r, k - 1);
      AncestorIsUnique(h, c, d, r, k - 1);
    }
  }

  ghost predicate SameDepth<T(!new)>(h: Hierarchy<T>, s: seq<T>, d: nat) {
    forall c :: c in s ==> c in h.nodes && h.depth(c) == d
  }

  /** Different nodes of one generation have nothing below them in common. */
  lemma SubtreesAreDisjoint<T(!new)>(h: Hierarchy<T>, p: T, q: T, d: nat, n: nat, r: T)
    requires Sound(h) && p in h.nodes && q in h.nodes && h.depth(p) == d && h.depth(q) == d && p != q
    requires r == p || Within(h.kids, p, n, r)
    ensures r != q && !Within(h.kids, q, n, r)
  {
    if k: nat :| Beneath(h.kids, q, r, k) {
      BeneathIsDeeper(h, q, r, k);
      if m: nat :| Beneath(h.kids, p, r, m) {
        BeneathIsDeeper(h, p, r, m);
        AncestorIsUnique(h, p, q, r, k);
      }
    }
    if m: nat :| Beneath(h.kids, p, r, m) { BeneathIsDeeper(h, p, r, m); }
  }

  lemma SubtreeIsApart<T(!new)>(h: Hierarchy<T>, s: seq<T>, d: nat, n: nat, r: T)
    requires Sound(h) && |s| > 0 && Distinct(s) && SameDepth(h, s, d) && r in Subtree(h.kids, s[0], n)
    ensures r !in Forest(h.kids, s[1..], n)
  {
    assert s[0] in s;
    LowerMembers(h.kids, s[0], n, r);
    ForestMembers(h.kids, s[1..], n, r);
    forall q | q in s[1..] ensures r != q && !Within(h.kids, q, n, r) {
      var i :| 0 <= i < |s[1..]| && s[1..][i] == q;
      assert s[i + 1] == q && q in s;
      SubtreesAreDisjoint(h, s[0], q, d, n, r);
    }
  }

  lemma NotBelowItself<T(!new)>(h: Hierarchy<T>, p: T, n: nat)
    requires Sound(h) && p in h.nodes
    ensures p !in Lower(h.kids, p, n)
  {
    LowerMembers(h.kids, p, n, p);
    if k: nat :| Beneath(h.kids, p, p, k) { BeneathIsDeeper(h, p, p, k); }
  }

  lemma {:induction false} ForestIsDistinct<T(!new)>(h: Hierarchy<T>, s: seq<T>, d: nat, n: nat)
    requires Sound(h) && Distinct(s) && SameDepth(h, s, d)
    ensures Distinct(Forest(h.kids, s, n))
    decreases n, |s|
  {
    if |s| != 0 {
      assert s[0] in s;
      LowerIsDistinct(h, s[0], n);
      NotBelowItself(h, s[0], n);
      ForestIsDistinct(h, s[1..], d, n);
      DistinctConcat([s[0]], Lower(h.kids, s[0], n));
      forall r | r in Subtree(h.kids, s[0], n) ensures r !in Forest(h.kids, s[1..], n) {
        SubtreeIsApart(h, s, d, n, r);
      }
      DistinctConcat(Subtree(h.kids, s[0], n), Forest(h.kids, s[1..], n));
    }
  }

  lemma {:induction false} LowerIsDistinct<T(!new)>(h: Hierarchy<T>, p: T, n: nat)
    requires Sound(h) && p in h.nodes
    ensures Distinct(Lower(h.kids, p, n))
    decreases n, 0
  {
    assert NodeIsSound(h, p);
    if n != 0 { ForestIsDistinct(h, h.kids(p), h.depth(p) + 1, n - 1); }
  }

  // ----- contiguous subtrees

  /** part stands in whole directly after r. */
  ghost predicate FollowedBy<T(!new)>(whole: seq<T>, r: T, part: seq<T>) {
    exists i :: 0 <= i < |whole| - |part| && whole[i] == r && whole[i + 1..i + 1 + |part|] == part
  }

  lemma FollowedWithin<T(!new)>(a: seq<T>, whole: seq<T>, b: seq<T>, r: T, part: seq<T>)
    requires FollowedBy(whole, r, part)
    ensures FollowedBy(a + whole + b, r, part)
  {
    var i :| 0 <= i < |whole| - |part| && whole[i] == r && whole[i + 1..i + 1 + |part|] == part;
    var big, j := a + whole + b, |a| + i;
    assert big[j] == r;
    assert big[j + 1..j + 1 + |part|] == whole[i + 1..i + 1 + |part|];
  }

  lemma FollowedDirectly<T(!new)>(r: T, part: seq<T>, b: seq<T>)
    ensures FollowedBy([r] + part + b, r, part)
  {
    var whole := [r] + part + b;
    assert whole[0] == r && whole[1..1 + |part|] == part;
  }

  lemma {:induction false} ForestIsPreOrder<T(!new)>(h: Hierarchy<T>, s: seq<T>, n: nat, r: T)
    requires Sound(h) && Enough(h, s, n) && n <= h.bottom && r in Forest(h.kids, s, n)
    ensures FollowedBy(Forest(h.kids, s, n), r, Forest(h.kids, h.kids(r), h.bottom))
    decreases n, |s|
  {
    EnoughBelow(h, s, n);
    var p, target := s[0], Forest(h.kids, h.kids(r), h.bottom);
    var mine, rest := Forest(h.kids, h.kids(p), n - 1), Forest(h.kids, s[1..], n);
    ForestParts(h.kids, s, n);
    if r == p {
      ForestSettled(h, h.kids(p), n - 1, h.bottom);
    } else if r in mine {
      ForestIsPreOrder(h, h.kids(p), n - 1, r);
    } else {
      ForestIsPreOrder(h, s[1..], n, r);
    }
    FollowedInParts(p, mine, rest, r, target);
  }

  lemma FollowedInParts<T(!new)>(p: T, mine: seq<T>, rest: seq<T>, r: T, part: seq<T>)
    requires if r == p then mine == part else FollowedBy(mine, r, part) || FollowedBy(rest, r, part)
    ensures FollowedBy([p] + mine + rest, r, part)
  {
    if r == p {
      FollowedDirectly(p, mine, rest);
    } else if FollowedBy(mine, r, part) {
      FollowedWithin([p], mine, rest, r, part);
    } else {
      FollowedWithin([p] + mine, rest, [], r, part);
      assert [p] + mine + rest + [] == [p] + mine + rest;
    }
  }

  /** A listing is at least as long as the part of it that one of its starts contributes. */
  lemma {:induction false} SubtreeWithin<T(!new)>(kids: T -> seq<T>, s: seq<T>, c: T, n: nat)
    requires c in s
    ensures |Forest(kids, s, n)| >= |Subtree(kids, c, n)|
  {
    if c != s[0] { SubtreeWithin(kids, s[1..], c, n); }
  }

  lemma BranchWithin<T(!new)>(kids: T -> seq<T>, s: seq<T>, c: T, n: nat)
    requires c in s
    ensures |Forest(kids, s, n)| > if n == 0 then 0 else |Forest(kids, kids(c), n - 1)|
  {
    SubtreeWithin(kids, s, c, n);
  }

  // ----- walking with a stack

  /** One turn of the walk: the node on top gives way to its children. */
  function Turn<T>(kids: T -> seq<T>, stack: seq<T>): seq<T> {
    if |stack| == 0 then [] else kids(stack[0]) + stack[1..]
  }

  /** The stack after n turns. */
  function Turns<T>(kids: T -> seq<T>, start: seq<T>, n: nat): seq<T> {
    if n == 0 then start else Turn(kids, Turns(kids, start, n - 1))
  }

  lemma NextTurn<T>(kids: T -> seq<T>, start: seq<T>, n: nat, child: T, rest: seq<T>)
    requires [child] + rest == Turns(kids, start, n)
    ensures kids(child) + rest == Turns(kids, start, n + 1)
  {
    assert ([child] + rest)[1..] == rest;
  }

  /** Every node of the set has a child in the set. */
  ghost predicate NeverEnds<T(!new)>(kids: T -> seq<T>, nodes: set<T>) {
    forall p {:trigger HasChildIn(kids, nodes, p)} :: p in nodes ==> HasChildIn(kids, nodes, p)
  }

  ghost predicate HasChildIn<T(!new)>(kids: T -> seq<T>, nodes: set<T>, p: T) {
    exists c :: c in kids(p) && c in nodes
  }

  lemma TurnKeepsOne<T(!new)>(kids: T -> seq<T>, nodes: set<T>, stack: seq<T>, p: T) returns (c: T)
    requires NeverEnds(kids, nodes) && p in stack && p in nodes
    ensures c in Turn(kids, stack) && c in nodes
  {
    if p == stack[0] {
      assert HasChildIn(kids, nodes, p);
      c :| c in kids(p) && c in nodes;
    } else {
      c := p;
      assert c in stack[1..];
    }
  }

  /** With one node of such a set on the stack, the stack is never empty. */
  lemma {:induction false} StackNeverEmpties<T(!new)>(kids: T -> seq<T>, nodes: set<T>, start: seq<T>, p: T, n: nat)
    returns (c: T)
    requires NeverEnds(kids, nodes) && p in start && p in nodes
    ensures c in Turns(kids, start, n) && c in nodes
  {
    if n == 0 {
      c := p;
    } else {
      var b := StackNeverEmpties(kids, nodes, start, p, n - 1);
      c := TurnKeepsOne(kids, nodes, Turns(kids, start, n - 1), b);
    }
  }

  /** In a sound hierarchy the stack runs empty. */
  lemma {:induction false} StackEmpties<T(!new)>(h: Hierarchy<T>, start: seq<T>, n: nat, stack: seq<T>)
    returns (m: nat)
    requires Sound(h) && Enough(h, stack, h.bottom) && stack == Turns(h.kids, start, n)
    ensures Turns(h.kids, start, m) == []
    decreases |Forest(h.kids, stack, h.bottom)|
  {
    if |stack| == 0 {
      m := n;
    } else {
      var child, rest := stack[0], stack[1..];
      assert stack == [child] + rest;
      PopAndPush(h, child, rest, h.bottom);
      NextTurn(h.kids, start, n, child, rest);
      m := StackEmpties(h, start, n + 1, h.kids(child) + rest);
    }
  }
}
