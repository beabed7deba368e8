/** Settings as trees, and the deep merge of a later file over an earlier one. */
module SettingsTree {
  import opened Wrappers

  /** A JSON value; text is what Python's str makes of a scalar. */
  datatype Setting =
    | Section(fields: map<string, Setting>)
    | Items(items: seq<Setting>)
    | Scalar(text: string, isString: bool, truthy: bool)

  // ----- lists are united

  /** a, then what is new in b, in order. */
  function Union(a: seq<Setting>, b: seq<Setting>): seq<Setting> {
    if |b| == 0 then a
    else
      var u, x := Union(a, b[..|b| - 1]), b[|b| - 1];
      if x in u then u else u + [x]
  }

  method MergeLists(base: seq<Setting>, overlay: seq<Setting>) returns (merged: seq<Setting>)
    ensures merged == Union(base, overlay)
  {
    merged := base;
    for i := 0 to |overlay|
      invariant merged == Union(base, overlay[..i])
    {
      assert overlay[..i + 1][..i] == overlay[..i];
      if overlay[i] !in merged { merged := merged + [overlay[i]]; }
    }
    assert overlay[..|overlay|] == overlay;
  }

  lemma {:induction false} UnionMembers(a: seq<Setting>, b: seq<Setting>, x: Setting)
    ensures x in Union(a, b) <==> (x in a || x in b)
  {
    if |b| != 0 {
      UnionMembers(a, b[..|b| - 1], x);
      assert b == b[..|b| - 1] + [b[|b| - 1]];
    }
  }

  lemma {:induction false} UnionIsAssociative(a: seq<Setting>, b: seq<Setting>, c: seq<Setting>)
    ensures Union(Union(a, b), c) == Union(a, Union(b, c))
  {
    if |c| != 0 {
      var init, x := c[..|c| - 1], c[|c| - 1];
      UnionIsAssociative(a, b, init);
      var v := Union(b, init);
      UnionMembers(a, v, x);
      if x !in v { assert (v + [x])[..|v|] == v; }
    }
  }

  /** Every entry of s from position n on is new. */
  ghost predicate NewFrom(s: seq<Setting>, n: nat) {
    forall i :: n <= i < |s| ==> s[i] !in s[..i]
  }

  lemma {:induction false} UnionShape(a: seq<Setting>, b: seq<Setting>)
    ensures a <= Union(a, b) && NewFrom(Union(a, b), |a|)
  {
    if |b| != 0 {
      var u, x := Union(a, b[..|b| - 1]), b[|b| - 1];
      UnionShape(a, b[..|b| - 1]);
      if x !in u {
        forall i | |a| <= i < |u| + 1 ensures (u + [x])[i] !in (u + [x])[..i] {
          assert (u + [x])[..i] == u[..i];
        }
      }
    }
  }

  lemma {:induction false} UnionOfExtension(a: seq<Setting>, c: seq<Setting>, k: nat)
    requires a <= c && NewFrom(c, |a|) && k <= |c|
    ensures Union(a, c[..k]) == if k <= |a| then a else c[..k]
  {
    if k != 0 {
      UnionOfExtension(a, c, k - 1);
      assert c[..k][..k - 1] == c[..k - 1];
      if k <= |a| { assert c[k - 1] == a[k - 1]; }
    }
  }

  /** Uniting changes nothing exactly when the second list already extends the first without repeating. */
  lemma UnionAbsorbedIff(a: seq<Setting>, c: seq<Setting>)
    ensures Union(a, c) == c <==> a <= c && NewFrom(c, |a|)
  {
    UnionShape(a, c);
    if a <= c && NewFrom(c, |a|) {
      UnionOfExtension(a, c, |c|);
      assert c[..|c|] == c;
    }
  }

  // ----- objects are merged

  function Merge(base: Setting, overlay: Setting): Setting
    decreases overlay
  {
    if base.Section? && overlay.Section? then
      Section(map k | k in base.fields.Keys + overlay.fields.Keys ::
        if k !in overlay.fields then base.fields[k]
        else if k !in base.fields then overlay.fields[k]
        else Merge(base.fields[k], overlay.fields[k]))
    else if base.Items? && overlay.Items? then Items(Union(base.items, overlay.items))
    else overlay
  }

  method DeepMerge(base: Setting, overlay: Setting) returns (result: Setting)
    requires base.Section? && overlay.Section?
    ensures result == Merge(base, overlay)
    decreases overlay
  {
    var merged, pending := base.fields, overlay.fields.Keys;
    while pending != {}
      invariant pending <= overlay.fields.Keys
      invariant merged.Keys == base.fields.Keys + (overlay.fields.Keys - pending)
      invariant forall k :: k in merged ==>
                  merged[k] == if k in pending then base.fields[k] else Merge(base, overlay).fields[k]
      decreases pending
    {
      var key :| key in pending;
      var value := overlay.fields[key];
      if value.Section? && key in merged && merged[key].Section? {
        var inner := DeepMerge(merged[key], value);
        merged := merged[key := inner];
      } else if value.Items? && key in merged && merged[key].Items? {
        var union := MergeLists(merged[key].items, value.items);
        merged := merged[key := Items(union)];
      } else {
        merged := merged[key := value];
      }
      pending := pending - {key};
    }
    result := Section(merged);
  }

  // ----- what is found where in a merge

  /** What stands at the end of a path of keys, if anything does. */
  function Lookup(v: Setting, path: seq<string>): Option<Setting> {
    if |path| == 0 then Some(v)
    else if v.Section? && path[0] in v.fields then Lookup(v.fields[path[0]], path[1..])
    else None
  }

  /** On the way along the path there stands a scalar or a list. */
  predicate Blocks(v: Setting, path: seq<string>) {
    |path| > 0 && (!v.Section? || (path[0] in v.fields && Blocks(v.fields[path[0]], path[1..])))
  }

  /** At every path: the later value, merged over the earlier one if there is one; where the later tree has none, the
    * earlier one, unless something in the later tree stands in the way. */
  lemma {:induction false} LookupInMerge(base: Setting, overlay: Setting, path: seq<string>)
    ensures var found, earlier, later := Lookup(Merge(base, overlay), path), Lookup(base, path), Lookup(overlay, path);
            && (later.Some? && earlier.Some? ==> found == Some(Merge(earlier.value, later.value)))
            && (later.Some? && earlier.None? ==> found == later)
            && (later.None? ==> found == if Blocks(overlay, path) then None else earlier)
  {
    if |path| > 0 && base.Section? && overlay.Section? {
      MergedField(base, overlay, path[0]);
      if path[0] in base.fields && path[0] in overlay.fields {
        LookupInMerge(base.fields[path[0]], overlay.fields[path[0]], path[1..]);
      } else if path[0] in overlay.fields {
        LookupInBlocked(overlay.fields[path[0]], path[1..]);
      }
    } else {
      LookupInBlocked(overlay, path);
    }
  }

  lemma {:induction false} LookupInBlocked(v: Setting, path: seq<string>)
    ensures Blocks(v, path) ==> Lookup(v, path).None?
  {
    if |path| > 0 && v.Section? && path[0] in v.fields { LookupInBlocked(v.fields[path[0]], path[1..]); }
  }

  /** A scalar of the later tree is what the merge holds there, whatever the earlier tree holds. */
  lemma LaterScalarsWin(base: Setting, overlay: Setting, path: seq<string>)
    ensures var v := Lookup(overlay, path); v.Some? && v.value.Scalar? ==> Lookup(Merge(base, overlay), path) == v
  {
    LookupInMerge(base, overlay, path);
  }

  // ----- when merging is associative

  predicate SameKind(a: Setting, b: Setting) {
    (a.Section? <==> b.Section?) && (a.Items? <==> b.Items?)
  }

  /** c already holds whatever a holds: merging c over a gives c. */
  ghost predicate Absorbs(c: Setting, a: Setting)
    decreases c
  {
    if c.Section? && a.Section? then
      forall k :: k in a.fields ==> k in c.fields && Absorbs(c.fields[k], a.fields[k])
    else if c.Items? && a.Items? then a.items <= c.items && NewFrom(c.items, |a.items|)
    else true
  }

  lemma {:induction false} MergeAbsorbedIff(a: Setting, c: Setting)
    ensures Merge(a, c) == c <==> Absorbs(c, a)
    decreases c
  {
    if c.Section? && a.Section? {
      forall k | k in a.fields && k in c.fields
        ensures Merge(a.fields[k], c.fields[k]) == c.fields[k] <==> Absorbs(c.fields[k], a.fields[k])
      {
        MergeAbsorbedIff(a.fields[k], c.fields[k]);
      }
      SectionAbsorbed(a, c);
    } else if c.Items? && a.Items? {
      UnionAbsorbedIff(a.items, c.items);
    }
  }

  function SharedFields(a: Setting, c: Setting): map<string, Setting>
    requires a.Section? && c.Section?
  {
    map k | k in a.fields.Keys * c.fields.Keys :: Merge(a.fields[k], c.fields[k])
  }

  lemma SectionAbsorbed(a: Setting, c: Setting)
    requires a.Section? && c.Section?
    ensures Merge(a, c) == c <==>
              forall k :: k in a.fields ==> k in c.fields && SharedFields(a, c)[k] == c.fields[k]
  {
    forall k
      ensures k in Merge(a, c).fields <==> (k in a.fields || k in c.fields)
      ensures k in a.fields && k in c.fields ==> Merge(a, c).fields[k] == SharedFields(a, c)[k]
      ensures k !in a.fields && k in c.fields ==> Merge(a, c).fields[k] == c.fields[k]
    {
      MergedField(a, c, k);
    }
    MapAbsorbed(a.fields, c.fields, Merge(a, c).fields, SharedFields(a, c));
  }

  lemma MapAbsorbed(a: map<string, Setting>, c: map<string, Setting>, merged: map<string, Setting>,
    shared: map<string, Setting>)
    requires shared.Keys == a.Keys * c.Keys
    requires forall k :: k in merged <==> (k in a || k in c)
    requires forall k :: k in shared ==> merged[k] == shared[k]
    requires forall k :: k !in a && k in c ==> merged[k] == c[k]
    ensures merged == c <==> forall k :: k in a ==> k in c && shared[k] == c[k]
  {
    if merged == c {
      forall k | k in a ensures k in c { assert k in merged; }
    }
    if forall k :: k in a ==> k in c && shared[k] == c[k] {
      assert merged.Keys == c.Keys;
      forall k | k in c ensures merged[k] == c[k] { }
    }
  }

  /**
   * Wherever the outer two files both hold an object, or both a list, the middle one does too unless the
   * last file already holds everything of the first.
   */
  ghost predicate NothingIsHidden(a: Setting, b: Setting, c: Setting)
    decreases c
  {
    if a.Scalar? || !SameKind(a, c) then true
    else if !SameKind(a, b) then Absorbs(c, a)
    else if !a.Section? then true
    else forall k :: k in a.fields && k in b.fields && k in c.fields ==>
           NothingIsHidden(a.fields[k], b.fields[k], c.fields[k])
  }

  lemma {:induction false} MergeIsAssociativeIff(a: Setting, b: Setting, c: Setting)
    ensures Merge(Merge(a, b), c) == Merge(a, Merge(b, c)) <==> NothingIsHidden(a, b, c)
    decreases c
  {
    if a.Section? && b.Section? && c.Section? {
      forall k | k in a.fields && k in b.fields && k in c.fields
        ensures AssociateAt(a.fields[k], b.fields[k], c.fields[k])
           <==> NothingIsHidden(a.fields[k], b.fields[k], c.fields[k])
      {
        MergeIsAssociativeIff(a.fields[k], b.fields[k], c.fields[k]);
      }
      SectionsAssociate(a, b, c);
    } else if a.Items? && b.Items? && c.Items? {
      UnionIsAssociative(a.items, b.items, c.items);
    } else {
      MergeAbsorbedIff(a, c);
    }
  }

  ghost predicate AssociateAt(a: Setting, b: Setting, c: Setting) {
    Merge(Merge(a, b), c) == Merge(a, Merge(b, c))
  }

  ghost predicate FieldsAssociate(a: Setting, b: Setting, c: Setting)
    requires a.Section? && b.Section? && c.Section?
  {
    forall k :: k in a.fields && k in b.fields && k in c.fields ==> AssociateAt(a.fields[k], b.fields[k], c.fields[k])
  }

  lemma SectionsAssociate(a: Setting, b: Setting, c: Setting)
    requires a.Section? && b.Section? && c.Section?
    ensures AssociateAt(a, b, c) <==> FieldsAssociate(a, b, c)
  {
    var left, right := Merge(Merge(a, b), c), Merge(a, Merge(b, c));
    forall k ensures k in left.fields <==> k in right.fields { }
    forall k | k in left.fields
      ensures if k in a.fields && k in b.fields && k in c.fields
        then left.fields[k] == Merge(Merge(a.fields[k], b.fields[k]), c.fields[k])
          && right.fields[k] == Merge(a.fields[k], Merge(b.fields[k], c.fields[k]))
        else left.fields[k] == right.fields[k]
    {
      MergedField(a, b, k);
      MergedField(b, c, k);
      MergedField(Merge(a, b), c, k);
      MergedField(a, Merge(b, c), k);
    }
    if FieldsAssociate(a, b, c) {
      forall k | k in left.fields ensures left.fields[k] == right.fields[k] {
        if k in a.fields && k in b.fields && k in c.fields {
          assert AssociateAt(a.fields[k], b.fields[k], c.fields[k]);
        }
      }
      assert left.fields == right.fields;
    }
  }

  lemma MergedField(a: Setting, b: Setting, k: string)
    requires a.Section? && b.Section?
    ensures Merge(a, b).Section?
    ensures k in Merge(a, b).fields <==> (k in a.fields || k in b.fields)
    ensures k in a.fields && k !in b.fields ==> Merge(a, b).fields[k] == a.fields[k]
    ensures k !in a.fields && k in b.fields ==> Merge(a, b).fields[k] == b.fields[k]
    ensures k in a.fields && k in b.fields ==> Merge(a, b).fields[k] == Merge(a.fields[k], b.fields[k])
  {
  }

  /** The two trees hold the same kind of value wherever both hold one. */
  ghost predicate KindsAgree(a: Setting, b: Setting)
    decreases b
  {
    SameKind(a, b)
    && (a.Section? && b.Section? ==>
          forall k :: k in a.fields && k in b.fields ==> KindsAgree(a.fields[k], b.fields[k]))
  }

  lemma {:induction false} AgreeingKindsHideNothing(a: Setting, b: Setting, c: Setting)
    requires KindsAgree(a, b)
    ensures NothingIsHidden(a, b, c)
    decreases c
  {
    if a.Section? && c.Section? {
      forall k | k in a.fields && k in b.fields && k in c.fields
        ensures NothingIsHidden(a.fields[k], b.fields[k], c.fields[k])
      {
        AgreeingKindsHideNothing(a.fields[k], b.fields[k], c.fields[k]);
      }
    }
  }

  /** The order in which three files are combined does not matter when the first two agree in kind. */
  lemma MergeIsAssociative(a: Setting, b: Setting, c: Setting)
    requires KindsAgree(a, b)
    ensures Merge(Merge(a, b), c) == Merge(a, Merge(b, c))
  {
    AgreeingKindsHideNothing(a, b, c);
    MergeIsAssociativeIff(a, b, c);
  }

  /** {"mcp": {"disabledServers": list}} */
  function DisablingServers(list: Setting): Setting {
    Section(map["mcp" := Section(map["disabledServers" := list])])
  }

  /** A null list between two lists of disabled servers drops the first one when merged from the left only. */
  lemma NullListHidesEarlierNames()
    ensures var x, y, none := Scalar("x", true, true), Scalar("y", true, true), Scalar("None", false, false);
      var a, b, c := DisablingServers(Items([x])), DisablingServers(none), DisablingServers(Items([y]));
      && Merge(Merge(a, b), c) == DisablingServers(Items([y]))
      && Merge(a, Merge(b, c)) == DisablingServers(Items([x, y]))
      && DisablingServers(Items([y])) != DisablingServers(Items([x, y]))
  {
    var x, y, none := Scalar("x", true, true), Scalar("y", true, true), Scalar("None", false, false);
    ServersMerge(Items([x]), none);
    ServersMerge(none, Items([y]));
    ServersMerge(Items([x]), Items([y]));
    assert [y][..0] == [] && x != y;
    assert Union([x], [y]) == [x, y];
    ServersTell(Items([y]), Items([x, y]));
  }

  lemma ServersMerge(p: Setting, q: Setting)
    ensures Merge(DisablingServers(p), DisablingServers(q)) == DisablingServers(Merge(p, q))
  {
    var a, b := DisablingServers(p), DisablingServers(q);
    var inner, other := a.fields["mcp"], b.fields["mcp"];
    assert Merge(inner, other).fields == map["disabledServers" := Merge(p, q)];
    assert Merge(a, b).fields == map["mcp" := Merge(inner, other)];
  }

  lemma ServersTell(p: Setting, q: Setting)
    ensures DisablingServers(p) == DisablingServers(q) ==> p == q
  {
    assert DisablingServers(p).fields["mcp"].fields["disabledServers"] == p;
    assert DisablingServers(q).fields["mcp"].fields["disabledServers"] == q;
  }
}
