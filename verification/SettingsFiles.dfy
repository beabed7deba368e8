/** The two settings files and the switches that turn servers and skills off and on in them. */
module SettingsFiles {
  import opened Wrappers
  import opened SettingsTree

  type Fields = map<string, Setting>

  /** A file may be missing, hold no JSON at all, or hold a JSON value. */
  datatype File = Missing | Corrupt | Holds(root: Setting)

  /** Where a list of disabled names lives: a section of the root object, and a list in it. */
  datatype Switch = Switch(section: string, list: string)

  datatype Scope = User | Project

  // ----- names in alphabetical order

  predicate Before(s: string, t: string) {
    |t| > 0 && (|s| == 0 || s[0] < t[0] || (s[0] == t[0] && Before(s[1..], t[1..])))
  }

  lemma {:induction false} BeforeIsTotal(s: string, t: string)
    requires s != t
    ensures Before(s, t) || Before(t, s)
  {
    if |s| > 0 && |t| > 0 && s[0] == t[0] {
      assert s == [s[0]] + s[1..] && t == [t[0]] + t[1..];
      BeforeIsTotal(s[1..], t[1..]);
    }
  }

  lemma {:induction false} BeforeIsTransitive(s: string, t: string, u: string)
    requires Before(s, t) && Before(t, u)
    ensures Before(s, u)
  {
    if |s| > 0 && s[0] == t[0] && t[0] == u[0] { BeforeIsTransitive(s[1..], t[1..], u[1..]); }
  }

  ghost predicate Alphabetical(names: seq<string>) {
    forall i, j :: 0 <= i < j < |names| ==> Before(names[i], names[j])
  }

  function Inserted(names: seq<string>, name: string): seq<string> {
    if |names| == 0 || Before(names[|names| - 1], name) then names + [name]
    else Inserted(names[..|names| - 1], name) + [names[|names| - 1]]
  }

  lemma {:induction false} InsertedIsAlphabetical(names: seq<string>, name: string)
    requires Alphabetical(names) && name !in names
    ensures Alphabetical(Inserted(names, name))
    ensures forall x :: x in Inserted(names, name) <==> (x in names || x == name)
  {
    if |names| == 0 {
    } else if Before(names[|names| - 1], name) {
      forall i | 0 <= i < |names| - 1 ensures Before(names[i], name) {
        BeforeIsTransitive(names[i], names[|names| - 1], name);
      }
    } else {
      var init, last := names[..|names| - 1], names[|names| - 1];
      BeforeIsTotal(name, last);
      InsertedIsAlphabetical(init, name);
      var front := Inserted(init, name);
      forall i | 0 <= i < |front| ensures Before(front[i], last) { assert front[i] in front; }
      assert names == init + [last];
    }
  }

  method SortedNames(names: set<string>) returns (sorted: seq<string>)
    ensures Alphabetical(sorted)
    ensures forall x :: x in sorted <==> x in names
  {
    sorted := [];
    var pending := names;
    while pending != {}
      invariant pending <= names && Alphabetical(sorted)
      invariant forall x :: x in sorted <==> x in names && x !in pending
      decreases pending
    {
      var name :| name in pending;
      InsertedIsAlphabetical(sorted, name);
      sorted := Inserted(sorted, name);
      pending := pending - {name};
    }
  }

  function Quoted(names: seq<string>): (items: seq<Setting>)
    ensures |items| == |names|
    ensures forall i :: 0 <= i < |names| ==> items[i] == Scalar(names[i], true, names[i] != "")
  {
    if |names| == 0 then []
    else Quoted(names[..|names| - 1]) + [Scalar(names[|names| - 1], true, names[|names| - 1] != "")]
  }

  // ----- reading a disable list

  function SectionOf(root: Fields, s: Switch): Fields {
    if s.section in root && root[s.section].Section? then root[s.section].fields else map[]
  }

  function ListOf(root: Fields, s: Switch): seq<Setting> {
    var section := SectionOf(root, s);
    if s.list in section && section[s.list].Items? then section[s.list].items else []
  }

  /** The string entries of the disable list. */
  ghost function Disabled(root: Fields, s: Switch): set<string> {
    set item | item in ListOf(root, s) && item.Scalar? && item.isString :: item.text
  }

  /** The section, the list and its entries have the expected kinds where they are present. */
  ghost predicate WellFormed(root: Fields, s: Switch) {
    && (s.section in root ==> root[s.section].Section?)
    && (s.list in SectionOf(root, s) ==> SectionOf(root, s)[s.list].Items?)
    && forall item :: item in ListOf(root, s) ==> item.Scalar? && item.isString
  }

  predicate Truthy(v: Setting) {
    match v
    case Section(f) => f != map[]
    case Items(i) => i != []
    case Scalar(_, _, truthy) => truthy
  }

  predicate Hashable(items: seq<Setting>) { forall i :: 0 <= i < |items| ==> items[i].Scalar? }

  predicate Mentions(items: seq<Setting>, name: string) {
    exists i :: 0 <= i < |items| && items[i].Scalar? && items[i].isString && items[i].text == name
  }

  /** Whether the merged settings leave a name enabled; a section of another kind has no get method. */
  function IsEnabled(settings: Fields, s: Switch, name: string): Result<bool> {
    if s.section in settings && Truthy(settings[s.section]) && !settings[s.section].Section?
      then Raised("AttributeError")
    else
      var items := ListOf(settings, s);
      if Hashable(items) then Success(!Mentions(items, name)) else Raised("TypeError")
  }

  lemma EnabledMeansNotDisabled(settings: Fields, s: Switch, name: string)
    requires WellFormed(settings, s)
    ensures IsEnabled(settings, s, name) == Success(name !in Disabled(settings, s))
  {
    var items := ListOf(settings, s);
    assert Hashable(items) by {
      forall i | 0 <= i < |items| ensures items[i].Scalar? { assert items[i] in items; }
    }
    if name in Disabled(settings, s) {
      var item :| item in items && item.Scalar? && item.isString && item.text == name;
      var i :| 0 <= i < |items| && items[i] == item;
      assert Mentions(items, name);
    }
    if Mentions(items, name) {
      var i :| 0 <= i < |items| && items[i].Scalar? && items[i].isString && items[i].text == name;
      assert items[i] in items;
    }
  }

  // ----- loading

  /** What a file contributes: nothing unless it holds an object. */
  function Payload(f: File): Fields {
    if f.Holds? && f.root.Section? then f.root.fields else map[]
  }

  /** The later file merged over the earlier one. */
  function Loaded(user: File, project: File): Fields {
    MergedFields(Payload(user), Payload(project))
  }

  /** Whatever the user file holds: a scalar of the project file is loaded as it stands there; and where the project
    * file has nothing and nothing in the way, what is loaded is what the user file has. */
  ghost predicate ProjectOverUser(loaded: Fields, user: Fields, project: Fields) {
    forall path: seq<string> ::
      var own, other := Lookup(Section(project), path), Lookup(Section(user), path);
      && (own.Some? && own.value.Scalar? ==> Lookup(Section(loaded), path) == own)
      && (own.None? && !Blocks(Section(project), path) ==> Lookup(Section(loaded), path) == other)
  }

  lemma LoadedIsProjectOverUser(user: File, project: File)
    ensures ProjectOverUser(Loaded(user, project), Payload(user), Payload(project))
  {
    forall path: seq<string>
      ensures var own, other := Lookup(Section(Payload(project)), path), Lookup(Section(Payload(user)), path);
              var found := Lookup(Section(Loaded(user, project)), path);
              && (own.Some? && own.value.Scalar? ==> found == own)
              && (own.None? && !Blocks(Section(Payload(project)), path) ==> found == other)
    {
      LookupInMerge(Section(Payload(user)), Section(Payload(project)), path);
      LaterScalarsWin(Section(Payload(user)), Section(Payload(project)), path);
    }
  }

  function MergedFields(a: Fields, b: Fields): Fields { Merge(Section(a), Section(b)).fields }

  lemma MergeWithNothing(a: Fields)
    ensures MergedFields(map[], a) == a && MergedFields(a, map[]) == a
  {
  }

  /** A name is disabled once both files are loaded when either file disables it. */
  lemma DisabledAtEitherScope(a: Fields, b: Fields, s: Switch)
    requires WellFormed(a, s) && WellFormed(b, s)
    ensures WellFormed(MergedFields(a, b), s)
    ensures Disabled(MergedFields(a, b), s) == Disabled(a, s) + Disabled(b, s)
  {
    ListsUnite(a, b, s);
    forall item ensures item in ListOf(MergedFields(a, b), s) <==> item in ListOf(a, s) || item in ListOf(b, s) {
      UnionMembers(ListOf(a, s), ListOf(b, s), item);
    }
    forall item | item in ListOf(MergedFields(a, b), s) ensures item.Scalar? && item.isString {
      assert item in ListOf(a, s) || item in ListOf(b, s);
    }
  }

  lemma ListsUnite(a: Fields, b: Fields, s: Switch)
    requires WellFormed(a, s) && WellFormed(b, s)
    ensures var m := MergedFields(a, b);
      && (s.section in m ==> m[s.section].Section?)
      && (s.list in SectionOf(m, s) ==> SectionOf(m, s)[s.list].Items?)
      && forall item :: item in ListOf(m, s) <==> item in Union(ListOf(a, s), ListOf(b, s))
  {
    var m := MergedFields(a, b);
    MergedField(Section(a), Section(b), s.section);
    if s.section in a && s.section in b { MergedField(a[s.section], b[s.section], s.list); }
    forall item ensures item in ListOf(m, s) <==> item in Union(ListOf(a, s), ListOf(b, s)) {
      UnionMembers(ListOf(a, s), ListOf(b, s), item);
    }
  }

  // ----- writing a disable list

  /** str(item) */
  function Shown(repr: Setting -> string, item: Setting): string { if item.Scalar? then item.text else repr(item) }

  function ShownNames(repr: Setting -> string, items: seq<Setting>): set<string> {
    set item | item in items :: Shown(repr, item)
  }

  lemma ShownIsDisabled(repr: Setting -> string, root: Fields, s: Switch)
    requires WellFormed(root, s)
    ensures ShownNames(repr, ListOf(root, s)) == Disabled(root, s)
  {
  }

  /** The list now holds exactly these names in alphabetical order, and nothing else in the file changed. */
  ghost predicate Rewritten(before: Fields, after: Fields, s: Switch, names: set<string>) {
    && SameElsewhere(before, after, s.section)
    && s.section in after && after[s.section].Section?
    && SameElsewhere(SectionOf(before, s), after[s.section].fields, s.list)
    && s.list in after[s.section].fields && HoldsNames(after[s.section].fields[s.list], names)
  }

  ghost predicate HoldsNames(v: Setting, names: set<string>) {
    exists sorted :: Alphabetical(sorted) && (forall x :: x in sorted <==> x in names) && v == Items(Quoted(sorted))
  }

  ghost predicate SameElsewhere(before: Fields, after: Fields, key: string) {
    forall k :: k != key ==> (k in before <==> k in after) && (k in before ==> before[k] == after[k])
  }

  predicate Readable(f: File) { !f.Corrupt? && (f.Holds? ==> f.root.Section?) }

  /** What editing one file does to it, and what it answers. */
  ghost predicate Edited(repr: Setting -> string, before: File, after: File, s: Switch, name: string, enabled: bool,
    createMissing: bool, outcome: Result<()>)
  {
    if enabled && !createMissing && before.Missing? then outcome.Success? && after == before
    else if !Readable(before) then outcome.Raised? && after == before
    else
      var names := ShownNames(repr, ListOf(Payload(before), s));
      && outcome.Success?
      && if enabled && !createMissing && name !in names then after == before
         else && after.Holds? && after.root.Section?
              && Rewritten(Payload(before), Payload(after), s, if enabled then names - {name} else names + {name})
  }

  lemma RewrittenDisables(before: Fields, after: Fields, s: Switch, names: set<string>)
    requires Rewritten(before, after, s, names)
    ensures WellFormed(after, s) && Disabled(after, s) == names
  {
    var items := ListOf(after, s);
    var sorted :| Alphabetical(sorted) && (forall x :: x in sorted <==> x in names) && items == Quoted(sorted);
    forall x ensures x in Disabled(after, s) <==> x in names {
      if x in names {
        var i :| 0 <= i < |sorted| && sorted[i] == x;
        assert items[i] in items;
      }
    }
  }

  /** A file that can be read, with a disable list of the expected kind. */
  ghost predicate Usable(f: File, s: Switch) {
    Readable(f) && WellFormed(Payload(f), s)
  }

  lemma EditedIsUsable(repr: Setting -> string, before: File, after: File, s: Switch, name: string, enabled: bool,
    createMissing: bool, outcome: Result<()>)
    requires Usable(before, s) && Edited(repr, before, after, s, name, enabled, createMissing, outcome)
    ensures outcome.Success? && Usable(after, s)
    ensures var disabled := Disabled(Payload(before), s);
      Disabled(Payload(after), s) == if enabled then disabled - {name} else disabled + {name}
    ensures SameElsewhere(Payload(before), Payload(after), s.section)
    ensures SameElsewhere(SectionOf(Payload(before), s), SectionOf(Payload(after), s), s.list)
  {
    ShownIsDisabled(repr, Payload(before), s);
    var names := Disabled(Payload(before), s);
    if after != before {
      RewrittenDisables(Payload(before), Payload(after), s, if enabled then names - {name} else names + {name});
    } else if after.Holds? && !(enabled && !createMissing && name !in names) {
      RewrittenDisables(Payload(before), Payload(after), s, if enabled then names - {name} else names + {name});
    }
  }

  lemma MergedElsewhere(a: Fields, b: Fields, c: Fields, d: Fields, key: string)
    requires SameElsewhere(a, c, key) && SameElsewhere(b, d, key)
    ensures SameElsewhere(MergedFields(a, b), MergedFields(c, d), key)
  {
    forall k | k != key
      ensures (k in MergedFields(a, b) <==> k in MergedFields(c, d))
           && (k in MergedFields(a, b) ==> MergedFields(a, b)[k] == MergedFields(c, d)[k])
    {
      MergedField(Section(a), Section(b), k);
      MergedField(Section(c), Section(d), k);
    }
  }

  /**
   * Enabling clears the name everywhere, whatever scope is named, and stops at a file it cannot read;
   * disabling writes the named scope only.
   */
  ghost predicate Toggled(repr: Setting -> string, user: File, project: File, userAfter: File, projectAfter: File,
    s: Switch, name: string, enabled: bool, scope: string, outcome: Result<()>)
  {
    if enabled then
      if Readable(user) then
        && Edited(repr, user, userAfter, s, name, true, false, Success(()))
        && Edited(repr, project, projectAfter, s, name, true, false, outcome)
      else outcome.Raised? && userAfter == user && projectAfter == project
    else if scope == "user" then projectAfter == project && Edited(repr, user, userAfter, s, name, false, true, outcome)
    else if scope == "project"
      then userAfter == user && Edited(repr, project, projectAfter, s, name, false, true, outcome)
    else outcome.Raised? && userAfter == user && projectAfter == project
  }

  /**
   * On readable files of the expected kinds: enabling makes the name enabled whatever scope disabled it,
   * disabling at either scope makes it disabled, and nothing else that is loaded changes, neither outside the
   * section nor in it.
   */
  lemma TogglingTakesEffect(repr: Setting -> string, user: File, project: File, userAfter: File, projectAfter: File,
    s: Switch, name: string, enabled: bool, scope: string, outcome: Result<()>)
    requires Usable(user, s) && Usable(project, s)
    requires enabled || scope == "user" || scope == "project"
    requires Toggled(repr, user, project, userAfter, projectAfter, s, name, enabled, scope, outcome)
    ensures outcome.Success? && Usable(userAfter, s) && Usable(projectAfter, s)
    ensures var before, after := Loaded(user, project), Loaded(userAfter, projectAfter);
      && Disabled(after, s) == (if enabled then Disabled(before, s) - {name} else Disabled(before, s) + {name})
      && SameElsewhere(before, after, s.section)
      && SameElsewhere(SectionOf(before, s), SectionOf(after, s), s.list)
  {
    EachFileAnswers(repr, user, project, userAfter, projectAfter, s, name, enabled, scope, outcome);
    LoadedFollows(user, project, userAfter, projectAfter, s, name, enabled, enabled || scope == "user",
      enabled || scope != "user");
  }

  /** When each file follows the switch, so does what is loaded from the two. */
  lemma LoadedFollows(user: File, project: File, userAfter: File, projectAfter: File, s: Switch, name: string,
    enabled: bool, atUser: bool, atProject: bool)
    requires Usable(user, s) && Usable(project, s)
    requires Follows(user, userAfter, s, name, enabled, atUser)
    requires Follows(project, projectAfter, s, name, enabled, atProject)
    requires if enabled then atUser && atProject else atUser || atProject
    ensures var before, after := Loaded(user, project), Loaded(userAfter, projectAfter);
      Disabled(after, s) == Switched(Disabled(before, s), name, enabled, true)
        && SameElsewhere(before, after, s.section)
        && SameElsewhere(SectionOf(before, s), SectionOf(after, s), s.list)
  {
    DisabledAtEitherScope(Payload(user), Payload(project), s);
    DisabledAtEitherScope(Payload(userAfter), Payload(projectAfter), s);
    MergedElsewhere(Payload(user), Payload(project), Payload(userAfter), Payload(projectAfter), s.section);
    SectionsFollow(user, project, userAfter, projectAfter, s);
    NamesFollow(Disabled(Payload(user), s), Disabled(Payload(project), s), name, enabled, atUser, atProject);
  }

  /** The section of a merge is the merge of the sections. */
  lemma SectionOfMerge(a: Fields, b: Fields, s: Switch)
    requires WellFormed(a, s) && WellFormed(b, s)
    ensures SectionOf(MergedFields(a, b), s) == MergedFields(SectionOf(a, s), SectionOf(b, s))
  {
    MergedField(Section(a), Section(b), s.section);
    MergeWithNothing(SectionOf(a, s));
    MergeWithNothing(SectionOf(b, s));
  }

  ghost predicate SameBesideList(before: File, after: File, s: Switch) {
    SameElsewhere(SectionOf(Payload(before), s), SectionOf(Payload(after), s), s.list)
  }

  lemma SectionsFollow(user: File, project: File, userAfter: File, projectAfter: File, s: Switch)
    requires Usable(user, s) && Usable(project, s) && Usable(userAfter, s) && Usable(projectAfter, s)
    requires SameBesideList(user, userAfter, s) && SameBesideList(project, projectAfter, s)
    ensures SameElsewhere(SectionOf(Loaded(user, project), s), SectionOf(Loaded(userAfter, projectAfter), s), s.list)
  {
    SectionOfMerge(Payload(user), Payload(project), s);
    SectionOfMerge(Payload(userAfter), Payload(projectAfter), s);
    MergedElsewhere(SectionOf(Payload(user), s), SectionOf(Payload(project), s),
      SectionOf(Payload(userAfter), s), SectionOf(Payload(projectAfter), s), s.list);
  }

  function Switched(names: set<string>, name: string, enabled: bool, touched: bool): set<string> {
    if !touched then names else if enabled then names - {name} else names + {name}
  }

  lemma NamesFollow(a: set<string>, b: set<string>, name: string, enabled: bool, atA: bool, atB: bool)
    requires if enabled then atA && atB else atA || atB
    ensures Switched(a, name, enabled, atA) + Switched(b, name, enabled, atB) == Switched(a + b, name, enabled, true)
  {
  }

  /** One file, edited when it is among those touched. */
  ghost predicate Follows(before: File, after: File, s: Switch, name: string, enabled: bool, touched: bool) {
    && Usable(after, s) && SameElsewhere(Payload(before), Payload(after), s.section) && SameBesideList(before, after, s)
    && Disabled(Payload(after), s) == Switched(Disabled(Payload(before), s), name, enabled, touched)
  }

  lemma EachFileAnswers(repr: Setting -> string, user: File, project: File, userAfter: File, projectAfter: File,
    s: Switch, name: string, enabled: bool, scope: string, outcome: Result<()>)
    requires Usable(user, s) && Usable(project, s)
    requires enabled || scope == "user" || scope == "project"
    requires Toggled(repr, user, project, userAfter, projectAfter, s, name, enabled, scope, outcome)
    ensures outcome.Success?
    ensures Follows(user, userAfter, s, name, enabled, enabled || scope == "user")
    ensures Follows(project, projectAfter, s, name, enabled, enabled || scope != "user")
  {
    if enabled {
      EditedIsUsable(repr, user, userAfter, s, name, true, false, Success(()));
      EditedIsUsable(repr, project, projectAfter, s, name, true, false, outcome);
    } else if scope == "user" {
      EditedIsUsable(repr, user, userAfter, s, name, false, true, outcome);
    } else {
      EditedIsUsable(repr, project, projectAfter, s, name, false, true, outcome);
    }
  }

  class SettingsStore {
    var user: File
    var project: File
    /** How Python shows a list or an object that stands where a name should. */
    const repr: Setting -> string

    constructor (user: File, project: File, repr: Setting -> string)
      ensures this.user == user && this.project == project && this.repr == repr
    {
      this.user, this.project, this.repr := user, project, repr;
    }

    method Load() returns (settings: Fields)
      ensures settings == Loaded(user, project)
      ensures ProjectOverUser(settings, Payload(user), Payload(project))
    {
      var merged := Section(map[]);
      if user.Holds? && user.root.Section? { merged := DeepMerge(merged, user.root); }
      if project.Holds? && project.root.Section? { merged := DeepMerge(merged, project.root); }
      settings := merged.fields;
      MergeWithNothing(Payload(user));
      MergeWithNothing(Payload(project));
      LoadedIsProjectOverUser(user, project);
    }

    method IsNameEnabled(s: Switch, name: string) returns (answer: Result<bool>)
      ensures answer == IsEnabled(Loaded(user, project), s, name)
      ensures Usable(user, s) && Usable(project, s) ==>
        answer == Success(name !in Disabled(Payload(user), s) && name !in Disabled(Payload(project), s))
    {
      var settings := Load();
      answer := IsEnabled(settings, s, name);
      if Usable(user, s) && Usable(project, s) {
        DisabledAtEitherScope(Payload(user), Payload(project), s);
        EnabledMeansNotDisabled(settings, s, name);
      }
    }

    method EditFile(f: File, s: Switch, name: string, enabled: bool, createMissing: bool)
      returns (outcome: Result<()>, after: File)
      ensures Edited(repr, f, after, s, name, enabled, createMissing, outcome)
    {
      after := f;
      if enabled && !createMissing && f.Missing? { return Success(()), f; }
      if !Readable(f) { return Raised("ValueError"), f; }
      var payload := Payload(f);
      var section := SectionOf(payload, s);
      var disabled := ShownNames(repr, ListOf(payload, s));
      if enabled {
        if !createMissing && name !in disabled { return Success(()), f; }
        disabled := disabled - {name};
      } else {
        disabled := disabled + {name};
      }
      var sorted := SortedNames(disabled);
      section := section[s.list := Items(Quoted(sorted))];
      payload := payload[s.section := Section(section)];
      after := Holds(Section(payload));
      outcome := Success(());
    }

    method SetDisabledItem(scope: Scope, s: Switch, name: string, enabled: bool, createMissing: bool)
      returns (outcome: Result<()>)
      modifies this
      ensures scope.User? ==>
        project == old(project) && Edited(repr, old(user), user, s, name, enabled, createMissing, outcome)
      ensures scope.Project? ==>
        user == old(user) && Edited(repr, old(project), project, s, name, enabled, createMissing, outcome)
    {
      var after: File;
      match scope
      case User =>
        outcome, after := EditFile(user, s, name, enabled, createMissing);
        user := after;
      case Project =>
        outcome, after := EditFile(project, s, name, enabled, createMissing);
        project := after;
    }

    method SetEnabled(s: Switch, name: string, enabled: bool, scope: string) returns (outcome: Result<()>)
      modifies this
      ensures Toggled(repr, old(user), old(project), user, project, s, name, enabled, scope, outcome)
    {
      if enabled {
        outcome := SetDisabledItem(User, s, name, true, false);
        if outcome.Success? { outcome := SetDisabledItem(Project, s, name, true, false); }
      } else if scope == "user" {
        outcome := SetDisabledItem(User, s, name, false, true);
      } else if scope == "project" {
        outcome := SetDisabledItem(Project, s, name, false, true);
      } else {
        outcome := Raised("ValueError");
      }
    }
  }
}
