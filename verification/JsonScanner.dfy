/** Finding the first balanced {...} in a model's answer, respecting strings and escapes. */
module JsonScanner {
  import opened Wrappers

  // An answer may contain a JSON object, as sections 2 to 7 of RFC 8259 write one, among prose.

  // ----- the scanner

  datatype Scan = Scan(depth: int, inString: bool, escaped: bool)

  function Outside(depth: int): Scan { Scan(depth, false, false) }

  function Step(s: Scan, c: char): Scan {
    if s.inString then
      if s.escaped then s.(escaped := false)
      else if c == '\\' then s.(escaped := true)
      else if c == '"' then s.(inString := false)
      else s
    else if c == '"' then s.(inString := true)
    else if c == '{' then s.(depth := s.depth + 1)
    else if c == '}' then s.(depth := s.depth - 1)
    else s
  }

  /** The scanner's state after reading a whole text. */
  function Run(text: string, s: Scan): Scan {
    if |text| == 0 then s else Step(Run(text[..|text| - 1], s), text[|text| - 1])
  }

  /** Read from start, the brace depth stays positive until it returns to zero at end. */
  ghost predicate Balances(text: string, start: nat, end: nat) {
    && start < end <= |text|
    && text[start] == '{'
    && Run(text[start..end], Outside(0)).depth == 0
    && forall k :: start < k < end ==> Run(text[start..k], Outside(0)).depth > 0
  }

  ghost predicate NeverBalances(text: string, start: nat) {
    forall end: nat :: !Balances(text, start, end)
  }

  /** r is the slice that balances from the earliest brace from which anything balances. */
  ghost predicate IsFirstBalanced(text: string, r: Option<string>) {
    match r
    case Some(slice) =>
      exists start: nat, end: nat ::
        Balances(text, start, end) && slice == text[start..end] && forall k: nat :: k < start ==> NeverBalances(text, k)
    case None => forall k: nat :: NeverBalances(text, k)
  }

  /** text.find("{", from) */
  method FindBrace(text: string, from: nat) returns (r: Option<nat>)
    requires from <= |text|
    ensures match r
            case Some(k) => from <= k < |text| && text[k] == '{' && forall j :: from <= j < k ==> text[j] != '{'
            case None => forall j :: from <= j < |text| ==> text[j] != '{'
  {
    for k := from to |text|
      invariant forall j :: from <= j < k ==> text[j] != '{'
    {
      if text[k] == '{' { return Some(k); }
    }
    r := None;
  }

  /** Reads on from one brace; depth, in_string and escaped are the code's three variables. */
  method BalanceFrom(text: string, start: nat) returns (r: Option<string>)
    requires start < |text| && text[start] == '{'
    ensures match r
            case Some(slice) => exists end: nat :: Balances(text, start, end) && slice == text[start..end]
            case None => NeverBalances(text, start)
  {
    var depth, inString, escaped := 0, false, false;
    for index := start to |text|
      invariant Scan(depth, inString, escaped) == Run(text[start..index], Outside(0))
      invariant forall k :: start < k <= index ==> Run(text[start..k], Outside(0)).depth > 0
    {
      var c := text[index];
      assert text[start..index + 1][..index - start] == text[start..index];
      if inString {
        if escaped {
          escaped := false;
        } else if c == '\\' {
          escaped := true;
        } else if c == '"' {
          inString := false;
        }
      } else if c == '"' {
        inString := true;
      } else if c == '{' {
        depth := depth + 1;
      } else if c == '}' {
        depth := depth - 1;
        if depth == 0 {
          assert Balances(text, start, index + 1);
          return Some(text[start..index + 1]);
        }
      }
      assert index > start ==> Run(text[start..index], Outside(0)).depth > 0;
      assert index == start ==> text[start..index] == [];
    }
    r := None;
  }

  method FirstBalancedObject(text: string) returns (r: Option<string>)
    ensures IsFirstBalanced(text, r)
  {
    var start := FindBrace(text, 0);
    while start.Some?
      invariant start.Some? ==> start.value < |text| && text[start.value] == '{'
      invariant forall k: nat :: k < (if start.Some? then start.value else |text|) ==> NeverBalances(text, k)
      decreases if start.Some? then |text| - start.value else 0
    {
      r := BalanceFrom(text, start.value);
      if r.Some? { return; }
      start := FindBrace(text, start.value + 1);
    }
    r := None;
  }

  lemma {:induction false} RunConcat(a: string, b: string, s: Scan)
    ensures Run(a + b, s) == Run(b, Run(a, s))
    decreases |b|
  {
    if |b| == 0 {
      assert a + b == a;
    } else {
      var n := |b| - 1;
      assert (a + b)[..|a + b| - 1] == a + b[..n];
      RunConcat(a, b[..n], s);
    }
  }

  // ----- JSON texts

  /** One character of a string: itself, a two-character escape, or \uXXXX. */
  datatype Piece = Plain(c: char) | Escape(c: char) | Unicode(h1: char, h2: char, h3: char, h4: char)

  /** A JSON text with its whitespace: the fields called before, after and so on hold only blanks. */
  datatype Json =
    | Scalar(text: string)
    | Text(pieces: seq<Piece>)
    | Array(blank: string, items: Items)
    | Object(blank: string, members: Members)

  datatype Items = NoItems | Item(before: string, value: Json, after: string, rest: Items)

  datatype Members =
    | NoMembers
    | Member(before: string, key: seq<Piece>, beforeColon: string, afterColon: string, value: Json, after: string,
      rest: Members)

  ghost predicate IsBlank(s: string) { forall c :: c in s ==> c in " \t\n\r" }

  /** true, false, null, or a text over the characters that numbers are written with. */
  ghost predicate IsScalar(s: string) {
    s in ["true", "false", "null"] || (|s| > 0 && forall c :: c in s ==> c in "0123456789+-.eE")
  }

  predicate IsHex(c: char) { '0' <= c <= '9' || 'a' <= c <= 'f' || 'A' <= c <= 'F' }

  ghost predicate IsPiece(p: Piece) {
    match p
    case Plain(c) => c != '"' && c != '\\' && c as int >= 0x20
    case Escape(c) => c in "\"\\/bfnrt"
    case Unicode(h1, h2, h3, h4) => IsHex(h1) && IsHex(h2) && IsHex(h3) && IsHex(h4)
  }

  ghost predicate Valid(v: Json) {
    match v
    case Scalar(text) => IsScalar(text)
    case Text(pieces) => forall p :: p in pieces ==> IsPiece(p)
    case Array(blank, items) => IsBlank(blank) && ValidItems(items)
    case Object(blank, members) => IsBlank(blank) && ValidMembers(members)
  }

  ghost predicate ValidItems(items: Items) {
    match items
    case NoItems => true
    case Item(before, value, after, rest) => IsBlank(before) && Valid(value) && IsBlank(after) && ValidItems(rest)
  }

  ghost predicate ValidMembers(members: Members) {
    match members
    case NoMembers => true
    case Member(before, key, beforeColon, afterColon, value, after, rest) =>
      && IsBlank(before) && (forall p :: p in key ==> IsPiece(p)) && IsBlank(beforeColon)
      && IsBlank(afterColon) && Valid(value) && IsBlank(after)
      && ValidMembers(rest)
  }

  function PrintPiece(p: Piece): string {
    match p
    case Plain(c) => [c]
    case Escape(c) => ['\\', c]
    case Unicode(h1, h2, h3, h4) => ['\\', 'u', h1, h2, h3, h4]
  }

  function PrintPieces(pieces: seq<Piece>): string {
    if |pieces| == 0 then "" else PrintPieces(pieces[..|pieces| - 1]) + PrintPiece(pieces[|pieces| - 1])
  }

  function PrintText(pieces: seq<Piece>): string { "\"" + PrintPieces(pieces) + "\"" }

  function Print(v: Json): string {
    match v
    case Scalar(text) => text
    case Text(pieces) => PrintText(pieces)
    case Array(blank, items) => "[" + (blank + PrintItems(items, true)) + "]"
    case Object(blank, members) => "{" + (blank + PrintMembers(members, true)) + "}"
  }

  function Comma(first: bool): string { if first then "" else "," }

  function PrintItems(items: Items, first: bool): string {
    match items
    case NoItems => ""
    case Item(before, value, after, rest) =>
      Comma(first) + before + Print(value) + after + PrintItems(rest, false)
  }

  function PrintMembers(members: Members, first: bool): string {
    match members
    case NoMembers => ""
    case Member(before, key, beforeColon, afterColon, value, after, rest) =>
      Comma(first) + before + PrintText(key) + beforeColon + ":" + afterColon + Print(value) + after
        + PrintMembers(rest, false)
  }

  /** The texts with a comma between each two neighbours. */
  function Joined(texts: seq<string>): string {
    if |texts| == 0 then "" else if |texts| == 1 then texts[0] else texts[0] + "," + Joined(texts[1..])
  }

  function ItemTexts(items: Items): seq<string> {
    match items
    case NoItems => []
    case Item(before, value, after, rest) => [before + Print(value) + after] + ItemTexts(rest)
  }

  function MemberTexts(members: Members): seq<string> {
    match members
    case NoMembers => []
    case Member(before, key, beforeColon, afterColon, value, after, rest) =>
      [before + PrintText(key) + beforeColon + ":" + afterColon + Print(value) + after] + MemberTexts(rest)
  }

  /** Elements are separated by single commas: none before the first, none after the last. */
  lemma {:induction false} ItemsAreJoined(items: Items)
    ensures PrintItems(items, true) == Joined(ItemTexts(items))
    ensures PrintItems(items, false) == if items.NoItems? then "" else "," + Joined(ItemTexts(items))
  {
    match items
    case NoItems =>
    case Item(before, value, after, rest) =>
      ItemsAreJoined(rest);
      assert ItemTexts(items)[1..] == ItemTexts(rest);
  }

  lemma {:induction false} MembersAreJoined(members: Members)
    ensures PrintMembers(members, true) == Joined(MemberTexts(members))
    ensures PrintMembers(members, false) == if members.NoMembers? then "" else "," + Joined(MemberTexts(members))
  {
    match members
    case NoMembers =>
    case Member(before, key, beforeColon, afterColon, value, after, rest) =>
      MembersAreJoined(rest);
      assert MemberTexts(members)[1..] == MemberTexts(rest);
      SetApart("", before, PrintText(key), beforeColon, ":", afterColon, Print(value), after);
      SetApart(",", before, PrintText(key), beforeColon, ":", afterColon, Print(value), after);
      assert "" + MemberTexts(members)[0] == MemberTexts(members)[0];
      PrintedHead(MemberTexts(members)[0], rest);
  }

  lemma PrintedHead(text: string, rest: Members)
    requires PrintMembers(rest, false) == if rest.NoMembers? then "" else "," + Joined(MemberTexts(rest))
    ensures text + PrintMembers(rest, false) == Joined([text] + MemberTexts(rest))
    ensures "," + text + PrintMembers(rest, false) == "," + Joined([text] + MemberTexts(rest))
  {
    assert ([text] + MemberTexts(rest))[1..] == MemberTexts(rest);
  }

  lemma SetApart(x: string, a: string, b: string, c: string, d: string, e: string, f: string, g: string)
    ensures x + a + b + c + d + e + f + g == x + (a + b + c + d + e + f + g)
  {
    assert x + a + b == x + (a + b);
    assert x + (a + b) + c == x + (a + b + c);
    assert x + (a + b + c) + d == x + (a + b + c + d);
    assert x + (a + b + c + d) + e == x + (a + b + c + d + e);
    assert x + (a + b + c + d + e) + f == x + (a + b + c + d + e + f);
  }

  // ----- what the scanner does on them

  /** No prefix of the text takes the depth below low. */
  ghost predicate StaysAbove(text: string, s: Scan, low: int) {
    forall k :: 0 <= k <= |text| ==> Run(text[..k], s).depth >= low
  }

  lemma StaysAboveConcat(a: string, b: string, s: Scan, low: int)
    requires StaysAbove(a, s, low) && StaysAbove(b, Run(a, s), low)
    ensures StaysAbove(a + b, s, low) && Run(a + b, s) == Run(b, Run(a, s))
  {
    RunConcat(a, b, s);
    forall k | 0 <= k <= |a + b| ensures Run((a + b)[..k], s).depth >= low {
      if k <= |a| {
        assert (a + b)[..k] == a[..k];
      } else {
        assert (a + b)[..k] == a + b[..k - |a|];
        RunConcat(a, b[..k - |a|], s);
      }
    }
  }

  lemma OneChar(c: char, s: Scan, low: int)
    requires s.depth >= low && Step(s, c).depth >= low
    ensures Run([c], s) == Step(s, c) && StaysAbove([c], s, low)
  {
    assert [c][..0] == [] && [c][..1] == [c];
  }

  lemma NoChars(s: Scan, low: int)
    requires s.depth >= low
    ensures Run("", s) == s && StaysAbove("", s, low)
  {
  }

  /** Read outside strings, the text never takes the depth below where it found it, and restores it. */
  ghost predicate Neutral(text: string) {
    forall d: int :: Run(text, Outside(d)) == Outside(d) && StaysAbove(text, Outside(d), d)
  }

  lemma NeutralConcat(a: string, b: string)
    requires Neutral(a) && Neutral(b)
    ensures Neutral(a + b)
  {
    forall d: int ensures Run(a + b, Outside(d)) == Outside(d) && StaysAbove(a + b, Outside(d), d) {
      StaysAboveConcat(a, b, Outside(d), d);
    }
  }

  /** Text without quotes and braces does not move the scanner. */
  lemma {:induction false} InertIsNeutral(text: string)
    requires forall c :: c in text ==> c !in "\"{}"
    ensures Neutral(text)
  {
    if |text| != 0 {
      var n := |text| - 1;
      assert text[n] in text;
      InertIsNeutral(text[..n]);
      forall d: int ensures Run([text[n]], Outside(d)) == Outside(d) && StaysAbove([text[n]], Outside(d), d) {
        OneChar(text[n], Outside(d), d);
      }
      NeutralConcat(text[..n], [text[n]]);
      assert text == text[..n] + [text[n]];
    } else {
      forall d: int ensures Run("", Outside(d)) == Outside(d) && StaysAbove("", Outside(d), d) {
        NoChars(Outside(d), d);
      }
    }
  }

  function Inside(depth: int): Scan { Scan(depth, true, false) }

  /** Read inside a string, the text leaves the scanner inside it at the same depth. */
  ghost predicate Contained(text: string) {
    forall d: int :: Run(text, Inside(d)) == Inside(d) && StaysAbove(text, Inside(d), d)
  }

  lemma ContainedConcat(a: string, b: string)
    requires Contained(a) && Contained(b)
    ensures Contained(a + b)
  {
    forall d: int ensures Run(a + b, Inside(d)) == Inside(d) && StaysAbove(a + b, Inside(d), d) {
      StaysAboveConcat(a, b, Inside(d), d);
    }
  }

  lemma OrdinaryCharIsContained(c: char)
    requires c != '"' && c != '\\'
    ensures Contained([c])
  {
    forall d: int ensures Run([c], Inside(d)) == Inside(d) && StaysAbove([c], Inside(d), d) {
      OneChar(c, Inside(d), d);
    }
  }

  lemma EscapePairIsContained(c: char)
    ensures Contained(['\\'] + [c])
  {
    forall d: int ensures Run(['\\'] + [c], Inside(d)) == Inside(d) && StaysAbove(['\\'] + [c], Inside(d), d) {
      OneChar('\\', Inside(d), d);
      OneChar(c, Scan(d, true, true), d);
      StaysAboveConcat(['\\'], [c], Inside(d), d);
    }
  }

  lemma PieceIsContained(p: Piece)
    requires IsPiece(p)
    ensures Contained(PrintPiece(p))
  {
    match p
    case Plain(c) => OrdinaryCharIsContained(c);
    case Escape(c) =>
      EscapePairIsContained(c);
      assert PrintPiece(p) == ['\\'] + [c];
    case Unicode(h1, h2, h3, h4) =>
      HexDigitsAreContained(h1, h2, h3, h4);
      EscapePairIsContained('u');
      ContainedConcat(['\\'] + ['u'], ([h1] + [h2]) + ([h3] + [h4]));
      assert PrintPiece(p) == (['\\'] + ['u']) + (([h1] + [h2]) + ([h3] + [h4]));
  }

  lemma HexDigitsAreContained(h1: char, h2: char, h3: char, h4: char)
    requires IsHex(h1) && IsHex(h2) && IsHex(h3) && IsHex(h4)
    ensures Contained(([h1] + [h2]) + ([h3] + [h4]))
  {
    OrdinaryCharIsContained(h1);
    OrdinaryCharIsContained(h2);
    OrdinaryCharIsContained(h3);
    OrdinaryCharIsContained(h4);
    ContainedConcat([h1], [h2]);
    ContainedConcat([h3], [h4]);
    ContainedConcat([h1] + [h2], [h3] + [h4]);
  }

  lemma {:induction false} PiecesAreContained(pieces: seq<Piece>)
    requires forall p :: p in pieces ==> IsPiece(p)
    ensures Contained(PrintPieces(pieces))
  {
    if |pieces| != 0 {
      var n := |pieces| - 1;
      PiecesAreContained(pieces[..n]);
      PieceIsContained(pieces[n]);
      ContainedConcat(PrintPieces(pieces[..n]), PrintPiece(pieces[n]));
    } else {
      forall d: int ensures Run("", Inside(d)) == Inside(d) && StaysAbove("", Inside(d), d) { NoChars(Inside(d), d); }
    }
  }

  /** A printed string is neutral, whatever braces, quotes and backslashes it holds. */
  lemma TextIsNeutral(pieces: seq<Piece>)
    requires forall p :: p in pieces ==> IsPiece(p)
    ensures Neutral(PrintText(pieces))
  {
    PiecesAreContained(pieces);
    var body := PrintPieces(pieces);
    forall d: int ensures Run(PrintText(pieces), Outside(d)) == Outside(d)
      && StaysAbove(PrintText(pieces), Outside(d), d) {
      OneChar('"', Outside(d), d);
      assert Run("\"", Outside(d)) == Inside(d) && Run(body, Inside(d)) == Inside(d);
      StaysAboveConcat("\"", body, Outside(d), d);
      OneChar('"', Inside(d), d);
      StaysAboveConcat("\"" + body, "\"", Outside(d), d);
    }
  }

  /** An opening brace before neutral text raises the depth for good. */
  lemma OpenRun(body: string, d: int)
    requires Neutral(body)
    ensures Run("{" + body, Outside(d)) == Outside(d + 1) && StaysAbove("{" + body, Outside(d), d)
    ensures forall k :: 0 < k <= |body| + 1 ==> Run(("{" + body)[..k], Outside(d)).depth >= d + 1
  {
    OneChar('{', Outside(d), d);
    assert Run(body, Outside(d + 1)) == Outside(d + 1) && StaysAbove(body, Outside(d + 1), d + 1);
    RunConcat("{", body, Outside(d));
    forall k | 0 < k <= |body| + 1 ensures Run(("{" + body)[..k], Outside(d)).depth >= d + 1 {
      OpenPrefix(body, d, k);
    }
  }

  lemma OpenPrefix(body: string, d: int, k: nat)
    requires StaysAbove(body, Outside(d + 1), d + 1) && 0 < k <= |body| + 1
    ensures Run(("{" + body)[..k], Outside(d)).depth >= d + 1
  {
    OneChar('{', Outside(d), d);
    assert ("{" + body)[..k] == "{" + body[..k - 1];
    RunConcat("{", body[..k - 1], Outside(d));
  }

  /** Braces around neutral text: the depth is raised strictly inside and restored at the end. */
  lemma BracesRun(body: string, d: int)
    requires Neutral(body)
    ensures Run("{" + body + "}", Outside(d)) == Outside(d) && StaysAbove("{" + body + "}", Outside(d), d)
  {
    OpenRun(body, d);
    OneChar('}', Outside(d + 1), d);
    StaysAboveConcat("{" + body, "}", Outside(d), d);
  }

  lemma BracesAreNeutral(body: string)
    requires Neutral(body)
    ensures Neutral("{" + body + "}")
  {
    forall d: int ensures Run("{" + body + "}", Outside(d)) == Outside(d)
      && StaysAbove("{" + body + "}", Outside(d), d) {
      BracesRun(body, d);
    }
  }

  /** Every printed JSON text is neutral. */
  lemma {:induction false} PrintIsNeutral(v: Json)
    requires Valid(v)
    ensures Neutral(Print(v))
    decreases v
  {
    match v
    case Scalar(text) =>
      InertIsNeutral(text);
    case Text(pieces) =>
      TextIsNeutral(pieces);
    case Array(blank, items) =>
      ItemsAreNeutral(items, true);
      BracketsAreNeutral(blank, PrintItems(items, true));
    case Object(blank, members) =>
      BodyIsNeutral(blank, members);
      BracesAreNeutral(blank + PrintMembers(members, true));
  }

  lemma BracketsAreNeutral(blank: string, body: string)
    requires IsBlank(blank) && Neutral(body)
    ensures Neutral("[" + (blank + body) + "]")
  {
    InertIsNeutral("[");
    InertIsNeutral(blank);
    InertIsNeutral("]");
    NeutralConcat(blank, body);
    NeutralConcat("[", blank + body);
    NeutralConcat("[" + (blank + body), "]");
  }

  lemma {:induction false} BodyIsNeutral(blank: string, members: Members)
    requires IsBlank(blank) && ValidMembers(members)
    ensures Neutral(blank + PrintMembers(members, true))
    decreases members, 1
  {
    InertIsNeutral(blank);
    MembersAreNeutral(members, true);
    NeutralConcat(blank, PrintMembers(members, true));
  }

  lemma {:induction false} ItemsAreNeutral(items: Items, first: bool)
    requires ValidItems(items)
    ensures Neutral(PrintItems(items, first))
    decreases items
  {
    match items
    case NoItems => InertIsNeutral("");
    case Item(before, value, after, rest) =>
      PrintIsNeutral(value);
      ItemsAreNeutral(rest, false);
      InertIsNeutral(Comma(first));
      InertIsNeutral(before);
      InertIsNeutral(after);
      NeutralConcat(Comma(first), before);
      NeutralConcat(Comma(first) + before, Print(value));
      NeutralConcat(Comma(first) + before + Print(value), after);
      NeutralConcat(Comma(first) + before + Print(value) + after, PrintItems(rest, false));
  }

  lemma {:induction false} MembersAreNeutral(members: Members, first: bool)
    requires ValidMembers(members)
    ensures Neutral(PrintMembers(members, first))
    decreases members, 0
  {
    match members
    case NoMembers => InertIsNeutral("");
    case Member(before, key, beforeColon, afterColon, value, after, rest) =>
      TextIsNeutral(key);
      PrintIsNeutral(value);
      MembersAreNeutral(rest, false);
      InertIsNeutral(Comma(first));
      InertIsNeutral(before);
      InertIsNeutral(beforeColon);
      InertIsNeutral(":");
      InertIsNeutral(afterColon);
      InertIsNeutral(after);
      var t1 := Comma(first) + before;
      NeutralConcat(Comma(first), before);
      var t2 := t1 + PrintText(key);
      NeutralConcat(t1, PrintText(key));
      var t3 := t2 + beforeColon;
      NeutralConcat(t2, beforeColon);
      var t4 := t3 + ":";
      NeutralConcat(t3, ":");
      var t5 := t4 + afterColon;
      NeutralConcat(t4, afterColon);
      var t6 := t5 + Print(value);
      NeutralConcat(t5, Print(value));
      NeutralConcat(t6, after);
      NeutralConcat(t6 + after, PrintMembers(rest, false));
  }

  // ----- recovering an object from the prose around it

  lemma BalanceIsUnique(text: string, start: nat, a: nat, b: nat)
    requires Balances(text, start, a) && Balances(text, start, b)
    ensures a == b
  {
  }

  /** A slice that balances from a start before which nothing balances is the scanner's only possible answer. */
  lemma FirstBalancedIs(text: string, start: nat, end: nat, r: Option<string>)
    requires Balances(text, start, end) && (forall k: nat :: k < start ==> NeverBalances(text, k))
    requires IsFirstBalanced(text, r)
    ensures r == Some(text[start..end])
  {
    assert !NeverBalances(text, start);
    if r.Some? {
      var s: nat, e: nat :|
        Balances(text, s, e) && r.value == text[s..e] && forall k: nat :: k < s ==> NeverBalances(text, k);
      assert !NeverBalances(text, s);
      BalanceIsUnique(text, start, e, end);
    }
  }

  /**
   * For every JSON object, every prefix without an opening brace and every suffix, the scanner's answer
   * on the whole is exactly the printed object.
   */
  lemma ObjectIsRecovered(prefix: string, v: Json, suffix: string, r: Option<string>)
    requires Valid(v) && v.Object? && '{' !in prefix
    requires IsFirstBalanced(prefix + Print(v) + suffix, r)
    ensures r == Some(Print(v))
  {
    var text, start, end := prefix + Print(v) + suffix, |prefix|, |prefix| + |Print(v)|;
    ObjectBalances(prefix, v, suffix);
    forall k: nat | k < start ensures NeverBalances(text, k) {
      assert text[k] == prefix[k] != '{';
    }
    FirstBalancedIs(text, start, end, r);
    assert text[start..end] == Print(v);
  }

  lemma ObjectBalances(prefix: string, v: Json, suffix: string)
    requires Valid(v) && v.Object?
    ensures Balances(prefix + Print(v) + suffix, |prefix|, |prefix| + |Print(v)|)
  {
    var text, start, end := prefix + Print(v) + suffix, |prefix|, |prefix| + |Print(v)|;
    var body := v.blank + PrintMembers(v.members, true);
    BodyIsNeutral(v.blank, v.members);
    BracesRun(body, 0);
    OpenRun(body, 0);
    assert text[start..end] == Print(v) == "{" + body + "}";
    forall k | start < k < end ensures Run(text[start..k], Outside(0)).depth > 0 {
      assert text[start..k] == ("{" + body)[..k - start];
    }
  }
}
