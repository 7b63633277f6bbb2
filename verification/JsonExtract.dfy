/** Finding a JSON object in prose: extractJSONObject of backend/pkg/llm/parse.go, and
    why it undoes printing. */
module JsonExtract {
  import opened Options

  // ----- what the scanner looks for -----

  /** Brace depth, whether inside a string literal, whether after its backslash. */
  datatype Lex = Lex(depth: int, inString: bool, escaped: bool)

  const OUTSIDE := Lex(0, false, false)

  /** How one character changes the state: only braces outside string literals count. */
  function Read(st: Lex, c: char): Lex {
    if st.escaped then st.(escaped := false)
    else if st.inString then
      if c == '\\' then st.(escaped := true) else if c == '"' then st.(inString := false) else st
    else if c == '"' then st.(inString := true)
    else if c == '{' then st.(depth := st.depth + 1)
    else if c == '}' then st.(depth := st.depth - 1)
    else st
  }

  function Run(st: Lex, s: string): Lex
    decreases |s|
  {
    if s == [] then st else Run(Read(st, s[0]), s[1..])
  }

  /** As many braces open as close, and no string literal is left open. */
  predicate Balanced(s: string) {
    s != [] && Run(OUTSIDE, s) == OUTSIDE
  }

  /** The text starts with an opening brace and balances for the first time at its end. */
  ghost predicate IsObjectText(s: string) {
    s != [] && s[0] == '{' && Balanced(s) && forall k :: 0 < k < |s| ==> !Balanced(s[..k])
  }

  /** What the function returns: the shortest balanced text that starts at the first
      opening brace, or nothing when there is none. */
  ghost predicate IsExtraction(text: string, r: Option<string>) {
    match r
    case Some(found) =>
      exists start :: 0 <= start <= |text| && '{' !in text[..start] && found <= text[start..] && IsObjectText(found)
    case None =>
      forall start, end :: 0 <= start < end <= |text| && '{' !in text[..start] && text[start] == '{' ==>
        !Balanced(text[start..end])
  }

  lemma {:induction false} RunConcat(st: Lex, a: string, b: string)
    ensures Run(st, a + b) == Run(Run(st, a), b)
    decreases |a|
  {
    if a == [] {
      assert a + b == b;
    } else {
      assert (a + b)[1..] == a[1..] + b;
      RunConcat(Read(st, a[0]), a[1..], b);
    }
  }

  lemma RunSnoc(s: string, c: char)
    ensures Run(OUTSIDE, s + [c]) == Read(Run(OUTSIDE, s), c)
  {
    RunConcat(OUTSIDE, s, [c]);
    assert [c][1..] == [];
    assert Run(Run(OUTSIDE, s), [c]) == Run(Read(Run(OUTSIDE, s), c), []);
  }

  // ----- the source's loop -----

  method IndexByte(text: string, c: char) returns (i: int)
    ensures -1 <= i < |text|
    ensures i >= 0 ==> text[i] == c && c !in text[..i]
    ensures i < 0 ==> c !in text
  {
    i := 0;
    while i < |text|
      invariant 0 <= i <= |text| && c !in text[..i]
    {
      if text[i] == c {
        return;
      }
      i := i + 1;
    }
    i := -1;
  }

  method ExtractJSONObject(text: string) returns (r: Option<string>)
    ensures IsExtraction(text, r)
  {
    var start := IndexByte(text, '{');
    if start < 0 {
      return None;
    }
    var depth, inString, escaped := 0, false, false;
    var i := start;
    while i < |text|
      invariant start <= i <= |text|
      invariant Run(OUTSIDE, text[start..i]) == Lex(depth, inString, escaped)
      invariant i > start ==> depth > 0
      invariant forall k :: start < k <= i ==> !Balanced(text[start..k])
    {
      var ch := text[i];
      assert text[start..i + 1] == text[start..i] + [ch];
      RunSnoc(text[start..i], ch);
      i := i + 1;
      if escaped {
        escaped := false;
        continue;
      }
      if ch == '\\' && inString {
        escaped := true;
        continue;
      }
      if ch == '"' {
        inString := !inString;
        continue;
      }
      if inString {
        continue;
      }
      if ch == '{' {
        depth := depth + 1;
      } else if ch == '}' {
        depth := depth - 1;
        if depth == 0 {
          FoundIsShortest(text, start, i);
          return Some(text[start..i]);
        }
      }
    }
    NothingBalances(text, start);
    return None;
  }

  lemma FoundIsShortest(text: string, start: nat, end: nat)
    requires start < end <= |text| && '{' !in text[..start] && text[start] == '{' && Balanced(text[start..end])
    requires forall k :: start < k < end ==> !Balanced(text[start..k])
    ensures IsExtraction(text, Some(text[start..end]))
  {
    forall k | 0 < k < end - start
      ensures !Balanced(text[start..end][..k])
    {
      assert text[start..end][..k] == text[start..start + k];
    }
    assert text[start..end] <= text[start..];
  }

  lemma NothingBalances(text: string, start: nat)
    requires start < |text| && '{' !in text[..start] && text[start] == '{'
    requires forall k :: start < k <= |text| ==> !Balanced(text[start..k])
    ensures IsExtraction(text, None)
  {
    forall s, end | 0 <= s < end <= |text| && '{' !in text[..s] && text[s] == '{'
      ensures !Balanced(text[s..end])
    {
      FirstIsUnique(text, s, start);
    }
  }

  lemma FirstIsUnique(text: string, s: nat, t: nat)
    requires s < |text| && t < |text| && text[s] == '{' && text[t] == '{'
    requires '{' !in text[..s] && '{' !in text[..t]
    ensures s == t
  {
    AbsentBefore(text, s, t);
    AbsentBefore(text, t, s);
  }

  lemma AbsentBefore(text: string, s: nat, k: nat)
    requires s <= |text| && k < |text| && '{' !in text[..s]
    ensures k < s ==> text[k] != '{'
  {
    assert forall c :: c !in text[..s] ==> k < s ==> text[..s][k] != c;
  }

  lemma PrefixesAgree(a: string, b: string, whole: string)
    requires a <= whole && b <= whole
    ensures |a| <= |b| ==> b[..|a|] == a
    ensures |b| <= |a| ==> a[..|b|] == b
  {
  }

  /** The contract leaves no choice. */
  lemma ExtractionIsUnique(text: string, r: Option<string>, r': Option<string>)
    requires IsExtraction(text, r) && IsExtraction(text, r')
    ensures r == r'
  {
    if r.Some? && r'.Some? {
      SameExtraction(text, r.value, r'.value);
    } else if r.Some? {
      NotNone(text, r.value);
    } else if r'.Some? {
      NotNone(text, r'.value);
    }
  }

  lemma SameExtraction(text: string, a: string, b: string)
    requires IsExtraction(text, Some(a)) && IsExtraction(text, Some(b))
    ensures a == b
  {
    var s :| 0 <= s <= |text| && '{' !in text[..s] && a <= text[s..] && IsObjectText(a);
    var t :| 0 <= t <= |text| && '{' !in text[..t] && b <= text[t..] && IsObjectText(b);
    assert text[s] == a[0] && text[t] == b[0];
    FirstIsUnique(text, s, t);
    PrefixesAgree(a, b, text[s..]);
  }

  lemma NotNone(text: string, a: string)
    requires IsExtraction(text, Some(a))
    ensures !IsExtraction(text, None)
  {
    var s :| 0 <= s <= |text| && '{' !in text[..s] && a <= text[s..] && IsObjectText(a);
    assert text[s] == a[0] && text[s..s + |a|] == a;
  }

  // ----- printing JSON: RFC 8259, sections 2, 4, 5 and 7 -----

  /** A character of a string literal: itself, a two-character escape, or \uXXXX. */
  datatype StringChar = Plain(c: char) | Escaped(c: char) | Unicode(h1: char, h2: char, h3: char, h4: char)

  /** Values with the white space around their structural characters. */
  datatype Json =
    | Scalar(text: string)
    | Text(chars: seq<StringChar>)
    | Array(lead: string, items: Items)
    | Object(lead: string, members: Members)

  datatype Items =
    | NoItems
    | LastItem(value: Json, after: string)
    | Item(value: Json, after: string, before: string, rest: Items)

  datatype Members =
    | NoMembers
    | LastMember(name: seq<StringChar>, afterName: string, beforeValue: string, value: Json, after: string)
    | Member(name: seq<StringChar>, afterName: string, beforeValue: string, value: Json, after: string,
        before: string, rest: Members)

  predicate White(s: string) {
    forall c :: c in s ==> c in {' ', '\t', '\n', '\r'}
  }

  predicate Hex(c: char) {
    '0' <= c <= '9' || 'a' <= c <= 'f' || 'A' <= c <= 'F'
  }

  predicate ValidChar(ch: StringChar) {
    match ch
    case Plain(c) => c >= ' ' && c != '"' && c != '\\'
    case Escaped(c) => c in {'"', '\\', '/', 'b', 'f', 'n', 'r', 't'}
    case Unicode(h1, h2, h3, h4) => Hex(h1) && Hex(h2) && Hex(h3) && Hex(h4)
  }

  predicate ValidChars(chars: seq<StringChar>) {
    forall ch :: ch in chars ==> ValidChar(ch)
  }

  /** A literal name or the characters of a number. */
  predicate ScalarText(s: string) {
    || s in {"true", "false", "null"}
    || (s != [] && forall c :: c in s ==> '0' <= c <= '9' || c in {'+', '-', '.', 'e', 'E'})
  }

  predicate Valid(v: Json) {
    match v
    case Scalar(s) => ScalarText(s)
    case Text(chars) => ValidChars(chars)
    case Array(lead, items) => White(lead) && ValidItems(items)
    case Object(lead, members) => White(lead) && ValidMembers(members)
  }

  predicate ValidItems(items: Items) {
    match items
    case NoItems => true
    case LastItem(v, after) => Valid(v) && White(after)
    case Item(v, after, before, rest) => Valid(v) && White(after) && White(before) && !rest.NoItems? && ValidItems(rest)
  }

  predicate ValidMembers(members: Members) {
    match members
    case NoMembers => true
    case LastMember(name, w1, w2, v, after) => ValidChars(name) && White(w1) && White(w2) && Valid(v) && White(after)
    case Member(name, w1, w2, v, after, before, rest) =>
      && ValidChars(name) && White(w1) && White(w2) && Valid(v)
      && White(after) && White(before) && !rest.NoMembers? && ValidMembers(rest)
  }

  function PrintChar(ch: StringChar): string {
    match ch
    case Plain(c) => [c]
    case Escaped(c) => ['\\', c]
    case Unicode(h1, h2, h3, h4) => ['\\', 'u', h1, h2, h3, h4]
  }

  function PrintChars(chars: seq<StringChar>): string {
    if chars == [] then "" else PrintChar(chars[0]) + PrintChars(chars[1..])
  }

  function PrintString(chars: seq<StringChar>): string {
    "\"" + (PrintChars(chars) + "\"")
  }

  function Print(v: Json): string {
    match v
    case Scalar(s) => s
    case Text(chars) => PrintString(chars)
    case Array(lead, items) => "[" + (lead + (PrintItems(items) + "]"))
    case Object(lead, members) => "{" + (lead + (PrintMembers(members) + "}"))
  }

  function PrintItems(items: Items): string {
    match items
    case NoItems => ""
    case LastItem(v, after) => Print(v) + after
    case Item(v, after, before, rest) => Print(v) + (after + ("," + (before + PrintItems(rest))))
  }

  function PrintMembers(members: Members): string {
    match members
    case NoMembers => ""
    case LastMember(name, w1, w2, v, after) => PrintString(name) + (w1 + (":" + (w2 + (Print(v) + after))))
    case Member(name, w1, w2, v, after, before, rest) =>
      PrintString(name) + (w1 + (":" + (w2 + (Print(v) + (after + ("," + (before + PrintMembers(rest))))))))
  }

  // ----- printed values are neutral -----

  /** Reading s from state st never goes below depth d. */
  predicate Above(st: Lex, s: string, d: int)
    decreases |s|
  {
    st.depth >= d && (s == [] || Above(Read(st, s[0]), s[1..], d))
  }

  lemma {:induction false} AboveConcat(st: Lex, a: string, b: string, d: int)
    requires Above(st, a, d) && Above(Run(st, a), b, d)
    ensures Above(st, a + b, d)
    decreases |a|
  {
    if a == [] {
      assert a + b == b;
    } else {
      assert (a + b)[1..] == a[1..] + b;
      AboveConcat(Read(st, a[0]), a[1..], b, d);
    }
  }

  lemma {:induction false} AbovePrefix(st: Lex, s: string, d: int, k: nat)
    requires Above(st, s, d) && k <= |s|
    ensures Run(st, s[..k]).depth >= d
    decreases |s|
  {
    if k > 0 {
      assert s[..k][1..] == s[1..][..k - 1];
      AbovePrefix(Read(st, s[0]), s[1..], d, k - 1);
    }
  }

  /** Read at depth d outside strings, s leaves the state as it was and stays at depth d or deeper. */
  predicate Neutral(s: string, d: int) {
    Run(Lex(d, false, false), s) == Lex(d, false, false) && Above(Lex(d, false, false), s, d)
  }

  lemma NeutralConcat(a: string, b: string, d: int)
    requires Neutral(a, d) && Neutral(b, d)
    ensures Neutral(a + b, d)
  {
    RunConcat(Lex(d, false, false), a, b);
    AboveConcat(Lex(d, false, false), a, b, d);
  }

  lemma {:induction false} InertNeutral(s: string, d: int)
    requires forall c :: c in s ==> c !in {'"', '{', '}'}
    ensures Neutral(s, d)
  {
    if s != [] {
      assert s[0] in s;
      assert forall c :: c in s[1..] ==> c in s;
      InertNeutral(s[1..], d);
    }
  }

  /** The same inside a string literal. */
  predicate NeutralInString(s: string, d: int) {
    Run(Lex(d, true, false), s) == Lex(d, true, false) && Above(Lex(d, true, false), s, d)
  }

  lemma CharNeutral(ch: StringChar, d: int)
    requires ValidChar(ch)
    ensures NeutralInString(PrintChar(ch), d)
  {
    var st := Lex(d, true, false);
    match ch
    case Plain(c) =>
      PlainRun([c], d);
    case Escaped(c) =>
      assert ['\\', c][1..] == [c] && [c][1..] == [];
      assert Run(st.(escaped := true), [c]) == Run(st, []);
      assert Above(st.(escaped := true), [c], d);
    case Unicode(h1, h2, h3, h4) =>
      var rest := [h1, h2, h3, h4];
      assert ['\\', 'u', h1, h2, h3, h4][1..] == ['u'] + rest && (['u'] + rest)[1..] == rest;
      PlainRun(rest, d);
      assert Run(st.(escaped := true), ['u'] + rest) == Run(st, rest);
      assert Above(st.(escaped := true), ['u'] + rest, d);
  }

  lemma {:induction false} PlainRun(s: string, d: int)
    requires forall c :: c in s ==> c != '"' && c != '\\'
    ensures NeutralInString(s, d)
  {
    if s != [] {
      assert s[0] in s;
      assert forall c :: c in s[1..] ==> c in s;
      PlainRun(s[1..], d);
    }
  }

  lemma {:induction false} CharsNeutral(chars: seq<StringChar>, d: int)
    requires ValidChars(chars)
    ensures NeutralInString(PrintChars(chars), d)
  {
    if chars != [] {
      assert chars[0] in chars;
      assert forall ch :: ch in chars[1..] ==> ch in chars;
      CharNeutral(chars[0], d);
      CharsNeutral(chars[1..], d);
      var st := Lex(d, true, false);
      RunConcat(st, PrintChar(chars[0]), PrintChars(chars[1..]));
      AboveConcat(st, PrintChar(chars[0]), PrintChars(chars[1..]), d);
    }
  }

  lemma StringNeutral(chars: seq<StringChar>, d: int)
    requires ValidChars(chars)
    ensures Neutral(PrintString(chars), d)
  {
    CharsNeutral(chars, d);
    var body := PrintChars(chars);
    var st := Lex(d, true, false);
    RunConcat(st, body, "\"");
    assert "\""[1..] == "";
    assert Run(st, "\"") == Run(Lex(d, false, false), "");
    assert Above(st, "\"", d);
    AboveConcat(st, body, "\"", d);
    assert PrintString(chars)[1..] == body + "\"";
  }

  lemma {:induction false} ValueNeutral(v: Json, d: int)
    requires Valid(v)
    ensures Neutral(Print(v), d)
    decreases v
  {
    match v
    case Scalar(s) => InertNeutral(s, d);
    case Text(chars) => StringNeutral(chars, d);
    case Array(lead, items) =>
      ItemsNeutral(items, d);
      InertNeutral("[", d);
      InertNeutral(lead, d);
      InertNeutral("]", d);
      NeutralConcat(PrintItems(items), "]", d);
      NeutralConcat(lead, PrintItems(items) + "]", d);
      NeutralConcat("[", lead + (PrintItems(items) + "]"), d);
    case Object(lead, members) =>
      MembersNeutral(members, d + 1);
      InertNeutral(lead, d + 1);
      NeutralConcat(lead, PrintMembers(members), d + 1);
      Braces(lead + PrintMembers(members), d);
      assert Print(v) == "{" + ((lead + PrintMembers(members)) + "}");
  }

  /** Braces around something neutral one level deeper. */
  lemma Braces(inner: string, d: int)
    requires Neutral(inner, d + 1)
    ensures Neutral("{" + (inner + "}"), d)
    ensures forall k :: 0 < k <= |inner| + 1 ==> Run(Lex(d, false, false), ("{" + (inner + "}"))[..k]).depth > d
  {
    var st, deeper := Lex(d, false, false), Lex(d + 1, false, false);
    var s := "{" + (inner + "}");
    assert s[1..] == inner + "}";
    RunConcat(deeper, inner, "}");
    assert "}"[1..] == "";
    assert Run(deeper, "}") == Run(st, "");
    AboveWeaken(deeper, inner, d + 1, d);
    assert Above(deeper, "}", d);
    AboveConcat(deeper, inner, "}", d);
    forall k | 0 < k <= |inner| + 1
      ensures Run(st, s[..k]).depth > d
    {
      assert s[..k][1..] == inner[..k - 1];
      AbovePrefix(deeper, inner, d + 1, k - 1);
    }
  }

  lemma {:induction false} AboveWeaken(st: Lex, s: string, d: int, d': int)
    requires Above(st, s, d) && d' <= d
    ensures Above(st, s, d')
    decreases |s|
  {
    if s != [] {
      AboveWeaken(Read(st, s[0]), s[1..], d, d');
    }
  }

  lemma {:induction false} ItemsNeutral(items: Items, d: int)
    requires ValidItems(items)
    ensures Neutral(PrintItems(items), d)
    decreases items
  {
    match items
    case NoItems => InertNeutral("", d);
    case LastItem(v, after) =>
      ValueNeutral(v, d);
      InertNeutral(after, d);
      NeutralConcat(Print(v), after, d);
    case Item(v, after, before, rest) =>
      ValueNeutral(v, d);
      ItemsNeutral(rest, d);
      SeparatorNeutral(after, ",", before, PrintItems(rest), d);
      NeutralConcat(Print(v), after + ("," + (before + PrintItems(rest))), d);
  }

  /** White space, a comma or colon, white space, and something neutral. */
  lemma SeparatorNeutral(w1: string, sep: string, w2: string, rest: string, d: int)
    requires White(w1) && White(w2) && sep in {",", ":"} && Neutral(rest, d)
    ensures Neutral(w1 + (sep + (w2 + rest)), d)
  {
    InertNeutral(w1, d);
    InertNeutral(sep, d);
    InertNeutral(w2, d);
    NeutralConcat(w2, rest, d);
    NeutralConcat(sep, w2 + rest, d);
    NeutralConcat(w1, sep + (w2 + rest), d);
  }

  lemma {:induction false} MembersNeutral(members: Members, d: int)
    requires ValidMembers(members)
    ensures Neutral(PrintMembers(members), d)
    decreases members
  {
    match members
    case NoMembers => InertNeutral("", d);
    case LastMember(name, w1, w2, v, after) =>
      ValueNeutral(v, d);
      StringNeutral(name, d);
      InertNeutral(after, d);
      NeutralConcat(Print(v), after, d);
      SeparatorNeutral(w1, ":", w2, Print(v) + after, d);
      NeutralConcat(PrintString(name), w1 + (":" + (w2 + (Print(v) + after))), d);
    case Member(name, w1, w2, v, after, before, rest) =>
      ValueNeutral(v, d);
      StringNeutral(name, d);
      MembersNeutral(rest, d);
      var tail := after + ("," + (before + PrintMembers(rest)));
      SeparatorNeutral(after, ",", before, PrintMembers(rest), d);
      NeutralConcat(Print(v), tail, d);
      SeparatorNeutral(w1, ":", w2, Print(v) + tail, d);
      NeutralConcat(PrintString(name), w1 + (":" + (w2 + (Print(v) + tail))), d);
  }

  /** A printed object is a balanced text none of whose proper prefixes is balanced. */
  lemma PrintedObjectText(o: Json)
    requires Valid(o) && o.Object?
    ensures IsObjectText(Print(o))
  {
    var inner := o.lead + PrintMembers(o.members);
    MembersNeutral(o.members, 1);
    InertNeutral(o.lead, 1);
    NeutralConcat(o.lead, PrintMembers(o.members), 1);
    Braces(inner, 0);
    assert Print(o) == "{" + (inner + "}");
    ValueNeutral(o, 0);
  }

  /** Exactly when the printed object is what comes out: when it starts at the first
      opening brace of the text. */
  lemma ExtractsObjectIff(text: string, first: nat, o: Json, r: Option<string>)
    requires first < |text| && text[first] == '{' && '{' !in text[..first]
    requires Valid(o) && o.Object? && IsExtraction(text, r)
    ensures r == Some(Print(o)) <==> Print(o) <= text[first..]
  {
    PrintedObjectText(o);
    if Print(o) <= text[first..] {
      assert IsExtraction(text, Some(Print(o)));
      ExtractionIsUnique(text, r, Some(Print(o)));
    }
    if r == Some(Print(o)) {
      var s :| 0 <= s <= |text| && '{' !in text[..s] && Print(o) <= text[s..] && IsObjectText(Print(o));
      assert text[s] == Print(o)[0];
      FirstIsUnique(text, s, first);
    }
  }

  /** Extraction undoes printing: from any prose around a printed object, as long as no
      opening brace comes before it, exactly the printed object is returned. */
  lemma ExtractUndoesPrint(before: string, o: Json, after: string, r: Option<string>)
    requires Valid(o) && o.Object? && '{' !in before
    requires IsExtraction(before + Print(o) + after, r)
    ensures r == Some(Print(o))
  {
    var text := before + Print(o) + after;
    assert text[..|before|] == before;
    assert text[|before|..] == Print(o) + after;
    ExtractsObjectIff(text, |before|, o, r);
  }

  /** A brace in the prose before the object does break it: nothing, or something else, is found. */
  lemma BraceBeforeObjectBreaksIt(r: Option<string>)
    requires IsExtraction("{ {}", r)
    ensures r == None && IsObjectText("{}")
  {
    var text := "{ {}";
    assert Run(OUTSIDE, "{}") == OUTSIDE by {
      assert "{}"[1..] == "}" && "}"[1..] == "";
    }
    assert "{}"[..1] == "{" && Run(OUTSIDE, "{") == Lex(1, false, false) by {
      assert "{"[1..] == "";
    }
    forall start, end | 0 <= start < end <= |text| && '{' !in text[..start] && text[start] == '{'
      ensures !Balanced(text[start..end])
    {
      AbsentBefore(text, start, 0);
      UnclosedPrefix(end);
    }
    ExtractionIsUnique(text, r, None);
  }

  lemma UnclosedPrefix(end: nat)
    requires 0 < end <= 4
    ensures !Balanced("{ {}"[0..end])
  {
    var s := "{ {}";
    assert Above(Lex(1, false, false), " {}", 1) by {
      assert " {}"[1..] == "{}" && "{}"[1..] == "}" && "}"[1..] == "";
      assert Above(Lex(1, false, false), "", 1);
      assert Above(Lex(2, false, false), "}", 1);
      assert Above(Lex(1, false, false), "{}", 1);
    }
    AbovePrefix(Lex(1, false, false), " {}", 1, end - 1);
    assert s[0..end][1..] == " {}"[..end - 1];
  }
}
