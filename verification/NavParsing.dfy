/** The printed block read back as TOML v1.0.0: the String, Array and Inline Table sections, restricted
    to what can occur in a navigation (strings, arrays, inline tables of one pair). */
module NavParsing {
  import opened Prelude
  import opened Strings
  import opened NavToml
  import opened NavReplacement

  datatype Toml = Str(text: string) | Arr(items: seq<Toml>) | Pair(key: string, value: Toml)

  // ----- The grammar

  /** Characters a basic string may not contain unescaped. */
  predicate IsControl(c: char) {
    c <= '\U{8}' || '\n' <= c <= '\U{1F}' || c == '\U{7F}'
  }

  /** The simple escapes; those by code point are not needed here. */
  function Unescape(c: char): Option<char> {
    match c
    case 'b' => Some('\U{8}')
    case 't' => Some('\t')
    case 'n' => Some('\n')
    case 'f' => Some('\U{C}')
    case 'r' => Some('\r')
    case '"' => Some('"')
    case '\\' => Some('\\')
    case _ => None
  }

  function Cons(c: char, r: Option<(string, string)>): Option<(string, string)> {
    match r
    case None => None
    case Some(p) => Some(([c] + p.0, p.1))
  }

  /** A basic string, after its opening quote. */
  function ParseString(s: string): (r: Option<(string, string)>)
    ensures r.Some? ==> |r.value.1| < |s|
  {
    if s == "" then None
    else if s[0] == '"' then Some(("", s[1..]))
    else if s[0] == '\\' then
      if |s| == 1 || Unescape(s[1]).None? then None else Cons(Unescape(s[1]).value, ParseString(s[2..]))
    else if IsControl(s[0]) then None
    else Cons(s[0], ParseString(s[1..]))
  }

  predicate StartsWith(s: string, c: char) {
    s != "" && s[0] == c
  }

  function SkipWs(s: string): (r: string)
    ensures |r| <= |s|
  {
    if StartsWith(s, ' ') || StartsWith(s, '\t') then SkipWs(s[1..]) else s
  }

  /** Whitespace, newlines and comments, between the elements of an array. */
  function SkipBlank(s: string): (r: string)
    ensures |r| <= |s|
    decreases |s|
  {
    if StartsWith(s, ' ') || StartsWith(s, '\t') || StartsWith(s, '\n') then SkipBlank(s[1..])
    else if |s| > 1 && s[..2] == "\r\n" then SkipBlank(s[2..])
    else if StartsWith(s, '#') then SkipBlank(AfterComment(s[1..]))
    else s
  }

  function ParseValue(s: string): (r: Option<(Toml, string)>)
    ensures r.Some? ==> |r.value.1| < |s|
    decreases |s|, 0
  {
    if StartsWith(s, '"') then
      match ParseString(s[1..])
      case None => None
      case Some(p) => Some((Str(p.0), p.1))
    else if StartsWith(s, '[') then
      match ParseItems(s[1..])
      case None => None
      case Some(p) => Some((Arr(p.0), p.1))
    else if StartsWith(s, '{') then ParsePair(s[1..])
    else None
  }

  /** The elements of an array, after its bracket or a comma. */
  function ParseItems(s: string): (r: Option<(seq<Toml>, string)>)
    ensures r.Some? ==> |r.value.1| < |s|
    decreases |s|, 1
  {
    var t := SkipBlank(s);
    if StartsWith(t, ']') then Some(([], t[1..]))
    else
      match ParseValue(t)
      case None => None
      case Some(p) =>
        var u := SkipBlank(p.1);
        if StartsWith(u, ',') then Prepend([p.0], ParseItems(u[1..]))
        else if StartsWith(u, ']') then Some(([p.0], u[1..]))
        else None
  }

  function Prepend(front: seq<Toml>, r: Option<(seq<Toml>, string)>): Option<(seq<Toml>, string)> {
    match r
    case None => None
    case Some(p) => Some((front + p.0, p.1))
  }

  /** An inline table of one pair with a quoted key, after its brace. */
  function ParsePair(s: string): (r: Option<(Toml, string)>)
    ensures r.Some? ==> |r.value.1| < |s|
    decreases |s|, 0
  {
    var t := SkipWs(s);
    if !StartsWith(t, '"') then None
    else
      match ParseString(t[1..])
      case None => None
      case Some(key) => ParsePairValue(key.0, SkipWs(key.1))
  }

  function ParsePairValue(key: string, s: string): (r: Option<(Toml, string)>)
    ensures r.Some? ==> |r.value.1| < |s|
    decreases |s|, 0
  {
    if !StartsWith(s, '=') then None
    else
      match ParseValue(SkipWs(s[1..]))
      case None => None
      case Some(p) =>
        var u := SkipWs(p.1);
        if StartsWith(u, '}') then Some((Pair(key, p.0), u[1..])) else None
  }

  /** The `nav` assignment, and nothing after it. */
  function ParseNav(s: string): Option<Toml> {
    if !("nav" <= s) then None
    else
      var t := SkipWs(s[3..]);
      if !StartsWith(t, '=') then None
      else
        match ParseValue(SkipWs(t[1..]))
        case None => None
        case Some(p) => if p.1 == "" then Some(p.0) else None
  }

  // ----- What the items mean

  predicate Clean(s: string) {
    forall i | 0 <= i < |s| :: !IsControl(s[i])
  }

  /** The values an item list stands for, or none when a string cannot be written. */
  function Meaning(items: seq<Item>): Option<seq<Toml>>
    decreases items
  {
    if |items| == 0 then Some([]) else Then(ItemMeaning(items[0]), Meaning(items[1..]))
  }

  function Then(a: Option<seq<Toml>>, b: Option<seq<Toml>>): Option<seq<Toml>> {
    if a.None? || b.None? then None else Some(a.value + b.value)
  }

  function One(v: Option<Toml>): Option<seq<Toml>> {
    if v.None? then None else Some([v.value])
  }

  /** A page is a string; a mapping is one table for each of its printable entries. */
  function ItemMeaning(item: Item): Option<seq<Toml>>
    decreases item
  {
    match item
    case Page(path) => One(Written(path))
    case Section(entries) => EntriesMeaning(entries)
    case Skipped => Some([])
  }

  function EntriesMeaning(entries: seq<Entry>): Option<seq<Toml>>
    decreases entries
  {
    if |entries| == 0 then Some([]) else Then(EntryMeaning(entries[0]), EntriesMeaning(entries[1..]))
  }

  function EntryMeaning(entry: Entry): Option<seq<Toml>>
    decreases entry, 1
  {
    if entry.value.Unprintable? then Some([]) else One(TableOf(entry.title, ValueMeaning(entry.value)))
  }

  function TableOf(title: string, value: Option<Toml>): Option<Toml> {
    if !Clean(title) || value.None? then None else Some(Pair(title, value.value))
  }

  function ValueMeaning(value: Target): Option<Toml>
    requires !value.Unprintable?
    decreases value
  {
    match value
    case Link(path) => Written(path)
    case Children(items) => Listed(Meaning(items))
  }

  function Written(s: string): Option<Toml> {
    if Clean(s) then Some(Str(s)) else None
  }

  function Listed(items: Option<seq<Toml>>): Option<Toml> {
    if items.None? then None else Some(Arr(items.value))
  }

  // ----- What the printed texts parse to

  ghost predicate Reads(p: string, v: Option<Toml>) {
    forall tail: string :: ParseValue(p + tail) == if v.None? then None else Some((v.value, tail))
  }

  /** In front of more elements, `p` gives the elements `es`, or makes the array fail. */
  ghost predicate Yields(p: string, es: Option<seq<Toml>>) {
    forall tail: string :: ParseItems(p + tail) == After(es, ParseItems(tail))
  }

  function After(es: Option<seq<Toml>>, r: Option<(seq<Toml>, string)>): Option<(seq<Toml>, string)> {
    if es.None? then None else Prepend(es.value, r)
  }

  lemma AfterNothing(r: Option<(seq<Toml>, string)>)
    ensures After(Some([]), r) == r
  {
    assert r.Some? ==> [] + r.value.0 == r.value.0;
  }

  lemma AfterBoth(x: Option<seq<Toml>>, y: Option<seq<Toml>>, r: Option<(seq<Toml>, string)>)
    ensures After(Then(x, y), r) == After(x, After(y, r))
  {
    if x.Some? && y.Some? && r.Some? {
      assert x.value + (y.value + r.value.0) == x.value + y.value + r.value.0;
    }
  }

  lemma {:induction false} StringRead(s: string, tail: string)
    ensures ParseString(Escaped(s) + ("\"" + tail)) == if Clean(s) then Some((s, tail)) else None
  {
    var text := Escaped(s) + ("\"" + tail);
    if s == "" {
      assert text == "\"" + tail;
    } else {
      StringRead(s[1..], tail);
      var more := Escaped(s[1..]) + ("\"" + tail);
      CleanStep(s);
      assert text == EscapeChar(s[0]) + more;
      if s[0] == '\\' || s[0] == '"' {
        assert text[2..] == more && text[1] == s[0];
      } else {
        assert text[1..] == more && text[0] == s[0];
      }
      assert s == [s[0]] + s[1..];
    }
  }

  lemma CleanStep(s: string)
    requires s != ""
    ensures Clean(s) <==> !IsControl(s[0]) && Clean(s[1..])
  {
    if !IsControl(s[0]) && Clean(s[1..]) {
      forall i | 0 <= i < |s| ensures !IsControl(s[i]) {
        assert i > 0 ==> s[i] == s[1..][i - 1];
      }
    }
  }

  lemma QuotedReads(s: string)
    ensures Reads(Quoted(s), Written(s))
  {
    EscapeIsCharByChar(s);
    forall tail: string
      ensures ParseValue(Quoted(s) + tail) == if Clean(s) then Some((Str(s), tail)) else None
    {
      StringRead(s, tail);
      assert (Quoted(s) + tail)[1..] == Escaped(s) + ("\"" + tail);
    }
  }

  lemma {:induction false} SkipSpacesBlank(n: nat, tail: string)
    ensures SkipBlank(Spaces(n) + tail) == SkipBlank(tail)
  {
    if n == 0 {
      assert Spaces(n) + tail == tail;
    } else {
      SkipSpacesBlank(n - 1, tail);
      assert (Spaces(n) + tail)[1..] == Spaces(n - 1) + tail;
    }
  }

  lemma SkipNewline(tail: string)
    ensures SkipBlank("\n" + tail) == SkipBlank(tail)
  {
    assert ("\n" + tail)[1..] == tail;
  }

  lemma EmptyYields()
    ensures Yields("", Some([]))
  {
    forall tail: string
      ensures ParseItems("" + tail) == After(Some([]), ParseItems(tail))
    {
      AfterNothing(ParseItems(tail));
      assert "" + tail == tail;
    }
  }

  lemma YieldsConcat(a: string, b: string, x: Option<seq<Toml>>, y: Option<seq<Toml>>)
    requires Yields(a, x) && Yields(b, y)
    ensures Yields(a + b, Then(x, y))
  {
    forall tail: string
      ensures ParseItems(a + b + tail) == After(Then(x, y), ParseItems(tail))
    {
      Reassociate(a, b, tail);
      AfterBoth(x, y, ParseItems(tail));
    }
  }

  /** An element on its line. */
  lemma LineYields(n: nat, p: string, v: Option<Toml>)
    requires Reads(p, v) && (StartsWith(p, '"') || StartsWith(p, '{'))
    ensures Yields(Spaces(n) + (p + ",\n"), One(v))
  {
    forall tail: string
      ensures ParseItems(Spaces(n) + (p + ",\n") + tail) == After(One(v), ParseItems(tail))
    {
      var rest := ",\n" + tail;
      assert Spaces(n) + (p + ",\n") + tail == Spaces(n) + (p + rest);
      SkipSpacesBlank(n, p + rest);
      SameItems(Spaces(n) + (p + rest), p + rest);
      ElementParsed(p, v, tail);
    }
  }

  lemma SameItems(s: string, t: string)
    requires SkipBlank(s) == SkipBlank(t)
    ensures ParseItems(s) == ParseItems(t)
  {
  }

  lemma ElementParsed(p: string, v: Option<Toml>, tail: string)
    requires Reads(p, v) && (StartsWith(p, '"') || StartsWith(p, '{'))
    ensures ParseItems(p + (",\n" + tail)) == After(One(v), ParseItems(tail))
  {
    var rest := ",\n" + tail;
    assert (p + rest)[0] == p[0];
    assert SkipBlank(p + rest) == p + rest;
    assert SkipBlank(rest) == rest && rest[1..] == "\n" + tail;
    SkipNewline(tail);
    SameItems("\n" + tail, tail);
  }

  // ----- Inline tables

  /** `{ "title" = ` value, then `close`: a brace that may have a space before it. */
  lemma TableReads(title: string, p: string, v: Option<Toml>, close: string)
    requires Reads(p, v) && (StartsWith(p, '"') || StartsWith(p, '['))
    requires close == " }" || close == "}"
    ensures Reads("{ " + Quoted(title) + " = " + p + close, TableOf(title, v))
  {
    forall tail: string
      ensures ParseValue("{ " + Quoted(title) + " = " + p + close + tail)
              == if TableOf(title, v).None? then None else Some((TableOf(title, v).value, tail))
    {
      TableReadsBefore(title, p, v, close, tail);
    }
  }

  lemma TableReadsBefore(title: string, p: string, v: Option<Toml>, close: string, tail: string)
    requires Reads(p, v) && (StartsWith(p, '"') || StartsWith(p, '['))
    requires close == " }" || close == "}"
    ensures ParseValue("{ " + Quoted(title) + " = " + p + close + tail)
            == if TableOf(title, v).None? then None else Some((TableOf(title, v).value, tail))
  {
    var after := p + (close + tail);
    var rest := " = " + after;
    EscapeIsCharByChar(title);
    TableText(Escaped(title), p, close, tail);
    TableBegins(" " + ("\"" + (Escaped(title) + ("\"" + rest))));
    KeyRead(title, rest);
    if Clean(title) {
      EqualsRead(title, p, v, close, tail);
    }
  }

  lemma TableText(escaped: string, p: string, close: string, tail: string)
    ensures "{ " + ("\"" + escaped + "\"") + " = " + p + close + tail
            == "{" + (" " + ("\"" + (escaped + ("\"" + (" = " + (p + (close + tail)))))))
  {
  }

  lemma TableBegins(inner: string)
    ensures ParseValue("{" + inner) == ParsePair(inner)
  {
    assert ("{" + inner)[1..] == inner;
  }

  lemma KeyRead(title: string, rest: string)
    ensures ParsePair(" " + ("\"" + (Escaped(title) + ("\"" + rest))))
            == if Clean(title) then ParsePairValue(title, SkipWs(rest)) else None
  {
    var inner := Escaped(title) + ("\"" + rest);
    StringRead(title, rest);
    PairBegins(inner);
  }

  lemma PairBegins(inner: string)
    ensures ParsePair(" " + ("\"" + inner)) ==
            match ParseString(inner)
            case None => None
            case Some(key) => ParsePairValue(key.0, SkipWs(key.1))
  {
    var quoted := "\"" + inner;
    assert (" " + quoted)[1..] == quoted && quoted[1..] == inner;
    assert SkipWs(" " + quoted) == quoted;
  }

  lemma EqualsRead(title: string, p: string, v: Option<Toml>, close: string, tail: string)
    requires Reads(p, v) && (StartsWith(p, '"') || StartsWith(p, '['))
    requires close == " }" || close == "}"
    ensures ParsePairValue(title, SkipWs(" = " + (p + (close + tail))))
            == if v.None? then None else Some((Pair(title, v.value), tail))
  {
    var after := p + (close + tail);
    assert (" = " + after)[1..] == "= " + after;
    assert ("= " + after)[1..] == " " + after && (" " + after)[1..] == after;
    assert after[0] == p[0];
    assert SkipWs(after) == after;
    CloseRead(close, tail);
  }

  lemma CloseRead(close: string, tail: string)
    requires close == " }" || close == "}"
    ensures var u := SkipWs(close + tail); StartsWith(u, '}') && u[1..] == tail
  {
    if close == " }" {
      assert (close + tail)[1..] == "}" + tail;
    }
  }

  lemma ArrayReads(p: string, n: nat, es: Option<seq<Toml>>)
    requires Yields(p, es)
    ensures Reads("[" + p + Spaces(n) + "]", Listed(es))
  {
    forall tail: string
      ensures ParseValue("[" + p + Spaces(n) + "]" + tail)
              == if Listed(es).None? then None else Some((Listed(es).value, tail))
    {
      var inner := p + (Spaces(n) + ("]" + tail));
      assert "[" + p + Spaces(n) + "]" + tail == "[" + inner;
      ItemsClose(n, tail);
      assert es.Some? ==> es.value + [] == es.value;
      ArrayBegins(inner);
    }
  }

  lemma ArrayBegins(inner: string)
    ensures ParseValue("[" + inner) ==
            match ParseItems(inner)
            case None => None
            case Some(p) => Some((Arr(p.0), p.1))
  {
    assert ("[" + inner)[1..] == inner;
  }

  lemma ItemsClose(n: nat, tail: string)
    ensures ParseItems(Spaces(n) + ("]" + tail)) == Some(([], tail))
  {
    SkipSpacesBlank(n, "]" + tail);
    assert SkipBlank("]" + tail) == "]" + tail && ("]" + tail)[1..] == tail;
  }

  // ----- The printed items

  lemma ItemsYield(items: seq<Item>, indent: nat)
    ensures Yields(Terminated(Lines(items, indent)), Meaning(items))
    decreases items, 0
  {
    if |items| == 0 {
      EmptyYields();
    } else {
      ItemYields(items[0], indent);
      ItemsYield(items[1..], indent);
      TerminatedConcat(ItemLines(items[0], indent), Lines(items[1..], indent));
      YieldsConcat(Terminated(ItemLines(items[0], indent)), Terminated(Lines(items[1..], indent)),
                   ItemMeaning(items[0]), Meaning(items[1..]));
    }
  }

  lemma ItemYields(item: Item, indent: nat)
    ensures Yields(Terminated(ItemLines(item, indent)), ItemMeaning(item))
    decreases item, 0
  {
    match item
    case Page(path) =>
      QuotedReads(path);
      LineYields(indent, Quoted(path), Written(path));
      TerminatedOne(Spaces(indent) + Quoted(path) + ",");
      assert Terminated(ItemLines(item, indent)) == Spaces(indent) + (Quoted(path) + ",\n");
    case Section(entries) => EntriesYield(entries, indent);
    case Skipped => EmptyYields();
  }

  lemma EntriesYield(entries: seq<Entry>, indent: nat)
    ensures Yields(Terminated(EntriesLines(entries, indent)), EntriesMeaning(entries))
    decreases entries, 0
  {
    if |entries| == 0 {
      EmptyYields();
    } else {
      EntryYields(entries[0], indent);
      EntriesYield(entries[1..], indent);
      TerminatedConcat(EntryLines(entries[0], indent), EntriesLines(entries[1..], indent));
      YieldsConcat(Terminated(EntryLines(entries[0], indent)), Terminated(EntriesLines(entries[1..], indent)),
                   EntryMeaning(entries[0]), EntriesMeaning(entries[1..]));
    }
  }

  /** The value part of an entry, and how its table closes. */
  function Literal(value: Target, indent: nat): string
    requires !value.Unprintable?
  {
    match value
    case Link(path) => Quoted(path)
    case Children(items) => if |items| == 0 then "[]" else "[" + Body(items, indent + 4) + Spaces(indent) + "]"
  }

  function Close(value: Target): string {
    if value.Children? && |value.items| > 0 then "}" else " }"
  }

  lemma EntryIsTable(entry: Entry, indent: nat)
    requires !entry.value.Unprintable?
    ensures Terminated(EntryLines(entry, indent))
            == Spaces(indent)
               + ("{ " + Quoted(entry.title) + " = " + Literal(entry.value, indent) + Close(entry.value) + ",\n")
  {
    EntryText(entry, indent);
    LiteralText(entry.value, indent);
    EntryPieces(Spaces(indent), Quoted(entry.title), Literal(entry.value, indent), Close(entry.value));
  }

  lemma EntryPieces(prefix: string, title: string, literal: string, close: string)
    ensures prefix + "{ " + title + " = " + (literal + (close + ",\n"))
            == prefix + ("{ " + title + " = " + literal + close + ",\n")
  {
  }

  lemma LiteralText(value: Target, indent: nat)
    requires !value.Unprintable?
    ensures ValueText(value, indent) == Literal(value, indent) + (Close(value) + ",\n")
  {
    match value
    case Link(path) => assert " },\n" == " }" + ",\n";
    case Children(items) =>
      if |items| == 0 {
        assert "[] },\n" == "[]" + (" }" + ",\n");
      } else {
        assert "]},\n" == "]" + ("}" + ",\n");
        Reassociate("[" + Body(items, indent + 4) + Spaces(indent), "]", "}" + ",\n");
      }
  }

  lemma EntryYields(entry: Entry, indent: nat)
    ensures Yields(Terminated(EntryLines(entry, indent)), EntryMeaning(entry))
    decreases entry, 1
  {
    if entry.value.Unprintable? {
      EmptyYields();
    } else {
      EntryIsTable(entry, indent);
      LiteralReads(entry.value, indent);
      var p, v := Literal(entry.value, indent), ValueMeaning(entry.value);
      TableReads(entry.title, p, v, Close(entry.value));
      var table := "{ " + Quoted(entry.title) + " = " + p + Close(entry.value);
      assert StartsWith(table, '{');
      LineYields(indent, table, TableOf(entry.title, v));
    }
  }

  lemma LiteralReads(value: Target, indent: nat)
    requires !value.Unprintable?
    ensures Reads(Literal(value, indent), ValueMeaning(value))
    ensures StartsWith(Literal(value, indent), '"') || StartsWith(Literal(value, indent), '[')
    decreases value, 0
  {
    match value
    case Link(path) => QuotedReads(path);
    case Children(items) =>
      if |items| == 0 {
        EmptyYields();
        ArrayReads("", 0, Some([]));
        assert "[" + "" + Spaces(0) + "]" == "[]";
      } else {
        BodyYields(items, indent + 4);
        ArrayReads(Body(items, indent + 4), indent, Meaning(items));
      }
  }

  lemma NewlineYields()
    ensures Yields("\n", Some([]))
  {
    forall tail: string
      ensures ParseItems("\n" + tail) == After(Some([]), ParseItems(tail))
    {
      SkipNewline(tail);
      SameItems("\n" + tail, tail);
      AfterNothing(ParseItems(tail));
    }
  }

  lemma ThenNothing(x: Option<seq<Toml>>)
    ensures Then(Some([]), x) == x == Then(x, Some([]))
  {
    assert x.Some? ==> [] + x.value == x.value == x.value + [];
  }

  lemma BodyYields(items: seq<Item>, indent: nat)
    ensures Yields(Body(items, indent), Meaning(items))
    decreases items, 1
  {
    var lines := Lines(items, indent);
    ItemsYield(items, indent);
    NewlineYields();
    ThenNothing(Meaning(items));
    if |lines| == 0 {
      YieldsConcat("\n", "", Some([]), Meaning(items));
      YieldsConcat("\n" + "", "\n", Meaning(items), Some([]));
      assert Body(items, indent) == "\n" + "" + "\n";
    } else {
      JoinIsTerminated(lines);
      YieldsConcat("\n", Terminated(lines), Some([]), Meaning(items));
      Reassociate("\n", Join(lines), "\n");
    }
  }

  /** Parsing a printed navigation gives its items, one table for each title; it fails exactly
      when a printed title or path has a character that TOML does not allow in a string. */
  lemma NavRoundTrip(items: seq<Item>)
    ensures ParseNav(NavBlock(items)) == Listed(Meaning(items))
  {
    PrintedBlock(items);
    BodyYields(items, 4);
    ArrayReads(Body(items, 4), 0, Meaning(items));
    var value := "[" + Body(items, 4) + Spaces(0) + "]";
    assert NavBlock(items) == "nav = " + value;
    assert value + "" == value;
    NavBegins(value);
  }

  lemma NavBegins(value: string)
    requires StartsWith(value, '[')
    ensures ParseNav("nav = " + value) ==
            match ParseValue(value)
            case None => None
            case Some(p) => if p.1 == "" then Some(p.0) else None
  {
    var text := "nav = " + value;
    assert "nav" <= text && text[3..] == " = " + value;
    assert (" = " + value)[1..] == "= " + value;
    assert ("= " + value)[1..] == " " + value && (" " + value)[1..] == value;
    assert SkipWs(value) == value;
    assert SkipWs("= " + value) == "= " + value;
  }

  // ----- When it fails

  /** Every title and path that is printed has only characters allowed in a string. */
  predicate AllClean(items: seq<Item>)
    decreases items, 0
  {
    forall i | 0 <= i < |items| :: ItemClean(items[i])
  }

  predicate ItemClean(item: Item)
    decreases item, 0
  {
    match item
    case Page(path) => Clean(path)
    case Section(entries) => forall i | 0 <= i < |entries| :: EntryClean(entries[i])
    case Skipped => true
  }

  predicate EntryClean(entry: Entry)
    decreases entry, 0
  {
    match entry.value
    case Link(path) => Clean(entry.title) && Clean(path)
    case Children(items) => Clean(entry.title) && AllClean(items)
    case Unprintable => true
  }

  lemma MeaningExactly(items: seq<Item>)
    ensures Meaning(items).Some? <==> AllClean(items)
    decreases items, 0
  {
    if |items| > 0 {
      ItemMeaningExactly(items[0]);
      MeaningExactly(items[1..]);
      assert forall i | 1 <= i < |items| :: items[i] == items[1..][i - 1];
      assert AllClean(items) ==> AllClean(items[1..]);
    }
  }

  lemma ItemMeaningExactly(item: Item)
    ensures ItemMeaning(item).Some? <==> ItemClean(item)
    decreases item, 0
  {
    if item.Section? {
      EntriesMeaningExactly(item.entries);
    }
  }

  lemma EntriesMeaningExactly(entries: seq<Entry>)
    ensures EntriesMeaning(entries).Some? <==> forall i | 0 <= i < |entries| :: EntryClean(entries[i])
    decreases entries, 0
  {
    if |entries| > 0 {
      EntryMeaningExactly(entries[0]);
      EntriesMeaningExactly(entries[1..]);
      AllEntries(entries);
    }
  }

  lemma EntryMeaningExactly(entry: Entry)
    ensures EntryMeaning(entry).Some? <==> EntryClean(entry)
    decreases entry, 0
  {
    if entry.value.Children? {
      MeaningExactly(entry.value.items);
    }
  }

  lemma AllEntries(entries: seq<Entry>)
    requires |entries| > 0
    ensures (forall i | 0 <= i < |entries| :: EntryClean(entries[i]))
            <==> EntryClean(entries[0]) && (forall i | 0 <= i < |entries[1..]| :: EntryClean(entries[1..][i]))
  {
    if EntryClean(entries[0]) && (forall i | 0 <= i < |entries[1..]| :: EntryClean(entries[1..][i])) {
      forall i | 0 <= i < |entries| ensures EntryClean(entries[i]) {
        assert i > 0 ==> entries[i] == entries[1..][i - 1];
      }
    }
  }

  /** The printed navigation is TOML exactly when no printed string has a control character. */
  lemma ParsesExactly(items: seq<Item>)
    ensures ParseNav(NavBlock(items)).Some? <==> AllClean(items)
  {
    NavRoundTrip(items);
    MeaningExactly(items);
  }
}
