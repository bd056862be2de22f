/** The documentation script's navigation: printing the items as a TOML array, and replacing the
    `nav` array of a configuration by a scan that matches its brackets. */
module NavToml {
  import opened Prelude
  import opened Strings

  /** A navigation item: a page, a mapping of titles, or something the printer skips. */
  datatype Item = Page(path: string) | Section(entries: seq<Entry>) | Skipped

  datatype Entry = Entry(title: string, value: Target)

  datatype Target = Link(path: string) | Children(items: seq<Item>) | Unprintable

  datatype Error = NavNotFound | NavNotClosed

  // ----- Printing

  function EscapeToml(s: string): string {
    ReplaceChar(ReplaceChar(s, '\\', "\\\\"), '"', "\\\"")
  }

  function Quoted(s: string): string {
    "\"" + EscapeToml(s) + "\""
  }

  function Spaces(n: nat): string {
    if n == 0 then "" else " " + Spaces(n - 1)
  }

  function Join(lines: seq<string>): string {
    if |lines| == 0 then "" else if |lines| == 1 then lines[0] else lines[0] + "\n" + Join(lines[1..])
  }

  function Lines(items: seq<Item>, indent: nat): seq<string>
    decreases items
  {
    if |items| == 0 then [] else ItemLines(items[0], indent) + Lines(items[1..], indent)
  }

  function ItemLines(item: Item, indent: nat): seq<string>
    decreases item
  {
    match item
    case Page(path) => [Spaces(indent) + Quoted(path) + ","]
    case Section(entries) => EntriesLines(entries, indent)
    case Skipped => []
  }

  function EntriesLines(entries: seq<Entry>, indent: nat): seq<string>
    decreases entries
  {
    if |entries| == 0 then [] else EntryLines(entries[0], indent) + EntriesLines(entries[1..], indent)
  }

  function EntryLines(entry: Entry, indent: nat): seq<string>
    decreases entry
  {
    var open := Spaces(indent) + "{ " + Quoted(entry.title) + " = ";
    match entry.value
    case Link(path) => [open + Quoted(path) + " },"]
    case Children(items) =>
      if |items| == 0 then [open + "[] },"]
      else [open + "[", Join(Lines(items, indent + 4)), Spaces(indent) + "]},"]
    case Unprintable => []
  }

  lemma LinesStep(items: seq<Item>, i: nat, indent: nat)
    requires i < |items|
    ensures Lines(items[i..], indent) == ItemLines(items[i], indent) + Lines(items[i + 1..], indent)
  {
    assert items[i..][1..] == items[i + 1..];
  }

  lemma Appended(a: seq<string>, b: seq<string>, c: seq<string>)
    ensures a + (b + c) == a + b + c
  {
  }

  method NavToToml(items: seq<Item>, indent: nat) returns (text: string)
    ensures text == Join(Lines(items, indent))
    decreases items
  {
    var lines: seq<string> := [];
    for i := 0 to |items|
      invariant lines + Lines(items[i..], indent) == Lines(items, indent)
    {
      ghost var before := lines;
      LinesStep(items, i, indent);
      match items[i] {
        case Page(path) =>
          lines := lines + [Spaces(indent) + Quoted(path) + ","];
        case Section(entries) =>
          var more := EntriesToToml(entries, indent);
          lines := lines + more;
        case Skipped =>
      }
      assert lines == before + ItemLines(items[i], indent);
      Appended(before, ItemLines(items[i], indent), Lines(items[i + 1..], indent));
    }
    assert items[|items|..] == [];
    assert lines == Lines(items, indent);
    text := Join(lines);
  }

  lemma EntriesStep(entries: seq<Entry>, i: nat, indent: nat)
    requires i < |entries|
    ensures EntriesLines(entries[i..], indent) ==
            EntryLines(entries[i], indent) + EntriesLines(entries[i + 1..], indent)
  {
    assert entries[i..][1..] == entries[i + 1..];
  }

  /** The loop over the titles of one mapping. */
  method EntriesToToml(entries: seq<Entry>, indent: nat) returns (lines: seq<string>)
    ensures lines == EntriesLines(entries, indent)
    decreases entries
  {
    lines := [];
    for i := 0 to |entries|
      invariant lines + EntriesLines(entries[i..], indent) == EntriesLines(entries, indent)
    {
      EntriesStep(entries, i, indent);
      var added := EntryToToml(entries[i], indent);
      lines := lines + added;
    }
    assert entries[|entries|..] == [];
  }

  method EntryToToml(entry: Entry, indent: nat) returns (lines: seq<string>)
    ensures lines == EntryLines(entry, indent)
    decreases entry
  {
    var open := Spaces(indent) + "{ " + Quoted(entry.title) + " = ";
    match entry.value {
      case Link(path) =>
        lines := [open + Quoted(path) + " },"];
      case Children(children) =>
        if |children| == 0 {
          lines := [open + "[] },"];
        } else {
          var nested := NavToToml(children, indent + 4);
          lines := [open + "[", nested, Spaces(indent) + "]},"];
        }
      case Unprintable =>
        lines := [];
    }
  }

  function NavBlock(items: seq<Item>): string {
    "nav = [\n" + Join(Lines(items, 4)) + "\n]"
  }

  // ----- Finding the array

  function SkipSpaces(s: string): (r: string)
    ensures |r| <= |s|
    ensures r == "" || !IsSpace(r[0])
  {
    if s != "" && IsSpace(s[0]) then SkipSpaces(s[1..]) else s
  }

  /** What starts with the bracket when `nav\s*=\s*\[` matches at the beginning of `s`. */
  function MatchNav(s: string): Option<string> {
    if !("nav" <= s) then None
    else
      var a := SkipSpaces(s[3..]);
      if a == "" || a[0] != '=' then None
      else
        var b := SkipSpaces(a[1..]);
        if b == "" || b[0] != '[' then None else Some(b)
  }

  predicate LineStart(config: string, i: nat)
    requires i <= |config|
  {
    i == 0 || config[i - 1] == '\n'
  }

  /** The first line start from `i` on where the pattern matches. */
  function FindNav(config: string, i: nat): (r: Option<nat>)
    requires i <= |config|
    ensures r.Some? ==> i <= r.value <= |config| && LineStart(config, r.value) && MatchNav(config[r.value..]).Some?
    decreases |config| - i
  {
    if LineStart(config, i) && MatchNav(config[i..]).Some? then Some(i)
    else if i == |config| then None
    else FindNav(config, i + 1)
  }

  /** The pattern matches at the first place that begins a line and is followed by it. */
  lemma {:induction false} FindNavExactly(config: string, i: nat, r: Option<nat>)
    requires i <= |config|
    ensures FindNav(config, i) == r <==>
            match r
            case Some(n) =>
              && i <= n <= |config| && MatchesAt(config, n)
              && forall k: nat | i <= k < n :: !MatchesAt(config, k)
            case None => forall k: nat | i <= k <= |config| :: !MatchesAt(config, k)
    decreases |config| - i
  {
    if i < |config| && !MatchesAt(config, i) {
      FindNavExactly(config, i + 1, r);
    }
  }

  predicate MatchesAt(config: string, n: nat)
    requires n <= |config|
  {
    (n > 0 ==> config[n - 1] == '\n') && MatchNav(config[n..]).Some?
  }

  // ----- The bracket scan

  /** The newline that ends a comment, or the end of the text. */
  function CommentEnd(config: string, pos: nat): (r: nat)
    ensures pos <= r
    decreases |config| - pos
  {
    if pos < |config| && config[pos] != '\n' then CommentEnd(config, pos + 1) else pos
  }

  /** The closing quote, or a position past the end of the text. */
  function StringEnd(config: string, pos: nat, quote: char): (r: nat)
    ensures pos <= r
    decreases |config| - pos
  {
    if pos < |config| && config[pos] != quote
    then StringEnd(config, if config[pos] == '\\' then pos + 2 else pos + 1, quote)
    else pos
  }

  /** What a character does to the bracket depth. */
  function Change(ch: char): int {
    if ch == '[' then 1 else if ch == ']' then -1 else 0
  }

  /** The position after a character, or after the comment or string that it begins. */
  function NextPos(config: string, pos: nat): (r: nat)
    requires pos < |config|
    ensures pos < r
  {
    var ch := config[pos];
    if ch == '#' then CommentEnd(config, pos) + 1
    else if ch == '"' || ch == '\'' then StringEnd(config, pos + 1, ch) + 1
    else pos + 1
  }

  /** The position after the bracket that closes the outermost open one. */
  function BracketEnd(config: string, pos: nat, depth: int): (r: Option<nat>)
    ensures r.Some? ==> pos < r.value <= |config|
    decreases |config| - pos
  {
    if pos >= |config| then None
    else if config[pos] == ']' && depth == 1 then Some(pos + 1)
    else BracketEnd(config, NextPos(config, pos), depth + Change(config[pos]))
  }

  lemma SkipSpacesIsSuffix(s: string)
    ensures s[|s| - |SkipSpaces(s)|..] == SkipSpaces(s)
  {
  }

  lemma MatchIsSuffix(s: string)
    requires MatchNav(s).Some?
    ensures var b := MatchNav(s).value; 0 < |b| <= |s| && s[|s| - |b|..] == b
  {
    SkipSpacesIsSuffix(s[3..]);
    SkipSpacesIsSuffix(SkipSpaces(s[3..])[1..]);
  }

  /** Where the bracket of the match at `start` is. */
  function BracketStart(config: string, start: nat): (r: nat)
    requires start <= |config| && MatchNav(config[start..]).Some?
    ensures start <= r < |config| && config[r..] == MatchNav(config[start..]).value
  {
    MatchIsSuffix(config[start..]);
    |config| - |MatchNav(config[start..]).value|
  }

  function Replace(config: string, block: string): Result<string, Error> {
    match FindNav(config, 0)
    case None => Err(NavNotFound)
    case Some(start) =>
      match BracketEnd(config, BracketStart(config, start), 0)
      case None => Err(NavNotClosed)
      case Some(end) => Ok(config[..start] + block + config[end..])
  }

  method SkipComment(config: string, start: nat) returns (pos: nat)
    ensures pos == CommentEnd(config, start)
  {
    pos := start;
    while pos < |config| && config[pos] != '\n'
      invariant CommentEnd(config, pos) == CommentEnd(config, start)
    {
      pos := pos + 1;
    }
  }

  method SkipString(config: string, start: nat, quote: char) returns (pos: nat)
    ensures pos == StringEnd(config, start, quote)
  {
    pos := start;
    while pos < |config| && config[pos] != quote
      invariant StringEnd(config, pos, quote) == StringEnd(config, start, quote)
    {
      if config[pos] == '\\' {
        pos := pos + 1;
      }
      pos := pos + 1;
    }
  }

  method FindBracketEnd(config: string, bracketStart: nat) returns (end: Option<nat>)
    ensures end == BracketEnd(config, bracketStart, 0)
  {
    var depth, pos := 0, bracketStart;
    while pos < |config|
      invariant BracketEnd(config, pos, depth) == BracketEnd(config, bracketStart, 0)
    {
      var ch := config[pos];
      if ch == '[' {
        depth := depth + 1;
      } else if ch == ']' {
        depth := depth - 1;
        if depth == 0 {
          return Some(pos + 1);
        }
      } else if ch == '#' {
        pos := SkipComment(config, pos);
      } else if ch == '"' || ch == '\'' {
        pos := SkipString(config, pos + 1, ch);
      }
      pos := pos + 1;
    }
    return None;
  }

  method ReplaceNavBlock(config: string, block: string) returns (result: Result<string, Error>)
    ensures result == Replace(config, block)
  {
    var found := FindNav(config, 0);
    if found.None? {
      return Err(NavNotFound);
    }
    var start := found.value;
    var end := FindBracketEnd(config, BracketStart(config, start));
    if end.None? {
      return Err(NavNotClosed);
    }
    return Ok(config[..start] + block + config[end.value..]);
  }
}
