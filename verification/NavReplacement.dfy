/** Whatever the titles are, the scanner finds the end of a printed block: replacing a printed block
    gives what replacing the original one would have given. */
module NavReplacement {
  import opened Prelude
  import opened Strings
  import opened NavToml

  // ----- The scan on the text that is left

  function AfterComment(s: string): (r: string)
    ensures |r| <= |s|
  {
    if s == "" then "" else if s[0] == '\n' then s[1..] else AfterComment(s[1..])
  }

  function DropTwo(s: string): (r: string)
    ensures s != "" ==> |r| < |s|
  {
    if |s| < 2 then "" else s[2..]
  }

  function AfterString(s: string, quote: char): (r: string)
    ensures |r| <= |s|
    decreases |s|
  {
    if s == "" then ""
    else if s[0] == quote then s[1..]
    else if s[0] == '\\' then AfterString(DropTwo(s), quote)
    else AfterString(s[1..], quote)
  }

  /** What follows a character, or the comment or string that it begins. */
  function AfterFirst(s: string): (r: string)
    requires s != ""
    ensures |r| < |s|
  {
    if s[0] == '#' then AfterComment(s[1..])
    else if s[0] == '"' || s[0] == '\'' then AfterString(s[1..], s[0])
    else s[1..]
  }

  /** What follows the bracket that closes the outermost open one. */
  function Scan(s: string, depth: int): Option<string>
    decreases |s|
  {
    if s == "" then None
    else if s[0] == ']' && depth == 1 then Some(s[1..])
    else Scan(AfterFirst(s), depth + Change(s[0]))
  }

  /** The text from a position on, which may be past the end. */
  function From(config: string, pos: nat): string {
    if pos <= |config| then config[pos..] else ""
  }

  lemma FromStep(config: string, pos: nat)
    requires pos < |config|
    ensures From(config, pos) != "" && From(config, pos)[0] == config[pos]
    ensures From(config, pos)[1..] == From(config, pos + 1)
  {
  }

  lemma FromTwoSteps(config: string, pos: nat)
    requires pos < |config|
    ensures DropTwo(From(config, pos)) == From(config, pos + 2)
  {
  }

  lemma {:induction false} CommentEndIs(config: string, pos: nat)
    requires pos <= |config|
    ensures From(config, CommentEnd(config, pos) + 1) == AfterComment(From(config, pos))
    decreases |config| - pos
  {
    if pos < |config| {
      FromStep(config, pos);
      if config[pos] != '\n' {
        CommentEndIs(config, pos + 1);
      }
    }
  }

  lemma {:induction false} StringEndIs(config: string, pos: nat, quote: char)
    ensures From(config, StringEnd(config, pos, quote) + 1) == AfterString(From(config, pos), quote)
    decreases |config| - pos
  {
    if pos < |config| {
      FromStep(config, pos);
      if config[pos] != quote {
        var next := if config[pos] == '\\' then pos + 2 else pos + 1;
        if config[pos] == '\\' {
          FromTwoSteps(config, pos);
        }
        StringEndIs(config, next, quote);
        assert AfterString(From(config, pos), quote) == AfterString(From(config, next), quote);
      }
    }
  }

  lemma NextPosIs(config: string, pos: nat)
    requires pos < |config|
    ensures From(config, pos) != "" && From(config, NextPos(config, pos)) == AfterFirst(From(config, pos))
  {
    FromStep(config, pos);
    CommentEndIs(config, pos);
    StringEndIs(config, pos + 1, config[pos]);
  }

  function Rest(config: string, end: Option<nat>): Option<string> {
    if end.None? then None else Some(From(config, end.value))
  }

  lemma ScanStep(s: string, depth: int)
    requires s != "" && (s[0] != ']' || depth != 1)
    ensures Scan(s, depth) == Scan(AfterFirst(s), depth + Change(s[0]))
  {
  }

  /** Scanning positions is scanning what is left. */
  lemma {:induction false} BracketEndIsScan(config: string, pos: nat, depth: int)
    ensures Rest(config, BracketEnd(config, pos, depth)) == Scan(From(config, pos), depth)
    decreases |config| - pos
  {
    if pos < |config| {
      FromStep(config, pos);
      if config[pos] != ']' || depth != 1 {
        NextPosIs(config, pos);
        ScanStep(From(config, pos), depth);
        BracketEndIsScan(config, NextPos(config, pos), depth + Change(config[pos]));
      }
    }
  }

  // ----- Texts the scan passes over

  /** Inside an array the scan runs over `p` and comes out at the same depth. */
  ghost predicate Transparent(p: string) {
    forall tail: string, depth: int :: depth >= 1 ==> Scan(p + tail, depth) == Scan(tail, depth)
  }

  lemma TransparentConcat(a: string, b: string)
    requires Transparent(a) && Transparent(b)
    ensures Transparent(a + b)
  {
    forall tail: string, depth: int | depth >= 1
      ensures Scan(a + b + tail, depth) == Scan(tail, depth)
    {
      assert a + b + tail == a + (b + tail);
    }
  }

  predicate Ordinary(p: string) {
    forall i | 0 <= i < |p| :: p[i] !in "[]#\"'"
  }

  lemma {:induction false} OrdinaryIsTransparent(p: string)
    requires Ordinary(p)
    ensures Transparent(p)
  {
    if p == "" {
      forall tail: string, depth: int | depth >= 1
        ensures Scan(p + tail, depth) == Scan(tail, depth)
      {
        assert p + tail == tail;
      }
    } else {
      OrdinaryIsTransparent(p[1..]);
      forall tail: string, depth: int | depth >= 1
        ensures Scan(p + tail, depth) == Scan(tail, depth)
      {
        assert (p + tail)[1..] == p[1..] + tail;
        assert p[0] !in "[]#\"'";
      }
    }
  }

  function EscapeChar(c: char): string {
    if c == '\\' then "\\\\" else if c == '"' then "\\\"" else [c]
  }

  function Escaped(s: string): string {
    if s == "" then "" else EscapeChar(s[0]) + Escaped(s[1..])
  }

  /** The two replacements escape every character on its own. */
  lemma {:induction false} EscapeIsCharByChar(s: string)
    ensures EscapeToml(s) == Escaped(s)
  {
    if s != "" {
      EscapeIsCharByChar(s[1..]);
      var first := if s[0] == '\\' then "\\\\" else [s[0]];
      ReplaceCharConcat(first, ReplaceChar(s[1..], '\\', "\\\\"), '"', "\\\"");
      assert ReplaceChar(first, '"', "\\\"") == EscapeChar(s[0]) by {
        assert first[1..] == "" || first[1..] == "\\";
        assert first == "\\\\" ==> first[1..][1..] == "";
      }
    }
  }

  lemma {:induction false} AfterEscaped(s: string, tail: string)
    ensures AfterString(Escaped(s) + ("\"" + tail), '"') == tail
  {
    var text := Escaped(s) + ("\"" + tail);
    if s == "" {
      assert text == "\"" + tail;
      assert text[1..] == tail;
    } else {
      AfterEscaped(s[1..], tail);
      var more := Escaped(s[1..]) + ("\"" + tail);
      assert text == EscapeChar(s[0]) + more;
      if s[0] == '\\' || s[0] == '"' {
        assert text[2..] == more;
      } else {
        assert text[1..] == more;
      }
    }
  }

  lemma AfterQuoted(s: string, tail: string)
    ensures AfterFirst("\"" + (Escaped(s) + ("\"" + tail))) == tail
  {
    var text := "\"" + (Escaped(s) + ("\"" + tail));
    assert text[1..] == Escaped(s) + ("\"" + tail);
    AfterEscaped(s, tail);
  }

  lemma QuotedIsTransparent(s: string)
    ensures Transparent(Quoted(s))
  {
    EscapeIsCharByChar(s);
    forall tail: string, depth: int | depth >= 1
      ensures Scan(Quoted(s) + tail, depth) == Scan(tail, depth)
    {
      var text := "\"" + (Escaped(s) + ("\"" + tail));
      assert Quoted(s) + tail == text;
      AfterQuoted(s, tail);
      ScanStep(text, depth);
    }
  }

  lemma BracketedIsTransparent(p: string)
    requires Transparent(p)
    ensures Transparent("[" + p + "]")
  {
    forall tail: string, depth: int | depth >= 1
      ensures Scan("[" + p + "]" + tail, depth) == Scan(tail, depth)
    {
      assert ("[" + p + "]" + tail)[1..] == p + ("]" + tail);
      assert ("]" + tail)[1..] == tail;
    }
  }

  // ----- The printed lines

  /** Every line with its newline. */
  function Terminated(lines: seq<string>): string {
    if |lines| == 0 then "" else lines[0] + "\n" + Terminated(lines[1..])
  }

  lemma {:induction false} TerminatedConcat(a: seq<string>, b: seq<string>)
    ensures Terminated(a + b) == Terminated(a) + Terminated(b)
  {
    if |a| == 0 {
      assert a + b == b;
    } else {
      TerminatedConcat(a[1..], b);
      assert (a + b)[1..] == a[1..] + b;
      Reassociate(a[0] + "\n", Terminated(a[1..]), Terminated(b));
    }
  }

  lemma TerminatedOne(a: string)
    ensures Terminated([a]) == a + "\n"
  {
  }

  lemma TerminatedTriple(a: string, b: string, c: string)
    ensures Terminated([a, b, c]) == a + "\n" + (b + "\n" + (c + "\n"))
  {
    assert [a, b, c][1..] == [b, c] && [b, c][1..] == [c];
    assert Terminated([c]) == c + "\n";
  }

  lemma {:induction false} JoinIsTerminated(lines: seq<string>)
    requires |lines| > 0
    ensures Join(lines) + "\n" == Terminated(lines)
  {
    if |lines| == 1 {
      assert Terminated(lines[1..]) == "";
    } else {
      JoinIsTerminated(lines[1..]);
    }
  }

  lemma {:induction false} SpacesAreOrdinary(n: nat)
    ensures Ordinary(Spaces(n))
  {
    if n > 0 {
      SpacesAreOrdinary(n - 1);
    }
  }

  /** `a`, a quoted string, `b`. */
  lemma AroundQuoted(a: string, s: string, b: string)
    requires Ordinary(a) && Transparent(b)
    ensures Transparent(a + Quoted(s) + b)
  {
    OrdinaryIsTransparent(a);
    QuotedIsTransparent(s);
    TransparentConcat(a, Quoted(s));
    TransparentConcat(a + Quoted(s), b);
  }

  lemma LinesAreTransparent(items: seq<Item>, indent: nat)
    ensures Transparent(Terminated(Lines(items, indent)))
    decreases items, 0
  {
    if |items| == 0 {
      OrdinaryIsTransparent("");
    } else {
      ItemIsTransparent(items[0], indent);
      LinesAreTransparent(items[1..], indent);
      TerminatedConcat(ItemLines(items[0], indent), Lines(items[1..], indent));
      TransparentConcat(Terminated(ItemLines(items[0], indent)), Terminated(Lines(items[1..], indent)));
    }
  }

  lemma ItemIsTransparent(item: Item, indent: nat)
    ensures Transparent(Terminated(ItemLines(item, indent)))
    decreases item, 0
  {
    match item
    case Page(path) =>
      SpacesAreOrdinary(indent);
      OrdinaryIsTransparent(",\n");
      AroundQuoted(Spaces(indent), path, ",\n");
      var line := Spaces(indent) + Quoted(path) + ",";
      assert Terminated([line]) == Spaces(indent) + Quoted(path) + ",\n";
    case Section(entries) => EntriesAreTransparent(entries, indent);
    case Skipped => OrdinaryIsTransparent("");
  }

  lemma EntriesAreTransparent(entries: seq<Entry>, indent: nat)
    ensures Transparent(Terminated(EntriesLines(entries, indent)))
    decreases entries, 0
  {
    if |entries| == 0 {
      OrdinaryIsTransparent("");
    } else {
      EntryIsTransparent(entries[0], indent);
      EntriesAreTransparent(entries[1..], indent);
      TerminatedConcat(EntryLines(entries[0], indent), EntriesLines(entries[1..], indent));
      TransparentConcat(Terminated(EntryLines(entries[0], indent)), Terminated(EntriesLines(entries[1..], indent)));
    }
  }

  /** What an entry prints after its title, with the newline. */
  function ValueText(value: Target, indent: nat): string
    requires !value.Unprintable?
  {
    match value
    case Link(path) => Quoted(path) + " },\n"
    case Children(items) =>
      if |items| == 0 then "[] },\n" else "[" + Body(items, indent + 4) + Spaces(indent) + "]},\n"
  }

  function Body(items: seq<Item>, indent: nat): string {
    "\n" + Join(Lines(items, indent)) + "\n"
  }

  lemma NestedText(open: string, nested: string, prefix: string)
    ensures open + "[" + "\n" + (nested + "\n" + (prefix + "]}," + "\n"))
            == open + ("[" + ("\n" + nested + "\n") + prefix + "]},\n")
  {
  }

  /** What a printed entry begins with. */
  function Opening(title: string, indent: nat): string {
    Spaces(indent) + "{ " + Quoted(title) + " = "
  }

  lemma EntryText(entry: Entry, indent: nat)
    requires !entry.value.Unprintable?
    ensures Terminated(EntryLines(entry, indent)) == Opening(entry.title, indent) + ValueText(entry.value, indent)
  {
    var open := Opening(entry.title, indent);
    match entry.value
    case Link(path) =>
      TerminatedOne(open + Quoted(path) + " },");
      Reassociate(open, Quoted(path) + " },", "\n");
      Reassociate(Quoted(path), " },", "\n");
      Reassociate(open, Quoted(path), " },");
    case Children(items) =>
      if |items| == 0 {
        TerminatedOne(open + "[] },");
        Reassociate(open, "[] },", "\n");
      } else {
        var nested := Join(Lines(items, indent + 4));
        TerminatedTriple(open + "[", nested, Spaces(indent) + "]},");
        NestedText(open, nested, Spaces(indent));
      }
  }

  lemma EntryIsTransparent(entry: Entry, indent: nat)
    ensures Transparent(Terminated(EntryLines(entry, indent)))
    decreases entry, 1
  {
    if entry.value.Unprintable? {
      OrdinaryIsTransparent("");
    } else {
      EntryText(entry, indent);
      Reassociate(Spaces(indent) + "{ " + Quoted(entry.title), " = ", ValueText(entry.value, indent));
      ValueIsTransparent(entry.value, indent);
      OrdinaryIsTransparent(" = ");
      TransparentConcat(" = ", ValueText(entry.value, indent));
      SpacesAreOrdinary(indent);
      AroundQuoted(Spaces(indent) + "{ ", entry.title, " = " + ValueText(entry.value, indent));
    }
  }

  lemma ValueIsTransparent(value: Target, indent: nat)
    requires !value.Unprintable?
    ensures Transparent(ValueText(value, indent))
    decreases value, 0
  {
    match value
    case Link(path) =>
      OrdinaryIsTransparent(" },\n");
      QuotedIsTransparent(path);
      TransparentConcat(Quoted(path), " },\n");
    case Children(items) =>
      OrdinaryIsTransparent(" },\n");
      OrdinaryIsTransparent("},\n");
      if |items| == 0 {
        OrdinaryIsTransparent("");
        BracketedIsTransparent("");
        TransparentConcat("[" + "" + "]", " },\n");
        assert ("[" + "" + "]") + " },\n" == ValueText(value, indent);
      } else {
        BodyIsTransparent(items, indent + 4);
        SpacesAreOrdinary(indent);
        OrdinaryIsTransparent(Spaces(indent));
        var inner := Body(items, indent + 4) + Spaces(indent);
        TransparentConcat(Body(items, indent + 4), Spaces(indent));
        BracketedIsTransparent(inner);
        TransparentConcat("[" + inner + "]", "},\n");
        assert "[" + inner + "]" + "},\n" == ValueText(value, indent);
      }
  }

  lemma BodyIsTransparent(items: seq<Item>, indent: nat)
    ensures Transparent(Body(items, indent))
    decreases items, 1
  {
    var lines := Lines(items, indent);
    if |lines| == 0 {
      OrdinaryIsTransparent("\n\n");
      assert Body(items, indent) == "\n\n";
    } else {
      LinesAreTransparent(items, indent);
      JoinIsTerminated(lines);
      OrdinaryIsTransparent("\n");
      TransparentConcat("\n", Terminated(lines));
      assert Body(items, indent) == "\n" + Terminated(lines);
    }
  }

  // ----- Finding the block again

  /** A block starts like the printed ones and closes at its last bracket. */
  function BlockOf(body: string): string {
    "nav = [" + body + "]"
  }

  lemma PrintedBlock(items: seq<Item>)
    ensures NavBlock(items) == BlockOf(Body(items, 4)) && Transparent(Body(items, 4))
  {
    BodyIsTransparent(items, 4);
    assert NavBlock(items) == BlockOf(Body(items, 4));
  }

  lemma EmptyBlock()
    ensures "nav = []" == BlockOf("") && Transparent("")
  {
    OrdinaryIsTransparent("");
  }

  lemma {:induction false} SkipSpacesBefore(p: string, u: string)
    requires u != "" && !IsSpace(u[0])
    ensures SkipSpaces(p + u) == SkipSpaces(p) + u
  {
    if p == "" {
      assert p + u == u;
    } else {
      assert (p + u)[1..] == p[1..] + u;
      if IsSpace(p[0]) {
        SkipSpacesBefore(p[1..], u);
      }
    }
  }

  predicate AllSpaces(s: string) {
    forall i | 0 <= i < |s| :: IsSpace(s[i])
  }

  lemma {:induction false} SkipsAllSpaces(w: string)
    requires AllSpaces(w)
    ensures SkipSpaces(w) == ""
  {
    if w != "" {
      SkipsAllSpaces(w[1..]);
    }
  }

  /** `\s*` in front of something else: what is skipped is white space. */
  lemma {:induction false} Skipped(s: string) returns (w: string)
    ensures AllSpaces(w) && s == w + SkipSpaces(s)
  {
    if s != "" && IsSpace(s[0]) {
      w := Skipped(s[1..]);
      w := [s[0]] + w;
    } else {
      w := "";
    }
  }

  /** The text fits the pattern, with `b` from the bracket on. */
  ghost predicate Fits(s: string, b: string) {
    exists v, w :: AllSpaces(v) && AllSpaces(w) && s == "nav" + (v + ("=" + (w + b)))
  }

  lemma MatchFits(s: string, b: string)
    requires MatchNav(s) == Some(b)
    ensures Fits(s, b)
  {
    var a := SkipSpaces(s[3..]);
    var v := Skipped(s[3..]);
    var w := Skipped(a[1..]);
    assert s[..3] == "nav" && s == s[..3] + s[3..] && a == "=" + a[1..];
    assert s == "nav" + (v + ("=" + (w + b)));
  }

  lemma FittingMatches(v: string, w: string, b: string)
    requires AllSpaces(v) && AllSpaces(w) && b != "" && b[0] == '['
    ensures MatchNav("nav" + (v + ("=" + (w + b)))) == Some(b)
  {
    var rest := "=" + (w + b);
    var s := "nav" + (v + rest);
    assert "nav" <= s && s[3..] == v + rest;
    SkipsAllSpaces(v);
    SkipsAllSpaces(w);
    SkipSpacesBefore(v, rest);
    assert "" + rest == rest && rest[1..] == w + b;
    SkipSpacesBefore(w, b);
    assert "" + b == b;
  }

  /** The match is that of the pattern: `nav`, spaces, `=`, spaces, and the bracket. */
  lemma MatchExactly(s: string, b: string)
    requires b != "" && b[0] == '['
    ensures MatchNav(s) == Some(b) <==> Fits(s, b)
  {
    if MatchNav(s) == Some(b) {
      MatchFits(s, b);
    }
    if Fits(s, b) {
      var v, w :| AllSpaces(v) && AllSpaces(w) && s == "nav" + (v + ("=" + (w + b)));
      FittingMatches(v, w, b);
    }
  }

  /** A match that starts before an `n` does not depend on what follows it. */
  lemma MatchBefore(p: string, u: string)
    requires p != "" && u != "" && u[0] == 'n'
    ensures MatchNav(p + u).Some? <==> MatchNav(p).Some?
  {
    var text := p + u;
    if |p| >= 3 {
      assert text[..3] == p[..3] && text[3..] == p[3..] + u;
      SkipSpacesBefore(p[3..], u);
      var a := SkipSpaces(p[3..]);
      if a != "" {
        assert (a + u)[1..] == a[1..] + u;
        SkipSpacesBefore(a[1..], u);
      }
    } else {
      assert text[|p|] == 'n';
    }
  }

  lemma SkipOneSpace(x: string)
    requires x != "" && !IsSpace(x[0])
    ensures SkipSpaces(" " + x) == x
  {
    assert (" " + x)[1..] == x;
  }

  lemma MatchAtBlock(x: string)
    requires x != "" && x[0] == '['
    ensures MatchNav("nav = " + x) == Some(x)
  {
    var text := "nav = " + x;
    assert "nav" <= text && text[3..] == " " + ("= " + x);
    SkipOneSpace("= " + x);
    assert ("= " + x)[1..] == " " + x;
    SkipOneSpace(x);
  }

  lemma ScanOfBlock(body: string, post: string)
    requires Transparent(body)
    ensures Scan("[" + body + "]" + post, 0) == Some(post)
  {
    assert ("[" + body + "]" + post)[1..] == body + ("]" + post);
    assert ("]" + post)[1..] == post;
  }

  /** The first match stays where it is when a block replaces what was there. */
  lemma {:induction false} FoundAgain(config: string, i: nat, text: string)
    requires i <= |config| && FindNav(config, i).Some? && text != "" && text[0] == 'n'
    requires MatchNav(text).Some?
    ensures var start := FindNav(config, i).value; FindNav(config[..start] + text, i) == Some(start)
    decreases |config| - i
  {
    var start := FindNav(config, i).value;
    var again := config[..start] + text;
    MatchHasN(config[start..]);
    if i == start {
      assert again[i..] == text;
    } else {
      var p := config[i..start];
      assert config[i..] == p + config[start..] && again[i..] == p + text;
      MatchBefore(p, config[start..]);
      MatchBefore(p, text);
      FoundAgain(config, i + 1, text);
    }
  }

  lemma MatchHasN(s: string)
    requires MatchNav(s).Some?
    ensures s != "" && s[0] == 'n'
  {
    assert s[..3] == "nav";
  }

  lemma BlockText(body: string, post: string)
    ensures BlockOf(body) + post == "nav = " + ("[" + body + "]" + post)
  {
  }

  /** A replaced configuration has its block where the original had it, and the same text after it. */
  lemma Replaced(config: string, start: nat, text: string, post: string)
    requires FindNav(config, 0) == Some(start)
    requires text != "" && text[0] == 'n' && MatchNav(text).Some? && Scan(MatchNav(text).value, 0) == Some(post)
    ensures start <= |config|
    ensures Cut(config[..start] + text) == Ok((config[..start], post))
  {
    var again := config[..start] + text;
    FoundAgain(config, 0, text);
    assert again[..start] == config[..start] && again[start..] == text;
  }

  /** The text before the array and the text after it. */
  function Cut(config: string): Result<(string, string), Error> {
    match FindNav(config, 0)
    case None => Err(NavNotFound)
    case Some(start) =>
      match Scan(MatchNav(config[start..]).value, 0)
      case None => Err(NavNotClosed)
      case Some(rest) => Ok((config[..start], rest))
  }

  lemma ReplaceIsCut(config: string, block: string)
    ensures Replace(config, block) ==
            match Cut(config)
            case Ok(around) => Ok(around.0 + block + around.1)
            case Err(error) => Err(error)
  {
    if FindNav(config, 0).Some? {
      var start := FindNav(config, 0).value;
      BracketEndIsScan(config, BracketStart(config, start), 0);
    }
  }

  /** Replacing the array by a block changes neither what is before it nor what is after it. */
  lemma CutAgain(config: string, body: string)
    requires Transparent(body) && Cut(config).Ok?
    ensures var around := Cut(config).value; Cut(around.0 + BlockOf(body) + around.1) == Cut(config)
  {
    var around := Cut(config).value;
    var x := "[" + body + "]" + around.1;
    BlockText(body, around.1);
    MatchAtBlock(x);
    ScanOfBlock(body, around.1);
    Replaced(config, |around.0|, "nav = " + x, around.1);
    Reassociate(around.0, BlockOf(body), around.1);
  }

  /** Once a block has replaced the array, replacing again gives what replacing the original would
      have given; and a configuration that is refused is refused for every block. */
  lemma ReplaceAgain(config: string, body: string, block: string)
    requires Transparent(body)
    ensures match Replace(config, BlockOf(body))
            case Ok(replaced) => Replace(replaced, block) == Replace(config, block)
            case Err(error) => Replace(config, block) == Err(error)
  {
    ReplaceIsCut(config, BlockOf(body));
    ReplaceIsCut(config, block);
    if Cut(config).Ok? {
      var around := Cut(config).value;
      CutAgain(config, body);
      ReplaceIsCut(around.0 + BlockOf(body) + around.1, block);
    }
  }

  /** For every navigation: generating again, with the same or other items, or resetting, is as good
      as doing it on the configuration as it was. */
  lemma GenerateAgain(config: string, items: seq<Item>, block: string)
    ensures match Replace(config, NavBlock(items))
            case Ok(replaced) => Replace(replaced, block) == Replace(config, block)
            case Err(error) => Replace(config, block) == Err(error)
  {
    PrintedBlock(items);
    ReplaceAgain(config, Body(items, 4), block);
  }

  lemma CleanAgain(config: string, block: string)
    ensures match Replace(config, "nav = []")
            case Ok(replaced) => Replace(replaced, block) == Replace(config, block)
            case Err(error) => Replace(config, block) == Err(error)
  {
    EmptyBlock();
    ReplaceAgain(config, "", block);
  }
}
