/** Reading segments back: the symbols they stand for, and a stack machine that nests the tags. */
module XtmlParsing {
  import opened Prelude
  import opened Strings
  import opened XtmlSegments

  // ----- Symbols

  /** A control token, a character of ordinary text, or an image. */
  datatype Sym = Open | Close | Sep | Eom | Ch(c: char) | Slot

  function Chars(s: string): (r: seq<Sym>)
    ensures |r| == |s|
  {
    if s == "" then [] else [Ch(s[0])] + Chars(s[1..])
  }

  function SegmentSyms(segment: Segment): seq<Sym> {
    if !segment.allowSpecial then Chars(segment.text)
    else if segment.text == OPEN_TOKEN then [Open]
    else if segment.text == CLOSE_TOKEN then [Close]
    else if segment.text == SEP_TOKEN then [Sep]
    else if segment.text == END_OF_MSG_TOKEN then [Eom]
    else [Slot]
  }

  function Syms(segments: seq<Segment>): seq<Sym> {
    if |segments| == 0 then [] else SegmentSyms(segments[0]) + Syms(segments[1..])
  }

  predicate IsControlToken(text: string) {
    text == OPEN_TOKEN || text == CLOSE_TOKEN || text == SEP_TOKEN || text == END_OF_MSG_TOKEN
  }

  function SegmentImages(segment: Segment): seq<string> {
    if segment.allowSpecial && !IsControlToken(segment.text) then [segment.text] else []
  }

  /** The texts that stand for images, in order. */
  function Images(segments: seq<Segment>): seq<string> {
    if |segments| == 0 then [] else SegmentImages(segments[0]) + Images(segments[1..])
  }

  lemma {:induction false} SymsConcat(a: seq<Segment>, b: seq<Segment>)
    ensures Syms(a + b) == Syms(a) + Syms(b) && Images(a + b) == Images(a) + Images(b)
  {
    if |a| == 0 {
      assert a + b == b;
    } else {
      assert (a + b)[0] == a[0] && (a + b)[1..] == a[1..] + b;
      SymsConcat(a[1..], b);
    }
  }

  lemma SymsOfPlain(text: string)
    ensures Syms(Plain(text)) == Chars(text) && Images(Plain(text)) == []
  {
    if text != "" {
      assert Plain(text)[1..] == [];
      assert Chars(text) + [] == Chars(text);
    }
  }

  lemma SymsOfControl(text: string)
    requires text != ""
    ensures Syms(Control(text)) == SegmentSyms(Segment(text, true))
    ensures Images(Control(text)) == if IsControlToken(text) then [] else [text]
  {
    assert Control(text)[1..] == [];
    assert SegmentSyms(Segment(text, true)) + [] == SegmentSyms(Segment(text, true));
    assert SegmentImages(Segment(text, true)) + [] == SegmentImages(Segment(text, true));
  }

  lemma {:induction false} CharsConcat(a: string, b: string)
    ensures Chars(a + b) == Chars(a) + Chars(b)
  {
    if a == "" {
      assert a + b == b;
    } else {
      assert (a + b)[0] == a[0] && (a + b)[1..] == a[1..] + b;
      CharsConcat(a[1..], b);
    }
  }

  // ----- Trees

  datatype Node = Chr(c: char) | Picture | EndOfMessage | Elem(tag: string, attrs: Attrs, body: seq<Node>)

  function AttrText(attrs: Attrs): string {
    if |attrs| == 0 then ""
    else " " + attrs[0].0 + "=\"" + EscapeAttrValue(attrs[0].1) + "\"" + AttrText(attrs[1..])
  }

  function OpenSyms(tag: string, attrs: Attrs): seq<Sym> {
    [Open] + (Chars(tag + AttrText(attrs)) + [Sep])
  }

  function CloseSyms(tag: string): seq<Sym> {
    [Close] + (Chars(tag) + [Sep])
  }

  function Print(nodes: seq<Node>): seq<Sym>
    decreases nodes
  {
    if |nodes| == 0 then [] else PrintNode(nodes[0]) + Print(nodes[1..])
  }

  function PrintNode(node: Node): seq<Sym>
    decreases node
  {
    match node
    case Chr(c) => [Ch(c)]
    case Picture => [Slot]
    case EndOfMessage => [Eom]
    case Elem(tag, attrs, body) => OpenSyms(tag, attrs) + (Print(body) + CloseSyms(tag))
  }

  lemma {:induction false} PrintConcat(a: seq<Node>, b: seq<Node>)
    ensures Print(a + b) == Print(a) + Print(b)
  {
    if |a| == 0 {
      assert a + b == b;
    } else {
      assert (a + b)[0] == a[0] && (a + b)[1..] == a[1..] + b;
      PrintConcat(a[1..], b);
      assert PrintNode(a[0]) + (Print(a[1..]) + Print(b)) == PrintNode(a[0]) + Print(a[1..]) + Print(b);
    }
  }

  // ----- Headers

  function TakeUntil(s: string, c: char): (r: (string, string))
    ensures |r.1| <= |s|
  {
    if s == "" || s[0] == c then ("", s)
    else var r := TakeUntil(s[1..], c); ([s[0]] + r.0, r.1)
  }

  predicate Without(s: string, c: char) {
    forall i | 0 <= i < |s| :: s[i] != c
  }

  lemma {:induction false} TakeUntilFound(s: string, c: char, rest: string)
    requires Without(s, c) && (rest == "" || rest[0] == c)
    ensures TakeUntil(s + rest, c) == (s, rest)
  {
    if s == "" {
      assert s + rest == rest;
    } else {
      assert (s + rest)[0] == s[0] && (s + rest)[1..] == s[1..] + rest;
      TakeUntilFound(s[1..], c, rest);
      assert [s[0]] + s[1..] == s;
    }
  }

  function Unescape(s: string): string {
    if s == "" then ""
    else if "&amp;" <= s then "&" + Unescape(s[5..])
    else if "&quot;" <= s then "\"" + Unescape(s[6..])
    else [s[0]] + Unescape(s[1..])
  }

  /** ` key="value"` as often as it goes, up to the end of the text. */
  function ParseAttrs(s: string): Option<Attrs>
    decreases |s|
  {
    if s == "" then Some([])
    else if s[0] != ' ' then None
    else
      var (key, a) := TakeUntil(s[1..], '=');
      if !("=\"" <= a) then None
      else
        var (value, b) := TakeUntil(a[2..], '"');
        if b == "" then None
        else
          match ParseAttrs(b[1..])
          case None => None
          case Some(more) => Some([(key, Unescape(value))] + more)
  }

  function ParseHeader(s: string): Option<(string, Attrs)> {
    var (tag, rest) := TakeUntil(s, ' ');
    match ParseAttrs(rest)
    case None => None
    case Some(attrs) => Some((tag, attrs))
  }

  function EscapeChar(c: char): string {
    if c == '&' then "&amp;" else if c == '"' then "&quot;" else [c]
  }

  function Escaped(s: string): string {
    if s == "" then "" else EscapeChar(s[0]) + Escaped(s[1..])
  }

  lemma {:induction false} EscapeIsCharByChar(s: string)
    ensures EscapeAttrValue(s) == Escaped(s)
  {
    if s != "" {
      EscapeIsCharByChar(s[1..]);
      var first := if s[0] == '&' then "&amp;" else [s[0]];
      ReplaceCharConcat(first, ReplaceChar(s[1..], '&', "&amp;"), '"', "&quot;");
      assert ReplaceChar(first, '"', "&quot;") == EscapeChar(s[0]) by {
        if s[0] == '&' {
          NothingReplaced("&amp;", '"', "&quot;");
        } else {
          assert ReplaceChar(first[1..], '"', "&quot;") == "";
        }
      }
    }
  }

  lemma {:induction false} NothingReplaced(s: string, c: char, into: string)
    requires Without(s, c)
    ensures ReplaceChar(s, c, into) == s
  {
    if s != "" {
      NothingReplaced(s[1..], c, into);
      assert [s[0]] + s[1..] == s;
    }
  }

  lemma {:induction false} EscapedHasNoQuote(s: string)
    ensures Without(Escaped(s), '"')
  {
    if s != "" {
      EscapedHasNoQuote(s[1..]);
      assert Without(EscapeChar(s[0]), '"');
    }
  }

  lemma {:induction false} UnescapeEscaped(s: string)
    ensures Unescape(Escaped(s)) == s
  {
    if s != "" {
      UnescapeEscaped(s[1..]);
      var e, rest := Escaped(s), Escaped(s[1..]);
      if s[0] == '&' {
        assert "&amp;" <= e && e[5..] == rest;
      } else if s[0] == '"' {
        assert e[1] == 'q' && "&amp;"[1] == 'a';
        assert "&quot;" <= e && e[6..] == rest;
      } else {
        assert e[0] == s[0] && e[1..] == rest && "&amp;"[0] == '&' && "&quot;"[0] == '&';
      }
      assert [s[0]] + s[1..] == s;
    }
  }

  predicate GoodKeys(attrs: Attrs) {
    forall i | 0 <= i < |attrs| :: Without(attrs[i].0, '=')
  }

  lemma {:induction false} AttrsRead(attrs: Attrs)
    requires GoodKeys(attrs)
    ensures ParseAttrs(AttrText(attrs)) == Some(attrs)
  {
    if |attrs| > 0 {
      var (key, value) := attrs[0];
      assert Without(attrs[0].0, '=');
      AttrsRead(attrs[1..]);
      AttrRead(key, value, AttrText(attrs[1..]));
      assert [attrs[0]] + attrs[1..] == attrs;
    }
  }

  lemma AttrRead(key: string, value: string, more: string)
    requires Without(key, '=')
    ensures ParseAttrs(" " + key + "=\"" + EscapeAttrValue(value) + "\"" + more) ==
            match ParseAttrs(more)
            case None => None
            case Some(attrs) => Some([(key, value)] + attrs)
  {
    EscapeIsCharByChar(value);
    EscapedHasNoQuote(value);
    UnescapeEscaped(value);
    AttrPieces(key, Escaped(value), more);
    QuotedRead(key, Escaped(value), more);
  }

  lemma AttrPieces(key: string, escaped: string, more: string)
    ensures " " + key + "=\"" + escaped + "\"" + more == " " + (key + ("=\"" + (escaped + ("\"" + more))))
  {
  }

  lemma QuotedRead(key: string, escaped: string, more: string)
    requires Without(key, '=') && Without(escaped, '"')
    ensures ParseAttrs(" " + (key + ("=\"" + (escaped + ("\"" + more))))) ==
            match ParseAttrs(more)
            case None => None
            case Some(attrs) => Some([(key, Unescape(escaped))] + attrs)
  {
    var closing := "\"" + more;
    var tail := "=\"" + (escaped + closing);
    var text := " " + (key + tail);
    assert text[1..] == key + tail;
    TakeUntilFound(key, '=', tail);
    assert "=\"" <= tail && tail[2..] == escaped + closing;
    TakeUntilFound(escaped, '"', closing);
    assert closing[1..] == more;
  }

  lemma HeaderRead(tag: string, attrs: Attrs)
    requires Without(tag, ' ') && GoodKeys(attrs)
    ensures ParseHeader(tag + AttrText(attrs)) == Some((tag, attrs))
  {
    assert AttrText(attrs) == "" || AttrText(attrs)[0] == ' ';
    TakeUntilFound(tag, ' ', AttrText(attrs));
    AttrsRead(attrs);
  }

  // ----- The stack machine

  /** An element that is still open, with what it has so far. */
  datatype Frame = Frame(tag: string, attrs: Attrs, body: seq<Node>)

  /** The innermost open element comes first. */
  type Stack = s: seq<Frame> | |s| > 0 witness [Frame("", [], [])]

  function Add(stack: Stack, nodes: seq<Node>): Stack {
    [stack[0].(body := stack[0].body + nodes)] + stack[1..]
  }

  /** The ordinary text up to the next other symbol. */
  function ReadChars(s: seq<Sym>): (r: (string, seq<Sym>))
    ensures |r.1| <= |s|
  {
    if |s| == 0 || !s[0].Ch? then ("", s)
    else var r := ReadChars(s[1..]); ([s[0].c] + r.0, r.1)
  }

  function Run(s: seq<Sym>, stack: Stack): Option<Stack>
    decreases |s|
  {
    if |s| == 0 then Some(stack)
    else
      match s[0]
      case Ch(c) => Run(s[1..], Add(stack, [Chr(c)]))
      case Slot => Run(s[1..], Add(stack, [Picture]))
      case Eom => Run(s[1..], Add(stack, [EndOfMessage]))
      case Sep => None
      case Open =>
        var (text, rest) := ReadChars(s[1..]);
        if |rest| == 0 || rest[0] != Sep then None
        else
          var header := ParseHeader(text);
          if header.None? then None
          else Run(rest[1..], [Frame(header.value.0, header.value.1, [])] + stack)
      case Close =>
        var (text, rest) := ReadChars(s[1..]);
        if |rest| == 0 || rest[0] != Sep || |stack| == 1 || text != stack[0].tag then None
        else Run(rest[1..], Add(stack[1..], [Elem(stack[0].tag, stack[0].attrs, stack[0].body)]))
  }

  const ROOT := Frame("", [], [])

  /** Every tag closed is the innermost open one; what is left open at the end is the rest of the stack. */
  function Parse(segments: seq<Segment>): Option<Stack> {
    Run(Syms(segments), [ROOT])
  }

  lemma {:induction false} ReadCharsFound(text: string, rest: seq<Sym>)
    requires |rest| > 0 && !rest[0].Ch?
    ensures ReadChars(Chars(text) + rest) == (text, rest)
  {
    if text == "" {
      assert Chars(text) + rest == rest;
    } else {
      assert (Chars(text) + rest)[1..] == Chars(text[1..]) + rest;
      ReadCharsFound(text[1..], rest);
      assert [text[0]] + text[1..] == text;
    }
  }

  /** Names as the encoder has them. */
  predicate WellNamed(nodes: seq<Node>)
    decreases nodes
  {
    |nodes| == 0 || (NodeNamed(nodes[0]) && WellNamed(nodes[1..]))
  }

  predicate NodeNamed(node: Node)
    decreases node
  {
    node.Elem? ==> Without(node.tag, ' ') && GoodKeys(node.attrs) && WellNamed(node.body)
  }

  lemma OpenRun(tag: string, attrs: Attrs, rest: seq<Sym>, stack: Stack)
    requires Without(tag, ' ') && GoodKeys(attrs)
    ensures Run(OpenSyms(tag, attrs) + rest, stack) == Run(rest, [Frame(tag, attrs, [])] + stack)
  {
    var s := OpenSyms(tag, attrs) + rest;
    assert s[1..] == Chars(tag + AttrText(attrs)) + ([Sep] + rest);
    ReadCharsFound(tag + AttrText(attrs), [Sep] + rest);
    HeaderRead(tag, attrs);
    assert ([Sep] + rest)[1..] == rest;
  }

  lemma CloseRun(rest: seq<Sym>, stack: Stack)
    requires |stack| > 1
    ensures Run(CloseSyms(stack[0].tag) + rest, stack)
            == Run(rest, Add(stack[1..], [Elem(stack[0].tag, stack[0].attrs, stack[0].body)]))
  {
    var tag := stack[0].tag;
    var s := CloseSyms(tag) + rest;
    assert s[1..] == Chars(tag) + ([Sep] + rest);
    ReadCharsFound(tag, [Sep] + rest);
    assert ([Sep] + rest)[1..] == rest;
  }

  lemma AddTwice(stack: Stack, a: seq<Node>, b: seq<Node>)
    ensures Add(Add(stack, a), b) == Add(stack, a + b)
  {
    assert stack[0].body + a + b == stack[0].body + (a + b);
  }

  /** Printed nodes are read back as the same nodes, whatever follows. */
  lemma {:induction false} PrintRun(nodes: seq<Node>, rest: seq<Sym>, stack: Stack)
    requires WellNamed(nodes)
    ensures Run(Print(nodes) + rest, stack) == Run(rest, Add(stack, nodes))
    decreases nodes, 0
  {
    if |nodes| == 0 {
      assert Print(nodes) + rest == rest && stack[0].body + [] == stack[0].body;
      assert Add(stack, nodes) == stack;
    } else {
      assert Print(nodes) + rest == PrintNode(nodes[0]) + (Print(nodes[1..]) + rest);
      NodeRun(nodes[0], Print(nodes[1..]) + rest, stack);
      PrintRun(nodes[1..], rest, Add(stack, [nodes[0]]));
      AddTwice(stack, [nodes[0]], nodes[1..]);
      assert [nodes[0]] + nodes[1..] == nodes;
    }
  }

  lemma {:induction false} NodeRun(node: Node, rest: seq<Sym>, stack: Stack)
    requires NodeNamed(node)
    ensures Run(PrintNode(node) + rest, stack) == Run(rest, Add(stack, [node]))
    decreases node, 0
  {
    if node.Elem? {
      var inside: Stack := [Frame(node.tag, node.attrs, [])] + stack;
      var closing := CloseSyms(node.tag) + rest;
      assert PrintNode(node) + rest == OpenSyms(node.tag, node.attrs) + (Print(node.body) + closing);
      OpenRun(node.tag, node.attrs, Print(node.body) + closing, stack);
      PrintRun(node.body, closing, inside);
      assert [] + node.body == node.body;
      assert Add(inside, node.body) == [Frame(node.tag, node.attrs, node.body)] + stack;
      CloseRun(rest, Add(inside, node.body));
    } else {
      assert (PrintNode(node) + rest)[1..] == rest;
    }
  }
}
