/** The encoder's building blocks: segments, tags, and the image prompts that are handed out in order. */
module XtmlSegments {
  import opened Prelude
  import opened Strings

  const OPEN_TOKEN := "<|open|>"
  const CLOSE_TOKEN := "<|close|>"
  const SEP_TOKEN := "<|sep|>"
  const END_OF_MSG_TOKEN := "<|end_of_msg|>"
  const IMAGE_PLACEHOLDER := "<|kimi_image_placeholder|>"

  datatype Segment = Segment(text: string, allowSpecial: bool)

  datatype Error = MorePlaceholders | PromptsLeft | NoToolName | MissingKey | BadEffort

  /** An empty text makes no segment. */
  function Segments(text: string, allowSpecial: bool): seq<Segment> {
    if text == "" then [] else [Segment(text, allowSpecial)]
  }

  function Control(text: string): seq<Segment> { Segments(text, true) }

  function Plain(text: string): seq<Segment> { Segments(text, false) }

  function EscapeAttrValue(value: string): string {
    ReplaceChar(ReplaceChar(value, '&', "&amp;"), '"', "&quot;")
  }

  function Attr(key: string, value: string): seq<Segment> {
    Plain(" " + key) + Plain("=\"") + Plain(EscapeAttrValue(value)) + Plain("\"")
  }

  type Attrs = seq<(string, string)>

  function AttrSegments(attrs: Attrs): seq<Segment> {
    if |attrs| == 0 then [] else Attr(attrs[0].0, attrs[0].1) + AttrSegments(attrs[1..])
  }

  function OpenTag(tag: string, attrs: Attrs): seq<Segment> {
    Control(OPEN_TOKEN) + (Plain(tag) + (AttrSegments(attrs) + Control(SEP_TOKEN)))
  }

  function CloseTag(tag: string): seq<Segment> {
    Control(CLOSE_TOKEN) + (Plain(tag) + Control(SEP_TOKEN))
  }

  function EndOfMsg(): seq<Segment> { Control(END_OF_MSG_TOKEN) }

  // ----- Pieces: what a rendering consists of before the image prompts are known

  datatype Piece =
    | Done(segment: Segment)     // already final
    | UserText(text: string)     // placeholders in it take a prompt each, if prompts were given
    | Image                      // takes a prompt
    | Fail(error: Error)         // rendering stops here

  type Prompts = Option<seq<string>>

  /** Segments, and the number of prompts handed out so far. */
  type Filled = Result<(seq<Segment>, nat), Error>

  function NextPrompt(prompts: Prompts, index: nat): Result<(string, nat), Error> {
    match prompts
    case None => Ok((IMAGE_PLACEHOLDER, index))
    case Some(list) => if index >= |list| then Err(MorePlaceholders) else Ok((list[index], index + 1))
  }

  /** `text.split(IMAGE_PLACEHOLDER)` */
  function Split(text: string): (r: seq<string>)
    ensures |r| > 0
    decreases |text|
  {
    if text == "" then [""]
    else if IMAGE_PLACEHOLDER <= text then [""] + Split(text[|IMAGE_PLACEHOLDER|..])
    else var r := Split(text[1..]); [[text[0]] + r[0]] + r[1..]
  }

  /** `before` in front of what comes next. */
  function Continue(before: seq<Segment>, rest: Filled): Filled {
    match rest
    case Ok(p) => Ok((before + p.0, p.1))
    case Err(e) => Err(e)
  }

  function FillImage(prompts: Prompts, index: nat): Filled {
    match NextPrompt(prompts, index)
    case Ok(p) => Ok((Control(p.0), p.1))
    case Err(e) => Err(e)
  }

  /** The parts with a prompt between each two. */
  function FillParts(prompts: Prompts, index: nat, parts: seq<string>): Filled
    requires |parts| > 0
    decreases |parts|
  {
    if |parts| == 1 then Ok((Plain(parts[0]), index))
    else
      match FillImage(prompts, index)
      case Err(e) => Err(e)
      case Ok(p) => Continue(Plain(parts[0]) + p.0, FillParts(prompts, p.1, parts[1..]))
  }

  function FillText(prompts: Prompts, index: nat, text: string): Filled {
    if prompts.None? then Ok((Plain(text), index)) else FillParts(prompts, index, Split(text))
  }

  function FillPiece(prompts: Prompts, index: nat, piece: Piece): Filled {
    match piece
    case Done(segment) => Ok(([segment], index))
    case UserText(text) => FillText(prompts, index, text)
    case Image => FillImage(prompts, index)
    case Fail(error) => Err(error)
  }

  /** The pieces one after the other; the first failure is the outcome. */
  function Fill(prompts: Prompts, index: nat, pieces: seq<Piece>): Filled
    decreases |pieces|
  {
    if |pieces| == 0 then Ok(([], index))
    else
      match FillPiece(prompts, index, pieces[0])
      case Err(e) => Err(e)
      case Ok(p) => Continue(p.0, Fill(prompts, p.1, pieces[1..]))
  }

  function Ready(segments: seq<Segment>): (r: seq<Piece>)
    ensures |r| == |segments|
  {
    if |segments| == 0 then [] else [Done(segments[0])] + Ready(segments[1..])
  }

  // ----- Filling piece by piece

  lemma ContinueTwice(a: seq<Segment>, b: seq<Segment>, r: Filled)
    ensures Continue(a, Continue(b, r)) == Continue(a + b, r)
  {
    if r.Ok? {
      assert a + (b + r.value.0) == a + b + r.value.0;
    }
  }

  lemma ContinueNothing(r: Filled)
    ensures Continue([], r) == r
  {
    if r.Ok? {
      assert [] + r.value.0 == r.value.0;
    }
  }

  lemma {:induction false} FillConcat(prompts: Prompts, index: nat, a: seq<Piece>, b: seq<Piece>)
    ensures Fill(prompts, index, a + b) ==
            match Fill(prompts, index, a)
            case Err(e) => Err(e)
            case Ok(p) => Continue(p.0, Fill(prompts, p.1, b))
    decreases |a|
  {
    if |a| == 0 {
      assert a + b == b;
      ContinueNothing(Fill(prompts, index, b));
    } else {
      assert (a + b)[0] == a[0] && (a + b)[1..] == a[1..] + b;
      var first := FillPiece(prompts, index, a[0]);
      if first.Ok? {
        FillConcat(prompts, first.value.1, a[1..], b);
        var rest := Fill(prompts, first.value.1, a[1..]);
        if rest.Ok? {
          ContinueTwice(first.value.0, rest.value.0, Fill(prompts, rest.value.1, b));
        }
      }
    }
  }

  lemma {:induction false} FillReady(prompts: Prompts, index: nat, segments: seq<Segment>)
    ensures Fill(prompts, index, Ready(segments)) == Ok((segments, index))
  {
    if |segments| > 0 {
      FillReady(prompts, index, segments[1..]);
      assert Ready(segments)[1..] == Ready(segments[1..]);
      assert [segments[0]] + segments[1..] == segments;
    }
  }

  lemma FillOne(prompts: Prompts, index: nat, piece: Piece)
    ensures Fill(prompts, index, [piece]) == FillPiece(prompts, index, piece)
  {
    var r := FillPiece(prompts, index, piece);
    if r.Ok? {
      assert r.value.0 + [] == r.value.0;
      assert Fill(prompts, r.value.1, [piece][1..]) == Ok(([], r.value.1));
    }
  }
}
