/** The tree that a conversation stands for, written down without any rendering, and the proof that
    the encoder's pieces print it. */
module XtmlForest {
  import opened Prelude
  import opened Strings
  import opened XtmlMessages
  import opened XtmlToolResults
  import opened XtmlSegments
  import opened XtmlEncoder
  import opened XtmlParsing

  // ----- The trees; `split` says whether placeholders in text stand for images

  function TextNodes(text: string, split: bool): seq<Node>
    decreases |text|
  {
    if text == "" then []
    else if split && IMAGE_PLACEHOLDER <= text then [Picture] + TextNodes(text[|IMAGE_PLACEHOLDER|..], split)
    else [Chr(text[0])] + TextNodes(text[1..], split)
  }

  function PartNodes(part: Part, split: bool): seq<Node> {
    match part
    case ImagePart => [Picture]
    case TextPart(text) => TextNodes(text, split)
    case MalformedPart => []
  }

  function PartsNodes(parts: seq<Part>, split: bool): seq<Node> {
    if |parts| == 0 then [] else PartNodes(parts[0], split) + PartsNodes(parts[1..], split)
  }

  function ContentNodes(content: Content, split: bool): seq<Node> {
    match content
    case NoContent => []
    case Text(text) => TextNodes(text, split)
    case Parts(parts) => PartsNodes(parts, split)
  }

  function ThinkNode(m: Message, split: bool): Node
    requires m.Message?
  {
    var r := Reasoning(m);
    Elem("think", [], if r.Is? && !Blank(r.text) then TextNodes(r.text, split) else [])
  }

  function ArgumentNode(key: string, value: Value, split: bool): Node {
    Elem("argument", [("key", key), ("type", XtmlType(value))], TextNodes(value.text, split))
  }

  function ArgumentNodes(arguments: seq<(string, Value)>, split: bool): seq<Node> {
    if |arguments| == 0 then []
    else [ArgumentNode(arguments[0].0, arguments[0].1, split)] + ArgumentNodes(arguments[1..], split)
  }

  function CallBodyNodes(fn: ToolFunction, split: bool): seq<Node> {
    match fn.jsonBlock
    case Some(text) => [Elem("json", [("type", "object")], TextNodes(text, split))]
    case None => ArgumentNodes(fn.arguments, split)
  }

  function CallNodes(call: Call, index: nat, split: bool): seq<Node> {
    var fn := call.Fn();
    if fn.name.Absent? then []
    else [Elem("call", [("tool", NameText(fn.name)), ("index", Digits(index))], CallBodyNodes(fn, split))]
  }

  function CallsNodes(calls: seq<Call>, index: nat, split: bool): seq<Node>
    decreases |calls|
  {
    if |calls| == 0 then [] else CallNodes(calls[0], index, split) + CallsNodes(calls[1..], index + 1, split)
  }

  /** Reasoning, response and calls. */
  function AssistantNodes(m: Message, thinking: bool, split: bool): seq<Node>
    requires m.Message?
  {
    (if thinking then [ThinkNode(m, split)] else [])
    + ([Elem("response", [], ContentNodes(m.content, split))]
    + (if |m.toolCalls| > 0 then [Elem("tools", [], CallsNodes(m.toolCalls, 1, split))] else []))
  }

  function Enclosed(attrs: Attrs, body: seq<Node>): seq<Node> {
    [Elem("message", attrs, body), EndOfMessage]
  }

  function InternalNodes(kind: string, body: string): seq<Node> {
    Enclosed([("role", "system"), ("type", kind)], TextNodes(body, false))
  }

  function MessageNodes(m: Message, calls: seq<Call>, toolIndex: nat, thinking: bool, split: bool): seq<Node> {
    if m.NotADict? || m.role.Absent? then []
    else if m.role == Is("user") then Enclosed(RoleAttrs("user", m.name), ContentNodes(m.content, split))
    else if m.role == Is("system") then
      if m.tools.Some? then InternalNodes("tool-declare", ToolDeclareText(m.tools.value, true))
      else Enclosed(RoleAttrs("system", m.name), ContentNodes(m.content, split))
    else if IsTool(m) then
      match ToolName(m, calls, toolIndex + 1)
      case Err(_) => []
      case Ok(name) => Enclosed(ToolAttrs(name, toolIndex + 1), ContentNodes(m.content, split))
    else if IsAssistant(m) then Enclosed(RoleAttrs("assistant", m.name), AssistantNodes(m, thinking, split))
    else []
  }

  function MessagesNodes(ms: seq<Message>, calls: seq<Call>, toolIndex: nat, thinking: bool, split: bool): seq<Node>
    decreases |ms|
  {
    if |ms| == 0 then []
    else
      MessageNodes(ms[0], calls, toolIndex, thinking, split)
        + MessagesNodes(ms[1..], NextCalls(ms[0], calls), NextToolIndex(ms[0], toolIndex), thinking, split)
  }

  function DeclaredNodes(options: Options): seq<Node> {
    if options.tools.Some? then InternalNodes("tool-declare", ToolDeclareText(options.tools.value, false)) else []
  }

  function EffortNodes(options: Options): seq<Node> {
    if !options.thinking || options.thinkingEffort.None? || !ValidEffort(options.thinkingEffort.value) then []
    else InternalNodes("thinking-effort", EffortText(options.thinkingEffort.value))
  }

  function InstructionNodes(options: Options): seq<Node> {
    (if options.toolChoice.OtherChoice? then []
     else InternalNodes("tool-choice", ChoiceText(options.toolChoice.RequiredTools?)))
    + (if options.responseFormat.OtherFormat? then []
       else InternalNodes("response-format", FormatText(options.responseFormat)))
  }

  /** The messages of a conversation, with those the options add. */
  function ChatNodes(ms: seq<Message>, options: Options, split: bool): seq<Node> {
    DeclaredNodes(options)
    + (EffortNodes(options)
    + (MessagesNodes(ms, [], 0, options.thinking, split)
    + InstructionNodes(options)))
  }

  // ----- The symbols of pieces

  function PieceSyms(piece: Piece, split: bool): seq<Sym> {
    match piece
    case Done(segment) => SegmentSyms(segment)
    case UserText(text) => Print(TextNodes(text, split))
    case Image => [Slot]
    case Fail(_) => []
  }

  function PiecesSyms(pieces: seq<Piece>, split: bool): seq<Sym> {
    if |pieces| == 0 then [] else PieceSyms(pieces[0], split) + PiecesSyms(pieces[1..], split)
  }

  /** No final segment stands for an image. */
  predicate NoImages(pieces: seq<Piece>) {
    forall i | 0 <= i < |pieces| :: pieces[i].Done? ==> SegmentImages(pieces[i].segment) == []
  }

  lemma {:induction false} PiecesSymsConcat(a: seq<Piece>, b: seq<Piece>, split: bool)
    ensures PiecesSyms(a + b, split) == PiecesSyms(a, split) + PiecesSyms(b, split)
  {
    if |a| == 0 {
      assert a + b == b;
    } else {
      assert (a + b)[0] == a[0] && (a + b)[1..] == a[1..] + b;
      PiecesSymsConcat(a[1..], b, split);
      assert PieceSyms(a[0], split) + (PiecesSyms(a[1..], split) + PiecesSyms(b, split))
          == PieceSyms(a[0], split) + PiecesSyms(a[1..], split) + PiecesSyms(b, split);
    }
  }

  lemma {:induction false} ReadySyms(segments: seq<Segment>, split: bool)
    requires Images(segments) == []
    ensures PiecesSyms(Ready(segments), split) == Syms(segments) && NoImages(Ready(segments))
  {
    if |segments| > 0 {
      assert SegmentImages(segments[0]) == [] && Images(segments[1..]) == [];
      ReadySyms(segments[1..], split);
      assert Ready(segments)[1..] == Ready(segments[1..]);
    }
  }

  // ----- Tags

  lemma AttrSyms(key: string, value: string)
    ensures Syms(Attr(key, value)) == Chars(" " + key + "=\"" + EscapeAttrValue(value) + "\"")
    ensures Images(Attr(key, value)) == []
  {
    var a, b, c, d := " " + key, "=\"", EscapeAttrValue(value), "\"";
    SymsOfPlain(a);
    SymsOfPlain(b);
    SymsOfPlain(c);
    SymsOfPlain(d);
    SymsConcat(Plain(a), Plain(b));
    SymsConcat(Plain(a) + Plain(b), Plain(c));
    SymsConcat(Plain(a) + Plain(b) + Plain(c), Plain(d));
    CharsConcat(a, b);
    CharsConcat(a + b, c);
    CharsConcat(a + b + c, d);
  }

  lemma {:induction false} AttrsSyms(attrs: Attrs)
    ensures Syms(AttrSegments(attrs)) == Chars(AttrText(attrs)) && Images(AttrSegments(attrs)) == []
  {
    if |attrs| > 0 {
      var (key, value) := attrs[0];
      AttrSyms(key, value);
      AttrsSyms(attrs[1..]);
      SymsConcat(Attr(key, value), AttrSegments(attrs[1..]));
      CharsConcat(" " + key + "=\"" + EscapeAttrValue(value) + "\"", AttrText(attrs[1..]));
    }
  }

  lemma ControlSyms()
    ensures Syms(Control(OPEN_TOKEN)) == [Open] && Images(Control(OPEN_TOKEN)) == []
    ensures Syms(Control(CLOSE_TOKEN)) == [Close] && Images(Control(CLOSE_TOKEN)) == []
    ensures Syms(Control(SEP_TOKEN)) == [Sep] && Images(Control(SEP_TOKEN)) == []
    ensures Syms(Control(END_OF_MSG_TOKEN)) == [Eom] && Images(Control(END_OF_MSG_TOKEN)) == []
  {
    assert OPEN_TOKEN[2] == 'o' && CLOSE_TOKEN[2] == 'c' && SEP_TOKEN[2] == 's' && END_OF_MSG_TOKEN[2] == 'e';
    SymsOfControl(OPEN_TOKEN);
    SymsOfControl(CLOSE_TOKEN);
    SymsOfControl(SEP_TOKEN);
    SymsOfControl(END_OF_MSG_TOKEN);
  }

  lemma SymsOfFour(a: seq<Segment>, b: seq<Segment>, c: seq<Segment>, d: seq<Segment>)
    requires Images(a) == [] && Images(b) == [] && Images(c) == [] && Images(d) == []
    ensures Syms(a + (b + (c + d))) == Syms(a) + (Syms(b) + (Syms(c) + Syms(d)))
    ensures Images(a + (b + (c + d))) == []
  {
    SymsConcat(c, d);
    SymsConcat(b, c + d);
    SymsConcat(a, b + (c + d));
  }

  lemma OpenTagSyms(tag: string, attrs: Attrs)
    ensures Syms(OpenTag(tag, attrs)) == OpenSyms(tag, attrs) && Images(OpenTag(tag, attrs)) == []
  {
    ControlSyms();
    SymsOfPlain(tag);
    AttrsSyms(attrs);
    SymsOfFour(Control(OPEN_TOKEN), Plain(tag), AttrSegments(attrs), Control(SEP_TOKEN));
    CharsConcat(tag, AttrText(attrs));
    Inward(Chars(tag), Chars(AttrText(attrs)), [Sep]);
  }

  lemma Inward(a: seq<Sym>, b: seq<Sym>, c: seq<Sym>)
    ensures a + (b + c) == a + b + c
  {
  }

  lemma CloseTagSyms(tag: string)
    ensures Syms(CloseTag(tag)) == CloseSyms(tag) && Images(CloseTag(tag)) == []
  {
    ControlSyms();
    SymsOfPlain(tag);
    SymsConcat(Plain(tag), Control(SEP_TOKEN));
    SymsConcat(Control(CLOSE_TOKEN), Plain(tag) + Control(SEP_TOKEN));
  }

  // ----- Pieces that print nodes

  ghost predicate Renders(pieces: seq<Piece>, nodes: seq<Node>, split: bool) {
    PiecesSyms(pieces, split) == Print(nodes) && WellNamed(nodes) && NoImages(pieces)
  }

  lemma {:induction false} WellNamedConcat(a: seq<Node>, b: seq<Node>)
    requires WellNamed(a) && WellNamed(b)
    ensures WellNamed(a + b)
  {
    if |a| == 0 {
      assert a + b == b;
    } else {
      assert (a + b)[0] == a[0] && (a + b)[1..] == a[1..] + b;
      WellNamedConcat(a[1..], b);
    }
  }

  lemma RendersNothing(split: bool)
    ensures Renders([], [], split)
  {
  }

  lemma RendersConcat(p: seq<Piece>, q: seq<Piece>, a: seq<Node>, b: seq<Node>, split: bool)
    requires Renders(p, a, split) && Renders(q, b, split)
    ensures Renders(p + q, a + b, split)
  {
    PiecesSymsConcat(p, q, split);
    PrintConcat(a, b);
    WellNamedConcat(a, b);
  }

  lemma BetweenTags(a: seq<Segment>, body: seq<Piece>, b: seq<Segment>, split: bool)
    requires Images(a) == [] && Images(b) == []
    ensures PiecesSyms(Ready(a) + (body + Ready(b)), split) == Syms(a) + (PiecesSyms(body, split) + Syms(b))
    ensures NoImages(body) ==> NoImages(Ready(a) + (body + Ready(b)))
  {
    ReadySyms(a, split);
    ReadySyms(b, split);
    PiecesSymsConcat(body, Ready(b), split);
    PiecesSymsConcat(Ready(a), body + Ready(b), split);
  }

  lemma RendersElement(tag: string, attrs: Attrs, body: seq<Piece>, nodes: seq<Node>, split: bool)
    requires Renders(body, nodes, split) && Without(tag, ' ') && GoodKeys(attrs)
    ensures Renders(Element(tag, attrs, body), [Elem(tag, attrs, nodes)], split)
  {
    OpenTagSyms(tag, attrs);
    CloseTagSyms(tag);
    BetweenTags(OpenTag(tag, attrs), body, CloseTag(tag), split);
    PrintOne(Elem(tag, attrs, nodes));
  }

  lemma PrintOne(node: Node)
    ensures Print([node]) == PrintNode(node)
    ensures NodeNamed(node) ==> WellNamed([node])
  {
    assert [node][1..] == [];
    assert PrintNode(node) + [] == PrintNode(node);
  }

  lemma {:induction false} TextNamed(text: string, split: bool)
    ensures WellNamed(TextNodes(text, split))
    decreases |text|
  {
    if text != "" {
      if split && IMAGE_PLACEHOLDER <= text {
        TextNamed(text[|IMAGE_PLACEHOLDER|..], split);
      } else {
        TextNamed(text[1..], split);
      }
    }
  }

  lemma {:induction false} PrintText(text: string)
    ensures Print(TextNodes(text, false)) == Chars(text)
  {
    if text != "" {
      PrintText(text[1..]);
      assert TextNodes(text, false)[1..] == TextNodes(text[1..], false);
    }
  }

  lemma RendersText(text: string, split: bool)
    ensures Renders([UserText(text)], TextNodes(text, split), split)
  {
    TextNamed(text, split);
    assert [UserText(text)][1..] == [];
    assert Print(TextNodes(text, split)) + [] == Print(TextNodes(text, split));
  }

  lemma RendersTextElement(tag: string, attrs: Attrs, text: string, split: bool)
    requires Without(tag, ' ') && GoodKeys(attrs)
    ensures Renders(Element(tag, attrs, [UserText(text)]), [Elem(tag, attrs, TextNodes(text, split))], split)
  {
    RendersText(text, split);
    RendersElement(tag, attrs, [UserText(text)], TextNodes(text, split), split);
  }

  lemma RendersFailure(error: Error, split: bool)
    ensures Renders([Fail(error)], [], split)
  {
    assert [Fail(error)][1..] == [];
  }

  lemma RendersPart(part: Part, split: bool)
    ensures Renders(PartPieces(part), PartNodes(part, split), split)
  {
    match part
    case ImagePart =>
      assert [Image][1..] == [];
      PrintOne(Picture);
    case TextPart(text) => RendersText(text, split);
    case MalformedPart => RendersFailure(MissingKey, split);
  }

  lemma {:induction false} RendersParts(parts: seq<Part>, split: bool)
    ensures Renders(PartsPieces(parts), PartsNodes(parts, split), split)
  {
    if |parts| > 0 {
      RendersPart(parts[0], split);
      RendersParts(parts[1..], split);
      RendersConcat(PartPieces(parts[0]), PartsPieces(parts[1..]),
                    PartNodes(parts[0], split), PartsNodes(parts[1..], split), split);
    }
  }

  lemma RendersContent(content: Content, split: bool)
    ensures Renders(ContentPieces(content), ContentNodes(content, split), split)
  {
    match content
    case NoContent =>
    case Text(text) => RendersText(text, split);
    case Parts(parts) => RendersParts(parts, split);
  }

  lemma RendersThink(m: Message, split: bool)
    requires m.Message?
    ensures Renders(ThinkPieces(m), [ThinkNode(m, split)], split)
  {
    var r := Reasoning(m);
    if r.Is? && !Blank(r.text) {
      RendersTextElement("think", [], r.text, split);
    } else {
      RendersElement("think", [], [], [], split);
    }
  }

  lemma {:induction false} RendersArguments(arguments: seq<(string, Value)>, split: bool)
    ensures Renders(ArgumentPieces(arguments), ArgumentNodes(arguments, split), split)
  {
    if |arguments| > 0 {
      var (key, value) := arguments[0];
      var attrs := [("key", key), ("type", XtmlType(value))];
      RendersTextElement("argument", attrs, value.text, split);
      RendersArguments(arguments[1..], split);
      RendersConcat(Element("argument", attrs, [UserText(value.text)]), ArgumentPieces(arguments[1..]),
                    [ArgumentNode(key, value, split)], ArgumentNodes(arguments[1..], split), split);
    }
  }

  lemma RendersCallBody(fn: ToolFunction, split: bool)
    ensures Renders(CallBody(fn), CallBodyNodes(fn, split), split)
  {
    match fn.jsonBlock
    case Some(text) => RendersTextElement("json", [("type", "object")], text, split);
    case None => RendersArguments(fn.arguments, split);
  }

  lemma RendersCall(call: Call, index: nat, split: bool)
    ensures Renders(CallPieces(call, index), CallNodes(call, index, split), split)
  {
    var fn := call.Fn();
    if fn.name.Absent? {
      RendersFailure(MissingKey, split);
    } else {
      RendersCallBody(fn, split);
      RendersElement("call", [("tool", NameText(fn.name)), ("index", Digits(index))],
                     CallBody(fn), CallBodyNodes(fn, split), split);
    }
  }

  lemma {:induction false} RendersCalls(calls: seq<Call>, index: nat, split: bool)
    ensures Renders(CallsPieces(calls, index), CallsNodes(calls, index, split), split)
    decreases |calls|
  {
    if |calls| > 0 {
      RendersCall(calls[0], index, split);
      RendersCalls(calls[1..], index + 1, split);
      RendersConcat(CallPieces(calls[0], index), CallsPieces(calls[1..], index + 1),
                    CallNodes(calls[0], index, split), CallsNodes(calls[1..], index + 1, split), split);
    }
  }

  lemma RendersAssistant(m: Message, thinking: bool, split: bool)
    requires m.Message?
    ensures Renders(AssistantPieces(m, thinking), AssistantNodes(m, thinking, split), split)
  {
    var response := Element("response", [], ContentPieces(m.content));
    var responseNodes := [Elem("response", [], ContentNodes(m.content, split))];
    var tools := if |m.toolCalls| > 0 then Element("tools", [], CallsPieces(m.toolCalls, 1)) else [];
    var toolsNodes := if |m.toolCalls| > 0 then [Elem("tools", [], CallsNodes(m.toolCalls, 1, split))] else [];
    RendersContent(m.content, split);
    RendersElement("response", [], ContentPieces(m.content), ContentNodes(m.content, split), split);
    RendersCalls(m.toolCalls, 1, split);
    RendersElement("tools", [], CallsPieces(m.toolCalls, 1), CallsNodes(m.toolCalls, 1, split), split);
    RendersConcat(response, tools, responseNodes, toolsNodes, split);
    RendersThink(m, split);
    RendersConcat(if thinking then ThinkPieces(m) else [], response + tools,
                  if thinking then [ThinkNode(m, split)] else [], responseNodes + toolsNodes, split);
  }

  lemma RendersMessageElement(attrs: Attrs, body: seq<Piece>, nodes: seq<Node>, split: bool)
    requires Renders(body, nodes, split) && GoodKeys(attrs)
    ensures Renders(MessageElement(attrs, body), Enclosed(attrs, nodes), split)
  {
    RendersElement("message", attrs, body, nodes, split);
    ControlSyms();
    ReadySyms(EndOfMsg(), split);
    PrintOne(EndOfMessage);
    RendersConcat(Element("message", attrs, body), Ready(EndOfMsg()),
                  [Elem("message", attrs, nodes)], [EndOfMessage], split);
    assert [Elem("message", attrs, nodes)] + [EndOfMessage] == Enclosed(attrs, nodes);
  }

  lemma PrintEnclosed(attrs: Attrs, nodes: seq<Node>)
    requires WellNamed(nodes) && GoodKeys(attrs)
    ensures Print(Enclosed(attrs, nodes)) ==
            OpenSyms("message", attrs) + (Print(nodes) + (CloseSyms("message") + [Eom]))
    ensures WellNamed(Enclosed(attrs, nodes))
  {
    var element := Elem("message", attrs, nodes);
    PrintOne(EndOfMessage);
    PrintOne(element);
    PrintConcat([element], [EndOfMessage]);
    WellNamedConcat([element], [EndOfMessage]);
    assert [element] + [EndOfMessage] == Enclosed(attrs, nodes);
    Outward(OpenSyms("message", attrs), Print(nodes), CloseSyms("message"), [Eom]);
  }

  lemma Outward(a: seq<Sym>, b: seq<Sym>, c: seq<Sym>, d: seq<Sym>)
    ensures a + (b + c) + d == a + (b + (c + d))
  {
  }

  lemma FramedSyms(attrs: Attrs, body: seq<Segment>, nodes: seq<Node>)
    requires Syms(body) == Print(nodes) && Images(body) == [] && WellNamed(nodes) && GoodKeys(attrs)
    ensures Syms(Framed(attrs, body)) == Print(Enclosed(attrs, nodes))
    ensures Images(Framed(attrs, body)) == [] && WellNamed(Enclosed(attrs, nodes))
  {
    OpenTagSyms("message", attrs);
    CloseTagSyms("message");
    ControlSyms();
    SymsOfFour(OpenTag("message", attrs), body, CloseTag("message"), EndOfMsg());
    PrintEnclosed(attrs, nodes);
  }

  lemma InternalSyms(kind: string, body: string)
    ensures Syms(InternalMessage(kind, body)) == Print(InternalNodes(kind, body))
    ensures Images(InternalMessage(kind, body)) == [] && WellNamed(InternalNodes(kind, body))
  {
    SymsOfPlain(body);
    PrintText(body);
    TextNamed(body, false);
    FramedSyms([("role", "system"), ("type", kind)], Plain(body), TextNodes(body, false));
  }

  lemma RendersInternal(kind: string, body: string, split: bool)
    ensures Renders(Ready(InternalMessage(kind, body)), InternalNodes(kind, body), split)
  {
    InternalSyms(kind, body);
    ReadySyms(InternalMessage(kind, body), split);
  }

  lemma RoleAttrsAreGood(role: string, name: Field)
    ensures GoodKeys(RoleAttrs(role, name))
  {
  }

  lemma RendersWithContent(attrs: Attrs, content: Content, split: bool)
    requires GoodKeys(attrs)
    ensures Renders(MessageElement(attrs, ContentPieces(content)), Enclosed(attrs, ContentNodes(content, split)), split)
  {
    RendersContent(content, split);
    RendersMessageElement(attrs, ContentPieces(content), ContentNodes(content, split), split);
  }

  lemma RendersToolMessage(m: Message, calls: seq<Call>, toolIndex: nat, thinking: bool, split: bool)
    requires IsTool(m)
    ensures Renders(MessagePieces(m, calls, toolIndex, thinking),
                    MessageNodes(m, calls, toolIndex, thinking, split), split)
  {
    var name := ToolName(m, calls, toolIndex + 1);
    if name.Err? {
      RendersFailure(name.error, split);
    } else {
      RendersWithContent(ToolAttrs(name.value, toolIndex + 1), m.content, split);
    }
  }

  lemma RendersMessage(m: Message, calls: seq<Call>, toolIndex: nat, thinking: bool, split: bool)
    ensures Renders(MessagePieces(m, calls, toolIndex, thinking),
                    MessageNodes(m, calls, toolIndex, thinking, split), split)
  {
    if m.NotADict? {
    } else if m.role.Absent? {
      RendersFailure(MissingKey, split);
    } else if m.role == Is("user") {
      RoleAttrsAreGood("user", m.name);
      RendersWithContent(RoleAttrs("user", m.name), m.content, split);
    } else if m.role == Is("system") {
      if m.tools.Some? {
        RendersInternal("tool-declare", ToolDeclareText(m.tools.value, true), split);
      } else {
        RoleAttrsAreGood("system", m.name);
        RendersWithContent(RoleAttrs("system", m.name), m.content, split);
      }
    } else if IsTool(m) {
      RendersToolMessage(m, calls, toolIndex, thinking, split);
    } else if IsAssistant(m) {
      RoleAttrsAreGood("assistant", m.name);
      RendersAssistant(m, thinking, split);
      RendersMessageElement(RoleAttrs("assistant", m.name), AssistantPieces(m, thinking),
                            AssistantNodes(m, thinking, split), split);
    } else {
      RendersNothing(split);
    }
  }

  lemma {:induction false} RendersMessages(ms: seq<Message>, calls: seq<Call>, toolIndex: nat,
                                           thinking: bool, split: bool)
    ensures Renders(MessagesPieces(ms, calls, toolIndex, thinking),
                    MessagesNodes(ms, calls, toolIndex, thinking, split), split)
    decreases |ms|
  {
    if |ms| > 0 {
      var nextCalls, nextIndex := NextCalls(ms[0], calls), NextToolIndex(ms[0], toolIndex);
      RendersMessage(ms[0], calls, toolIndex, thinking, split);
      RendersMessages(ms[1..], nextCalls, nextIndex, thinking, split);
      RendersConcat(MessagePieces(ms[0], calls, toolIndex, thinking),
                    MessagesPieces(ms[1..], nextCalls, nextIndex, thinking),
                    MessageNodes(ms[0], calls, toolIndex, thinking, split),
                    MessagesNodes(ms[1..], nextCalls, nextIndex, thinking, split), split);
    }
  }
}
