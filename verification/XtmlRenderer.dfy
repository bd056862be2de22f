/** The encoder's methods: they extend a list of segments and advance the image prompts, and what
    they produce is the filling of the pieces of what they render. */
module XtmlRenderer {
  import opened Prelude
  import opened XtmlMessages
  import opened XtmlToolResults
  import opened XtmlSegments
  import opened XtmlEncoder

  type Rendered = Result<seq<Segment>, Error>

  /** The outcome of a method, given the number of prompts handed out when it returns. */
  predicate Gives(r: Rendered, index: nat, filled: Filled) {
    match filled
    case Ok(p) => r == Ok(p.0) && index == p.1
    case Err(error) => r == Err(error)
  }

  class ImagePromptState {
    const imagePrompts: Prompts
    var index: nat

    constructor (imagePrompts: Prompts)
      ensures this.imagePrompts == imagePrompts && index == 0
    {
      this.imagePrompts := imagePrompts;
      index := 0;
    }

    method NextPrompt() returns (r: Result<string, Error>)
      modifies this
      ensures match XtmlSegments.NextPrompt(imagePrompts, old(index))
              case Ok(p) => r == Ok(p.0) && index == p.1
              case Err(error) => r == Err(error)
    {
      if imagePrompts.None? {
        return Ok(IMAGE_PLACEHOLDER);
      }
      if index >= |imagePrompts.value| {
        return Err(MorePlaceholders);
      }
      r := Ok(imagePrompts.value[index]);
      index := index + 1;
    }

    method AssertConsumed() returns (consumed: bool)
      ensures consumed <==> (imagePrompts.Some? ==> index == |imagePrompts.value|)
    {
      if imagePrompts.None? {
        return true;
      }
      consumed := index == |imagePrompts.value|;
    }
  }

  predicate HasPlaceholder(text: string)
    decreases |text|
  {
    text != "" && (IMAGE_PLACEHOLDER <= text || HasPlaceholder(text[1..]))
  }

  lemma {:induction false} SplitWithout(text: string)
    requires !HasPlaceholder(text)
    ensures Split(text) == [text]
    decreases |text|
  {
    if text != "" {
      SplitWithout(text[1..]);
      assert [text[0]] + text[1..] == text;
    }
  }

  method AppendText(text: string, state: ImagePromptState) returns (r: Rendered)
    modifies state
    ensures Gives(r, state.index, FillText(state.imagePrompts, old(state.index), text))
  {
    if text == "" {
      return Ok([]);
    }
    if state.imagePrompts.None? || !HasPlaceholder(text) {
      if !HasPlaceholder(text) {
        SplitWithout(text);
      }
      return Ok(Plain(text));
    }
    var parts := Split(text);
    ghost var whole := FillParts(state.imagePrompts, state.index, parts);
    var segments: seq<Segment> := [];
    var i := 0;
    ContinueNothing(whole);
    while i < |parts| - 1
      invariant 0 <= i < |parts|
      invariant Continue(segments, FillParts(state.imagePrompts, state.index, parts[i..])) == whole
    {
      assert parts[i..][1..] == parts[i + 1..];
      ghost var index := state.index;
      var prompt :- state.NextPrompt();
      ContinueTwice(segments, Plain(parts[i]) + Control(prompt),
                    FillParts(state.imagePrompts, state.index, parts[i + 1..]));
      segments := segments + (Plain(parts[i]) + Control(prompt));
      i := i + 1;
    }
    return Ok(segments + Plain(parts[i]));
  }

  method RenderContent(content: Content, state: ImagePromptState) returns (r: Rendered)
    modifies state
    ensures Gives(r, state.index, Fill(state.imagePrompts, old(state.index), ContentPieces(content)))
  {
    match content {
      case NoContent =>
        r := Ok([]);
      case Text(text) =>
        FillOne(state.imagePrompts, state.index, UserText(text));
        r := AppendText(text, state);
      case Parts(parts) =>
        r := RenderParts(parts, state);
    }
  }

  method RenderPart(part: Part, state: ImagePromptState) returns (r: Rendered)
    modifies state
    ensures Gives(r, state.index, Fill(state.imagePrompts, old(state.index), PartPieces(part)))
  {
    match part {
      case ImagePart =>
        FillOne(state.imagePrompts, state.index, Image);
        var prompt :- state.NextPrompt();
        r := Ok(Control(prompt));
      case TextPart(text) =>
        FillOne(state.imagePrompts, state.index, UserText(text));
        r := AppendText(text, state);
      case MalformedPart =>
        FillOne(state.imagePrompts, state.index, Fail(MissingKey));
        r := Err(MissingKey);
    }
  }

  method RenderParts(parts: seq<Part>, state: ImagePromptState) returns (r: Rendered)
    modifies state
    ensures Gives(r, state.index, Fill(state.imagePrompts, old(state.index), PartsPieces(parts)))
  {
    var segments: seq<Segment> := [];
    ghost var whole := Fill(state.imagePrompts, state.index, PartsPieces(parts));
    ContinueNothing(whole);
    for i := 0 to |parts|
      invariant Continue(segments, Fill(state.imagePrompts, state.index, PartsPieces(parts[i..]))) == whole
    {
      assert parts[i..][1..] == parts[i + 1..];
      FillConcat(state.imagePrompts, state.index, PartPieces(parts[i]), PartsPieces(parts[i + 1..]));
      var part :- RenderPart(parts[i], state);
      ContinueTwice(segments, part, Fill(state.imagePrompts, state.index, PartsPieces(parts[i + 1..])));
      segments := segments + part;
    }
    assert parts[|parts|..] == [] && segments + [] == segments;
    r := Ok(segments);
  }

  lemma FillElement(prompts: Prompts, index: nat, tag: string, attrs: Attrs, body: seq<Piece>)
    ensures Fill(prompts, index, Element(tag, attrs, body)) ==
            match Fill(prompts, index, body)
            case Err(error) => Err(error)
            case Ok(p) => Ok((OpenTag(tag, attrs) + (p.0 + CloseTag(tag)), p.1))
  {
    FillReady(prompts, index, OpenTag(tag, attrs));
    FillConcat(prompts, index, Ready(OpenTag(tag, attrs)), body + Ready(CloseTag(tag)));
    FillConcat(prompts, index, body, Ready(CloseTag(tag)));
    var inner := Fill(prompts, index, body);
    if inner.Ok? {
      FillReady(prompts, inner.value.1, CloseTag(tag));
    }
  }

  method RenderThink(m: Message, state: ImagePromptState) returns (r: Rendered)
    requires m.Message?
    modifies state
    ensures Gives(r, state.index, Fill(state.imagePrompts, old(state.index), ThinkPieces(m)))
  {
    var reasoning := Reasoning(m);
    if reasoning.Is? && !Blank(reasoning.text) {
      FillElement(state.imagePrompts, state.index, "think", [], [UserText(reasoning.text)]);
      FillOne(state.imagePrompts, state.index, UserText(reasoning.text));
      var text :- AppendText(reasoning.text, state);
      r := Ok(OpenTag("think", []) + (text + CloseTag("think")));
    } else {
      FillElement(state.imagePrompts, state.index, "think", [], []);
      r := Ok(OpenTag("think", []) + ([] + CloseTag("think")));
    }
  }

  method RenderArguments(arguments: seq<(string, Value)>, state: ImagePromptState) returns (r: Rendered)
    modifies state
    ensures Gives(r, state.index, Fill(state.imagePrompts, old(state.index), ArgumentPieces(arguments)))
  {
    var segments: seq<Segment> := [];
    ghost var whole := Fill(state.imagePrompts, state.index, ArgumentPieces(arguments));
    ContinueNothing(whole);
    for i := 0 to |arguments|
      invariant Continue(segments, Fill(state.imagePrompts, state.index, ArgumentPieces(arguments[i..]))) == whole
    {
      assert arguments[i..][1..] == arguments[i + 1..];
      var (key, value) := arguments[i];
      var attrs := [("key", key), ("type", XtmlType(value))];
      FillConcat(state.imagePrompts, state.index, Element("argument", attrs, [UserText(value.text)]),
                 ArgumentPieces(arguments[i + 1..]));
      FillElement(state.imagePrompts, state.index, "argument", attrs, [UserText(value.text)]);
      FillOne(state.imagePrompts, state.index, UserText(value.text));
      var text :- AppendText(value.text, state);
      var argument := OpenTag("argument", attrs) + (text + CloseTag("argument"));
      ContinueTwice(segments, argument, Fill(state.imagePrompts, state.index, ArgumentPieces(arguments[i + 1..])));
      segments := segments + argument;
    }
    assert arguments[|arguments|..] == [] && segments + [] == segments;
    r := Ok(segments);
  }

  method RenderCallBody(fn: ToolFunction, state: ImagePromptState) returns (r: Rendered)
    modifies state
    ensures Gives(r, state.index, Fill(state.imagePrompts, old(state.index), CallBody(fn)))
  {
    match fn.jsonBlock {
      case Some(text) =>
        FillElement(state.imagePrompts, state.index, "json", [("type", "object")], [UserText(text)]);
        FillOne(state.imagePrompts, state.index, UserText(text));
        var body :- AppendText(text, state);
        r := Ok(OpenTag("json", [("type", "object")]) + (body + CloseTag("json")));
      case None =>
        r := RenderArguments(fn.arguments, state);
    }
  }

  method RenderCall(call: Call, index: nat, state: ImagePromptState) returns (r: Rendered)
    modifies state
    ensures Gives(r, state.index, Fill(state.imagePrompts, old(state.index), CallPieces(call, index)))
  {
    var fn := call.Fn();
    if fn.name.Absent? {
      FillOne(state.imagePrompts, state.index, Fail(MissingKey));
      return Err(MissingKey);
    }
    var attrs := [("tool", NameText(fn.name)), ("index", Strings.Digits(index))];
    FillElement(state.imagePrompts, state.index, "call", attrs, CallBody(fn));
    var body :- RenderCallBody(fn, state);
    r := Ok(OpenTag("call", attrs) + (body + CloseTag("call")));
  }

  method RenderCalls(calls: seq<Call>, state: ImagePromptState) returns (r: Rendered)
    modifies state
    ensures Gives(r, state.index, Fill(state.imagePrompts, old(state.index), CallsPieces(calls, 1)))
  {
    var segments: seq<Segment> := [];
    ghost var whole := Fill(state.imagePrompts, state.index, CallsPieces(calls, 1));
    ContinueNothing(whole);
    for i := 0 to |calls|
      invariant Continue(segments, Fill(state.imagePrompts, state.index, CallsPieces(calls[i..], i + 1))) == whole
    {
      assert calls[i..][1..] == calls[i + 1..];
      FillConcat(state.imagePrompts, state.index, CallPieces(calls[i], i + 1), CallsPieces(calls[i + 1..], i + 2));
      var call :- RenderCall(calls[i], i + 1, state);
      ContinueTwice(segments, call, Fill(state.imagePrompts, state.index, CallsPieces(calls[i + 1..], i + 2)));
      segments := segments + call;
    }
    assert calls[|calls|..] == [] && segments + [] == segments;
    r := Ok(segments);
  }

  method RenderResponse(m: Message, state: ImagePromptState) returns (r: Rendered)
    requires m.Message?
    modifies state
    ensures Gives(r, state.index,
                  Fill(state.imagePrompts, old(state.index), Element("response", [], ContentPieces(m.content))))
  {
    FillElement(state.imagePrompts, state.index, "response", [], ContentPieces(m.content));
    var content :- RenderContent(m.content, state);
    r := Ok(OpenTag("response", []) + (content + CloseTag("response")));
  }

  function ToolsPieces(m: Message): seq<Piece>
    requires m.Message?
  {
    if |m.toolCalls| > 0 then Element("tools", [], CallsPieces(m.toolCalls, 1)) else []
  }

  method RenderTools(m: Message, state: ImagePromptState) returns (r: Rendered)
    requires m.Message?
    modifies state
    ensures Gives(r, state.index, Fill(state.imagePrompts, old(state.index), ToolsPieces(m)))
  {
    if |m.toolCalls| == 0 {
      return Ok([]);
    }
    FillElement(state.imagePrompts, state.index, "tools", [], CallsPieces(m.toolCalls, 1));
    var calls :- RenderCalls(m.toolCalls, state);
    r := Ok(OpenTag("tools", []) + (calls + CloseTag("tools")));
  }

  method RenderAssistant(m: Message, state: ImagePromptState, thinking: bool) returns (r: Rendered)
    requires m.Message?
    modifies state
    ensures Gives(r, state.index, Fill(state.imagePrompts, old(state.index), AssistantPieces(m, thinking)))
  {
    ghost var prompts := state.imagePrompts;
    ghost var answer := Element("response", [], ContentPieces(m.content));
    FillConcat(prompts, state.index, if thinking then ThinkPieces(m) else [], answer + ToolsPieces(m));
    var think: seq<Segment> := [];
    if thinking {
      think :- RenderThink(m, state);
    }
    FillConcat(prompts, state.index, answer, ToolsPieces(m));
    var response :- RenderResponse(m, state);
    var tools :- RenderTools(m, state);
    r := Ok(think + (response + tools));
  }

  method RenderMessage(m: Message, calls: seq<Call>, toolIndex: nat, thinking: bool, state: ImagePromptState)
    returns (r: Rendered)
    modifies state
    ensures Gives(r, state.index,
                  Fill(state.imagePrompts, old(state.index), MessagePieces(m, calls, toolIndex, thinking)))
  {
    if m.NotADict? {
      return Ok([]);
    }
    if m.role.Absent? {
      FillOne(state.imagePrompts, state.index, Fail(MissingKey));
      return Err(MissingKey);
    }
    if m.role == Is("user") {
      r := RenderWithContent(RoleAttrs("user", m.name), m.content, state);
    } else if m.role == Is("system") {
      if m.tools.Some? {
        FillReady(state.imagePrompts, state.index, ToolDeclare(m.tools.value, true));
        r := Ok(ToolDeclare(m.tools.value, true));
      } else {
        r := RenderWithContent(RoleAttrs("system", m.name), m.content, state);
      }
    } else if IsTool(m) {
      var name := ToolName(m, calls, toolIndex + 1);
      if name.Err? {
        FillOne(state.imagePrompts, state.index, Fail(name.error));
        return Err(name.error);
      }
      r := RenderWithContent(ToolAttrs(name.value, toolIndex + 1), m.content, state);
    } else if IsAssistant(m) {
      var attrs := RoleAttrs("assistant", m.name);
      FillMessage(state.imagePrompts, state.index, attrs, AssistantPieces(m, thinking));
      var body :- RenderAssistant(m, state, thinking);
      r := Ok(OpenTag("message", attrs) + (body + CloseTag("message")) + EndOfMsg());
    } else {
      r := Ok([]);
    }
  }

  lemma FillMessage(prompts: Prompts, index: nat, attrs: Attrs, body: seq<Piece>)
    ensures Fill(prompts, index, MessageElement(attrs, body)) ==
            match Fill(prompts, index, body)
            case Err(error) => Err(error)
            case Ok(p) => Ok((OpenTag("message", attrs) + (p.0 + CloseTag("message")) + EndOfMsg(), p.1))
  {
    FillElement(prompts, index, "message", attrs, body);
    FillConcat(prompts, index, Element("message", attrs, body), Ready(EndOfMsg()));
    var inner := Fill(prompts, index, body);
    if inner.Ok? {
      FillReady(prompts, inner.value.1, EndOfMsg());
    }
  }

  method RenderWithContent(attrs: Attrs, content: Content, state: ImagePromptState) returns (r: Rendered)
    modifies state
    ensures Gives(r, state.index,
                  Fill(state.imagePrompts, old(state.index), MessageElement(attrs, ContentPieces(content))))
  {
    FillMessage(state.imagePrompts, state.index, attrs, ContentPieces(content));
    var body :- RenderContent(content, state);
    r := Ok(OpenTag("message", attrs) + (body + CloseTag("message")) + EndOfMsg());
  }

  method RenderMessages(ms: seq<Message>, thinking: bool, state: ImagePromptState) returns (r: Rendered)
    modifies state
    ensures Gives(r, state.index, Fill(state.imagePrompts, old(state.index), MessagesPieces(ms, [], 0, thinking)))
  {
    var segments: seq<Segment> := [];
    var toolCalls: seq<Call> := [];
    var toolIndex: nat := 0;
    ghost var whole := Fill(state.imagePrompts, state.index, MessagesPieces(ms, [], 0, thinking));
    ContinueNothing(whole);
    for i := 0 to |ms|
      invariant Continue(segments, Fill(state.imagePrompts, state.index,
                                        MessagesPieces(ms[i..], toolCalls, toolIndex, thinking))) == whole
    {
      assert ms[i..][1..] == ms[i + 1..];
      var m := ms[i];
      ghost var rest := MessagesPieces(ms[i + 1..], NextCalls(m, toolCalls), NextToolIndex(m, toolIndex), thinking);
      FillConcat(state.imagePrompts, state.index, MessagePieces(m, toolCalls, toolIndex, thinking), rest);
      var message :- RenderMessage(m, toolCalls, toolIndex, thinking, state);
      ContinueTwice(segments, message, Fill(state.imagePrompts, state.index, rest));
      segments := segments + message;
      if IsTool(m) {
        toolIndex := toolIndex + 1;
      } else if IsAssistant(m) {
        toolCalls, toolIndex := m.toolCalls, 0;
      }
    }
    assert ms[|ms|..] == [] && segments + [] == segments;
    r := Ok(segments);
  }

  method RenderEffort(options: Options, ghost prompts: Prompts) returns (r: Rendered)
    ensures Gives(r, 0, Fill(prompts, 0, EffortPieces(options)))
  {
    if !options.thinking || options.thinkingEffort.None? {
      return Ok([]);
    }
    var effort := options.thinkingEffort.value;
    if !ValidEffort(effort) {
      FillOne(prompts, 0, Fail(BadEffort));
      return Err(BadEffort);
    }
    FillReady(prompts, 0, InternalMessage("thinking-effort", EffortText(effort)));
    r := Ok(InternalMessage("thinking-effort", EffortText(effort)));
  }

  /** Segments, pieces that take no prompt, pieces, segments. */
  lemma FillAround(prompts: Prompts, a: seq<Segment>, b: seq<Piece>, c: seq<Piece>, d: seq<Segment>)
    ensures Fill(prompts, 0, Ready(a) + (b + (c + Ready(d)))) ==
            match Fill(prompts, 0, b)
            case Err(error) => Err(error)
            case Ok(q) => Continue(a, Continue(q.0, Closed(Fill(prompts, q.1, c), d)))
  {
    FillReady(prompts, 0, a);
    FillConcat(prompts, 0, Ready(a), b + (c + Ready(d)));
    FillConcat(prompts, 0, b, c + Ready(d));
    var q := Fill(prompts, 0, b);
    if q.Ok? {
      FillConcat(prompts, q.value.1, c, Ready(d));
      var p := Fill(prompts, q.value.1, c);
      if p.Ok? {
        FillReady(prompts, p.value.1, d);
      }
    }
  }

  function Closed(filled: Filled, end: seq<Segment>): Filled {
    match filled
    case Ok(p) => Ok((p.0 + end, p.1))
    case Err(error) => Err(error)
  }

  lemma Assembled(a: seq<Segment>, b: seq<Segment>, c: seq<Segment>, d: seq<Segment>, e: seq<Segment>)
    ensures a + (b + (c + (d + e))) == a + b + c + d + e
  {
  }

  method BuildChatSegments(messages: seq<Message>, options: Options, imagePrompts: Prompts) returns (r: Rendered)
    ensures r == Encode(Normalize(messages, []), options, imagePrompts)
  {
    var ms := NormalizeToolResults(messages);
    var state := new ImagePromptState(imagePrompts);
    var declared, instructions, opening := Declared(options), Instructions(options), GenerationPrompt(options);
    FillAround(imagePrompts, declared, EffortPieces(options), MessagesPieces(ms, [], 0, options.thinking),
               instructions + opening);
    var effort :- RenderEffort(options, imagePrompts);
    var body :- RenderMessages(ms, options.thinking, state);
    Assembled(declared, effort, body, instructions, opening);
    var segments := declared + effort + body + instructions + opening;
    var consumed := state.AssertConsumed();
    if !consumed {
      return Err(PromptsLeft);
    }
    r := Ok(segments);
  }
}
