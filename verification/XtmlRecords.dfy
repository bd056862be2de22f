/** What a conversation says, as records taken from its messages and options directly, and the proof
    that the tree of its rendering is the one these records are written as. */
module XtmlRecords {
  import opened Prelude
  import opened Strings
  import opened XtmlMessages
  import opened XtmlToolResults
  import opened XtmlSegments
  import opened XtmlEncoder
  import opened XtmlParsing
  import opened XtmlForest
  import opened XtmlReader

  // ----- Text and content; `split` says whether placeholders in text stand for images

  function TextAtoms(text: string, split: bool): seq<Atom>
    decreases |text|
  {
    if text == "" then []
    else if split && IMAGE_PLACEHOLDER <= text then [Photo] + TextAtoms(text[|IMAGE_PLACEHOLDER|..], split)
    else [Letter(text[0])] + TextAtoms(text[1..], split)
  }

  function PartAtoms(part: Part, split: bool): seq<Atom> {
    match part
    case ImagePart => [Photo]
    case TextPart(text) => TextAtoms(text, split)
    case MalformedPart => []
  }

  function PartsAtoms(parts: seq<Part>, split: bool): seq<Atom> {
    if |parts| == 0 then [] else PartAtoms(parts[0], split) + PartsAtoms(parts[1..], split)
  }

  function ContentAtoms(content: Content, split: bool): seq<Atom> {
    match content
    case NoContent => []
    case Text(text) => TextAtoms(text, split)
    case Parts(parts) => PartsAtoms(parts, split)
  }

  // ----- Messages

  /** The name of a message; empty for none. */
  function NameOf(name: Field): string {
    if name.Truthy() then name.text else ""
  }

  /** The reasoning of an assistant message; empty when it is missing or blank. */
  function ReasoningText(m: Message): string
    requires m.Message?
  {
    var r := Reasoning(m);
    if r.Is? && !Blank(r.text) then r.text else ""
  }

  function ArgumentRecords(arguments: seq<(string, Value)>, split: bool): seq<ArgumentRecord> {
    if |arguments| == 0 then []
    else
      var (key, value) := arguments[0];
      [ArgumentRecord(key, XtmlType(value), TextAtoms(value.text, split))] + ArgumentRecords(arguments[1..], split)
  }

  function GivenTo(fn: ToolFunction, split: bool): Given {
    match fn.jsonBlock
    case Some(text) => Block(TextAtoms(text, split))
    case None => Listed(ArgumentRecords(fn.arguments, split))
  }

  function CallRecords(calls: seq<Call>, index: nat, split: bool): seq<CallRecord>
    decreases |calls|
  {
    if |calls| == 0 then []
    else
      var fn := calls[0].Fn();
      (if fn.name.Absent? then [] else [CallRecord(NameText(fn.name), Digits(index), GivenTo(fn, split))])
        + CallRecords(calls[1..], index + 1, split)
  }

  function AnswerRecord(m: Message, thinking: bool, split: bool): Record
    requires m.Message?
  {
    Answered(NameOf(m.name), if thinking then Some(TextAtoms(ReasoningText(m), split)) else None,
             ContentAtoms(m.content, split),
             if |m.toolCalls| > 0 then Some(CallRecords(m.toolCalls, 1, split)) else None)
  }

  function InternalRecord(kind: string, body: string): Record {
    Said(Internal(kind), TextAtoms(body, false))
  }

  /** The record of a message, if there is one: messages of other roles have none. */
  function MessageRecords(m: Message, calls: seq<Call>, toolIndex: nat, thinking: bool, split: bool): seq<Record> {
    if m.NotADict? then []
    else if m.role == Is("user") then [Said(User(NameOf(m.name)), ContentAtoms(m.content, split))]
    else if m.role == Is("system") then
      if m.tools.Some? then [InternalRecord("tool-declare", ToolDeclareText(m.tools.value, true))]
      else [Said(System(NameOf(m.name)), ContentAtoms(m.content, split))]
    else if IsTool(m) then
      match ToolName(m, calls, toolIndex + 1)
      case Err(_) => []
      case Ok(name) => [Said(Tool(name, Digits(toolIndex + 1)), ContentAtoms(m.content, split))]
    else if IsAssistant(m) then [AnswerRecord(m, thinking, split)]
    else []
  }

  function MessagesRecords(ms: seq<Message>, calls: seq<Call>, toolIndex: nat, thinking: bool, split: bool): seq<Record>
    decreases |ms|
  {
    if |ms| == 0 then []
    else
      MessageRecords(ms[0], calls, toolIndex, thinking, split)
        + MessagesRecords(ms[1..], NextCalls(ms[0], calls), NextToolIndex(ms[0], toolIndex), thinking, split)
  }

  // ----- The conversation

  function DeclaredRecords(options: Options): seq<Record> {
    if options.tools.Some? then [InternalRecord("tool-declare", ToolDeclareText(options.tools.value, false))] else []
  }

  function EffortRecords(options: Options): seq<Record> {
    if !options.thinking || options.thinkingEffort.None? || !ValidEffort(options.thinkingEffort.value) then []
    else [InternalRecord("thinking-effort", EffortText(options.thinkingEffort.value))]
  }

  function InstructionRecords(options: Options): seq<Record> {
    (if options.toolChoice.OtherChoice? then []
     else [InternalRecord("tool-choice", ChoiceText(options.toolChoice.RequiredTools?))])
    + (if options.responseFormat.OtherFormat? then []
       else [InternalRecord("response-format", FormatText(options.responseFormat))])
  }

  /** What a conversation says, with what the options add. */
  function Records(ms: seq<Message>, options: Options, split: bool): seq<Record> {
    DeclaredRecords(options)
    + (EffortRecords(options)
    + (MessagesRecords(ms, [], 0, options.thinking, split)
    + InstructionRecords(options)))
  }

  // ----- The tree is the one the records are written as

  lemma {:induction false} AtomNodesConcat(a: seq<Atom>, b: seq<Atom>)
    ensures AtomNodes(a + b) == AtomNodes(a) + AtomNodes(b)
  {
    if |a| == 0 {
      assert a + b == b;
    } else {
      assert (a + b)[0] == a[0] && (a + b)[1..] == a[1..] + b;
      AtomNodesConcat(a[1..], b);
    }
  }

  lemma {:induction false} TextIsWritten(text: string, split: bool)
    ensures AtomNodes(TextAtoms(text, split)) == TextNodes(text, split)
    decreases |text|
  {
    if text == "" {
    } else if split && IMAGE_PLACEHOLDER <= text {
      TextIsWritten(text[|IMAGE_PLACEHOLDER|..], split);
      assert TextAtoms(text, split)[1..] == TextAtoms(text[|IMAGE_PLACEHOLDER|..], split);
    } else {
      TextIsWritten(text[1..], split);
      assert TextAtoms(text, split)[1..] == TextAtoms(text[1..], split);
    }
  }

  lemma PartIsWritten(part: Part, split: bool)
    ensures AtomNodes(PartAtoms(part, split)) == PartNodes(part, split)
  {
    match part
    case ImagePart => assert [Photo][1..] == [];
    case TextPart(text) => TextIsWritten(text, split);
    case MalformedPart =>
  }

  lemma {:induction false} PartsAreWritten(parts: seq<Part>, split: bool)
    ensures AtomNodes(PartsAtoms(parts, split)) == PartsNodes(parts, split)
  {
    if |parts| > 0 {
      PartIsWritten(parts[0], split);
      PartsAreWritten(parts[1..], split);
      AtomNodesConcat(PartAtoms(parts[0], split), PartsAtoms(parts[1..], split));
    }
  }

  lemma ContentIsWritten(content: Content, split: bool)
    ensures AtomNodes(ContentAtoms(content, split)) == ContentNodes(content, split)
  {
    match content
    case NoContent =>
    case Text(text) => TextIsWritten(text, split);
    case Parts(parts) => PartsAreWritten(parts, split);
  }

  lemma {:induction false} ArgumentsAreWritten(arguments: seq<(string, Value)>, split: bool)
    ensures ArgumentElems(ArgumentRecords(arguments, split)) == ArgumentNodes(arguments, split)
  {
    if |arguments| > 0 {
      TextIsWritten(arguments[0].1.text, split);
      ArgumentsAreWritten(arguments[1..], split);
      assert ArgumentRecords(arguments, split)[1..] == ArgumentRecords(arguments[1..], split);
    }
  }

  lemma GivenIsWritten(fn: ToolFunction, split: bool)
    ensures GivenNodes(GivenTo(fn, split)) == CallBodyNodes(fn, split)
  {
    match fn.jsonBlock
    case Some(text) => TextIsWritten(text, split);
    case None => ArgumentsAreWritten(fn.arguments, split);
  }

  lemma {:induction false} CallsAreWritten(calls: seq<Call>, index: nat, split: bool)
    ensures CallElems(CallRecords(calls, index, split)) == CallsNodes(calls, index, split)
    decreases |calls|
  {
    if |calls| > 0 {
      var fn := calls[0].Fn();
      var more := CallRecords(calls[1..], index + 1, split);
      CallsAreWritten(calls[1..], index + 1, split);
      if fn.name.Absent? {
        assert [] + more == more;
      } else {
        GivenIsWritten(fn, split);
        assert CallRecords(calls, index, split)[1..] == more;
      }
    }
  }

  lemma AnswerIsWritten(m: Message, thinking: bool, split: bool)
    requires m.Message?
    ensures var r := AnswerRecord(m, thinking, split);
            AnswerNodes(r.reasoning, r.content, r.calls) == AssistantNodes(m, thinking, split)
  {
    ContentIsWritten(m.content, split);
    CallsAreWritten(m.toolCalls, 1, split);
    TextIsWritten(ReasoningText(m), split);
  }

  lemma NamedAttrsAre(role: string, name: Field)
    ensures NamedAttrs(role, NameOf(name)) == RoleAttrs(role, name)
  {
  }

  lemma OneIsWritten(r: Record, attrs: Attrs, body: seq<Node>)
    requires RecordElem(r) == Elem("message", attrs, body)
    ensures Write([r]) == Enclosed(attrs, body)
  {
    assert [r][1..] == [];
    assert [RecordElem(r), EndOfMessage] + [] == [RecordElem(r), EndOfMessage];
  }

  lemma InternalIsWritten(kind: string, body: string)
    ensures Write([InternalRecord(kind, body)]) == InternalNodes(kind, body)
  {
    TextIsWritten(body, false);
    OneIsWritten(InternalRecord(kind, body), [("role", "system"), ("type", kind)], TextNodes(body, false));
  }

  lemma SaidIsWritten(speaker: Speaker, content: Content, split: bool)
    ensures Write([Said(speaker, ContentAtoms(content, split))]) ==
            Enclosed(SpeakerAttrs(speaker), ContentNodes(content, split))
  {
    ContentIsWritten(content, split);
    OneIsWritten(Said(speaker, ContentAtoms(content, split)), SpeakerAttrs(speaker), ContentNodes(content, split));
  }

  lemma AssistantIsWritten(m: Message, thinking: bool, split: bool)
    requires m.Message?
    ensures Write([AnswerRecord(m, thinking, split)]) ==
            Enclosed(RoleAttrs("assistant", m.name), AssistantNodes(m, thinking, split))
  {
    NamedAttrsAre("assistant", m.name);
    AnswerIsWritten(m, thinking, split);
    OneIsWritten(AnswerRecord(m, thinking, split), RoleAttrs("assistant", m.name), AssistantNodes(m, thinking, split));
  }

  lemma MessageIsWritten(m: Message, calls: seq<Call>, toolIndex: nat, thinking: bool, split: bool)
    ensures Write(MessageRecords(m, calls, toolIndex, thinking, split)) ==
            MessageNodes(m, calls, toolIndex, thinking, split)
  {
    if m.NotADict? {
    } else if m.role == Is("user") {
      NamedAttrsAre("user", m.name);
      SaidIsWritten(User(NameOf(m.name)), m.content, split);
    } else if m.role == Is("system") {
      if m.tools.Some? {
        InternalIsWritten("tool-declare", ToolDeclareText(m.tools.value, true));
      } else {
        NamedAttrsAre("system", m.name);
        SaidIsWritten(System(NameOf(m.name)), m.content, split);
      }
    } else if IsTool(m) {
      var name := ToolName(m, calls, toolIndex + 1);
      if name.Ok? {
        SaidIsWritten(Tool(name.value, Digits(toolIndex + 1)), m.content, split);
      }
    } else if IsAssistant(m) {
      AssistantIsWritten(m, thinking, split);
    }
  }

  lemma {:induction false} WriteConcat(a: seq<Record>, b: seq<Record>)
    ensures Write(a + b) == Write(a) + Write(b)
  {
    if |a| == 0 {
      assert a + b == b;
    } else {
      assert (a + b)[0] == a[0] && (a + b)[1..] == a[1..] + b;
      WriteConcat(a[1..], b);
    }
  }

  lemma {:induction false} MessagesAreWritten(ms: seq<Message>, calls: seq<Call>, toolIndex: nat,
                                              thinking: bool, split: bool)
    ensures Write(MessagesRecords(ms, calls, toolIndex, thinking, split)) ==
            MessagesNodes(ms, calls, toolIndex, thinking, split)
    decreases |ms|
  {
    if |ms| > 0 {
      var calls', toolIndex' := NextCalls(ms[0], calls), NextToolIndex(ms[0], toolIndex);
      MessageIsWritten(ms[0], calls, toolIndex, thinking, split);
      MessagesAreWritten(ms[1..], calls', toolIndex', thinking, split);
      WriteConcat(MessageRecords(ms[0], calls, toolIndex, thinking, split),
                  MessagesRecords(ms[1..], calls', toolIndex', thinking, split));
    }
  }

  lemma InstructionsAreWritten(options: Options)
    ensures Write(InstructionRecords(options)) == InstructionNodes(options)
  {
    var choice, format := options.toolChoice, options.responseFormat;
    InternalIsWritten("tool-choice", ChoiceText(choice.RequiredTools?));
    if !format.OtherFormat? {
      InternalIsWritten("response-format", FormatText(format));
    }
    WriteConcat(if choice.OtherChoice? then [] else [InternalRecord("tool-choice", ChoiceText(choice.RequiredTools?))],
                if format.OtherFormat? then [] else [InternalRecord("response-format", FormatText(format))]);
  }

  lemma EffortIsWritten(options: Options)
    ensures Write(EffortRecords(options)) == EffortNodes(options)
  {
    if options.thinkingEffort.Some? {
      InternalIsWritten("thinking-effort", EffortText(options.thinkingEffort.value));
    }
  }

  lemma DeclaredAreWritten(options: Options)
    ensures Write(DeclaredRecords(options)) == DeclaredNodes(options)
  {
    if options.tools.Some? {
      InternalIsWritten("tool-declare", ToolDeclareText(options.tools.value, false));
    }
  }

  /** The tree of a rendering is what the records of its conversation are written as; so reading it
      gives back those records, for every conversation. */
  lemma ChatIsWritten(ms: seq<Message>, options: Options, split: bool)
    ensures ChatNodes(ms, options, split) == Write(Records(ms, options, split))
    ensures Read(ChatNodes(ms, options, split)) == Some(Records(ms, options, split))
  {
    var a, b, d := DeclaredRecords(options), EffortRecords(options), InstructionRecords(options);
    var c := MessagesRecords(ms, [], 0, options.thinking, split);
    DeclaredAreWritten(options);
    EffortIsWritten(options);
    MessagesAreWritten(ms, [], 0, options.thinking, split);
    InstructionsAreWritten(options);
    WriteConcat(c, d);
    WriteConcat(b, c + d);
    WriteConcat(a, b + (c + d));
    ReadExactly(ChatNodes(ms, options, split), Records(ms, options, split));
  }
}
