/** What decoding a rendering gives for every message of the conversation, said in terms of the
    message's own keys and its place in the conversation. */
module XtmlDecoded {
  import opened Prelude
  import opened Strings
  import opened XtmlMessages
  import opened XtmlToolResults
  import opened XtmlSegments
  import opened XtmlEncoder
  import opened XtmlReader
  import opened XtmlRecords
  import opened XtmlMeaning
  import opened XtmlToolOrder
  import opened XtmlTheorems

  // ----- What a record says of a message

  /** The text, or nothing when it is all white space. */
  function Unblanked(text: string, split: bool): seq<Atom> {
    if forall i | 0 <= i < |text| :: IsSpace(text[i]) then [] else TextAtoms(text, split)
  }

  /** `reasoning_content` is read when it is a non-empty string, and `reasoning` otherwise. */
  ghost predicate ReasoningSays(m: Message, split: bool, reasoning: seq<Atom>)
    requires m.Message?
  {
    match m.reasoningContent
    case Is(text) =>
      if text != "" then reasoning == Unblanked(text, split)
      else reasoning == (if m.reasoning.Is? then Unblanked(m.reasoning.text, split) else [])
    case _ => reasoning == (if m.reasoning.Is? then Unblanked(m.reasoning.text, split) else [])
  }

  function KindName(value: Value): string {
    if value.Str? then "string"
    else if value.kind.Boolean? then "boolean"
    else if value.kind.NullKind? then "null"
    else if value.kind.Number? then "number"
    else if value.kind.Object? then "object"
    else "array"
  }

  ghost predicate ArgumentSays(argument: (string, Value), split: bool, a: ArgumentRecord) {
    a == ArgumentRecord(argument.0, KindName(argument.1), TextAtoms(argument.1.text, split))
  }

  /** Call number `i + 1`: its function's name, and its JSON block or else its arguments in order. */
  ghost predicate CallSays(call: Call, i: nat, split: bool, c: CallRecord) {
    var fn := if call.nested.Some? then call.nested.value else call.own;
    && c.name == (if fn.name.Is? then fn.name.text else "None") && c.index == Digits(i + 1)
    && (fn.jsonBlock.Some? ==> c.given == Block(TextAtoms(fn.jsonBlock.value, split)))
    && (fn.jsonBlock.None? ==>
          && c.given.Listed? && |c.given.arguments| == |fn.arguments|
          && forall j | 0 <= j < |fn.arguments| :: ArgumentSays(fn.arguments[j], split, c.given.arguments[j]))
  }

  function OwnName(m: Message): string
    requires m.Message?
  {
    if m.name.Is? then m.name.text else ""
  }

  ghost predicate AnswerSays(m: Message, thinking: bool, split: bool, r: Record)
    requires m.Message?
  {
    && r.Answered? && r.name == OwnName(m) && r.content == ContentAtoms(m.content, split)
    && (thinking <==> r.reasoning.Some?) && (thinking ==> ReasoningSays(m, split, r.reasoning.value))
    && (if |m.toolCalls| == 0 then r.calls == None
        else
          && r.calls.Some? && |r.calls.value| == |m.toolCalls|
          && forall i | 0 <= i < |m.toolCalls| :: CallSays(m.toolCalls[i], i, split, r.calls.value[i]))
  }

  lemma ReasoningRead(m: Message, split: bool)
    requires m.Message?
    ensures AnswerRecord(m, true, split).reasoning.Some?
    ensures ReasoningSays(m, split, AnswerRecord(m, true, split).reasoning.value)
  {
  }

  lemma {:induction false} ArgumentsRead(arguments: seq<(string, Value)>, split: bool)
    ensures |ArgumentRecords(arguments, split)| == |arguments|
    ensures forall j | 0 <= j < |arguments| :: ArgumentSays(arguments[j], split, ArgumentRecords(arguments, split)[j])
  {
    if |arguments| > 0 {
      ArgumentsRead(arguments[1..], split);
      var records := ArgumentRecords(arguments, split);
      assert records[1..] == ArgumentRecords(arguments[1..], split);
      forall j | 0 <= j < |arguments|
        ensures ArgumentSays(arguments[j], split, records[j])
      {
        if j > 0 {
          assert ArgumentSays(arguments[1..][j - 1], split, records[1..][j - 1]);
        }
      }
    }
  }

  lemma CallRead(call: Call, i: nat, split: bool)
    requires !call.Fn().name.Absent?
    ensures CallSays(call, i, split, CallRecord(NameText(call.Fn().name), Digits(i + 1), GivenTo(call.Fn(), split)))
  {
    ArgumentsRead(call.Fn().arguments, split);
  }

  lemma {:induction false} CallsRead(calls: seq<Call>, from: nat, split: bool)
    requires AllNamed(calls)
    ensures var records := CallRecords(calls, from + 1, split);
            && |records| == |calls|
            && forall i | 0 <= i < |calls| :: CallSays(calls[i], from + i, split, records[i])
    decreases |calls|
  {
    if |calls| > 0 {
      CallsRead(calls[1..], from + 1, split);
      CallRead(calls[0], from, split);
      var records := CallRecords(calls, from + 1, split);
      assert records[1..] == CallRecords(calls[1..], from + 2, split);
      forall i | 0 <= i < |calls|
        ensures CallSays(calls[i], from + i, split, records[i])
      {
        if i > 0 {
          assert CallSays(calls[1..][i - 1], from + 1 + (i - 1), split, records[1..][i - 1]);
        }
      }
    }
  }

  /** The record of an assistant message says what the message says. */
  lemma AnswerRead(m: Message, thinking: bool, split: bool)
    requires m.Message? && AllNamed(m.toolCalls)
    ensures AnswerSays(m, thinking, split, AnswerRecord(m, thinking, split))
  {
    ReasoningRead(m, split);
    CallsRead(m.toolCalls, 0, split);
  }

  // ----- The place of a message in its conversation

  /** The last assistant message before place `k` is at `a`. */
  ghost predicate LastAnswer(ms: seq<Message>, k: nat, a: nat)
    requires k <= |ms|
  {
    a < k && ms[a].HasRole("assistant") && forall j | a < j < k :: !ms[j].HasRole("assistant")
  }

  ghost predicate NoAnswer(ms: seq<Message>, k: nat)
    requires k <= |ms|
  {
    forall j | 0 <= j < k :: !ms[j].HasRole("assistant")
  }

  /** How many of the messages are tool results. */
  function Results(ms: seq<Message>): nat {
    if |ms| == 0 then 0 else Results(ms[..|ms| - 1]) + (if ms[|ms| - 1].HasRole("tool") then 1 else 0)
  }

  /** How many of the messages leave a record. */
  function Heard(ms: seq<Message>): nat {
    if |ms| == 0 then 0 else (if Speaks(ms[0]) then 1 else 0) + Heard(ms[1..])
  }

  lemma {:induction false} OneMoreAfter(ms: seq<Message>, m: Message, calls: seq<Call>, toolIndex: nat)
    ensures CallsAfter(ms + [m], calls) == NextCalls(m, CallsAfter(ms, calls))
    ensures IndexAfter(ms + [m], toolIndex) == NextToolIndex(m, IndexAfter(ms, toolIndex))
  {
    if |ms| == 0 {
      assert ms + [m] == [m] && [m][1..] == [];
    } else {
      assert (ms + [m])[0] == ms[0] && (ms + [m])[1..] == ms[1..] + [m];
      OneMoreAfter(ms[1..], m, NextCalls(ms[0], calls), NextToolIndex(ms[0], toolIndex));
    }
  }

  lemma NextPlace(ms: seq<Message>, k: nat)
    requires 0 < k <= |ms|
    ensures CallsAfter(ms[..k], []) == NextCalls(ms[k - 1], CallsAfter(ms[..k - 1], []))
    ensures IndexAfter(ms[..k], 0) == NextToolIndex(ms[k - 1], IndexAfter(ms[..k - 1], 0))
  {
    assert ms[..k] == ms[..k - 1] + [ms[k - 1]];
    OneMoreAfter(ms[..k - 1], ms[k - 1], [], 0);
  }

  lemma NextResults(ms: seq<Message>, from: nat, k: nat)
    requires from < k <= |ms|
    ensures Results(ms[from..k]) == Results(ms[from..k - 1]) + (if ms[k - 1].HasRole("tool") then 1 else 0)
  {
    assert ms[from..k][..k - from - 1] == ms[from..k - 1];
  }

  /** The calls that tool results are matched with are those of the last assistant message, and the
      results are counted from there. */
  lemma {:induction false} PlaceAfter(ms: seq<Message>, k: nat, a: nat)
    requires k <= |ms| && LastAnswer(ms, k, a)
    ensures CallsAfter(ms[..k], []) == ms[a].toolCalls && IndexAfter(ms[..k], 0) == Results(ms[a + 1..k])
  {
    NextPlace(ms, k);
    if a < k - 1 {
      PlaceAfter(ms, k - 1, a);
      NextResults(ms, a + 1, k);
    } else {
      assert ms[a + 1..k] == [];
    }
  }

  lemma {:induction false} PlaceBefore(ms: seq<Message>, k: nat)
    requires k <= |ms| && NoAnswer(ms, k)
    ensures CallsAfter(ms[..k], []) == [] && IndexAfter(ms[..k], 0) == Results(ms[0..k])
  {
    if k > 0 {
      NextPlace(ms, k);
      PlaceBefore(ms, k - 1);
      NextResults(ms, 0, k);
    }
  }

  // ----- Tool results

  /** The name of tool result number `n` after the calls: its own `tool`, its `name` if it has no
      `tool`, and else the name of call `n`. */
  ghost predicate ResultNamed(m: Message, calls: seq<Call>, n: nat, name: string)
    requires m.Message?
  {
    match m.tool
    case Is(text) => name == text
    case Absent => if m.name.Is? then name == m.name.text else CallNamed(calls, n, name)
    case Null => CallNamed(calls, n, name)
  }

  ghost predicate CallNamed(calls: seq<Call>, n: nat, name: string) {
    && 0 < n <= |calls|
    && var call := calls[n - 1];
       (if call.nested.Some? then call.nested.value else call.own).name == Is(name)
  }

  lemma ResultRead(m: Message, calls: seq<Call>, n: nat, name: string)
    requires m.Message? && n > 0
    ensures ToolName(m, calls, n) == Ok(name) <==> ResultNamed(m, calls, n, name)
  {
  }

  /** What the record of a message says, given its place. */
  ghost predicate Says(m: Message, calls: seq<Call>, n: nat, thinking: bool, split: bool, r: Record)
    requires m.Message?
  {
    if m.HasRole("user") then r == Said(User(OwnName(m)), ContentAtoms(m.content, split))
    else if m.HasRole("system") then
      r == if m.tools.Some? then InternalRecord("tool-declare", ToolDeclareText(m.tools.value, true))
           else Said(System(OwnName(m)), ContentAtoms(m.content, split))
    else if m.HasRole("tool") then
      && r.Said? && r.speaker.Tool? && r.speaker.index == Digits(n) && r.content == ContentAtoms(m.content, split)
      && ResultNamed(m, calls, n, r.speaker.name)
    else m.HasRole("assistant") && AnswerSays(m, thinking, split, r)
  }

  lemma MessageRead(m: Message, calls: seq<Call>, toolIndex: nat, thinking: bool, split: bool)
    requires Renderable(m, calls, toolIndex) && Speaks(m)
    ensures var records := MessageRecords(m, calls, toolIndex, thinking, split);
            |records| == 1 && Says(m, calls, toolIndex + 1, thinking, split, records[0])
  {
    RolesDiffer();
    if m.HasRole("tool") {
      ResultRead(m, calls, toolIndex + 1, ToolName(m, calls, toolIndex + 1).value);
    } else if m.HasRole("assistant") {
      AnswerRead(m, thinking, split);
    }
  }

  // ----- A rendering that succeeds

  lemma NoFailureParts(a: seq<Piece>, b: seq<Piece>)
    ensures NoFailure(a + b) <==> NoFailure(a) && NoFailure(b)
  {
    assert forall i | 0 <= i < |a| :: (a + b)[i] == a[i];
    assert forall i | 0 <= i < |b| :: (a + b)[|a| + i] == b[i];
  }

  lemma FirstFails(pieces: seq<Piece>)
    requires |pieces| > 0 && pieces[0].Fail?
    ensures !NoFailure(pieces)
  {
  }

  lemma UnnamedFails(call: Call, index: nat)
    requires call.Fn().name.Absent?
    ensures !NoFailure(CallPieces(call, index))
  {
    FirstFails(CallPieces(call, index));
  }

  lemma UnresolvedFails(m: Message, calls: seq<Call>, toolIndex: nat, thinking: bool)
    requires m.Message? && (m.role.Absent? || (IsTool(m) && ToolName(m, calls, toolIndex + 1).Err?))
    ensures !NoFailure(MessagePieces(m, calls, toolIndex, thinking))
  {
    RolesDiffer();
    FirstFails(MessagePieces(m, calls, toolIndex, thinking));
  }

  lemma BadEffortFails(options: Options)
    requires options.thinking && options.thinkingEffort.Some? && !ValidEffort(options.thinkingEffort.value)
    ensures !NoFailure(EffortPieces(options))
  {
    FirstFails(EffortPieces(options));
  }

  lemma {:induction false} CallsRender(calls: seq<Call>, index: nat)
    requires NoFailure(CallsPieces(calls, index))
    ensures AllNamed(calls)
    decreases |calls|
  {
    if |calls| > 0 {
      NoFailureParts(CallPieces(calls[0], index), CallsPieces(calls[1..], index + 1));
      CallsRender(calls[1..], index + 1);
      if calls[0].Fn().name.Absent? {
        UnnamedFails(calls[0], index);
      }
      assert forall i | 0 < i < |calls| :: calls[i] == calls[1..][i - 1];
    }
  }

  lemma ElementRenders(tag: string, attrs: Attrs, body: seq<Piece>)
    requires NoFailure(Element(tag, attrs, body))
    ensures NoFailure(body)
  {
    NoFailureParts(Ready(OpenTag(tag, attrs)), body + Ready(CloseTag(tag)));
    NoFailureParts(body, Ready(CloseTag(tag)));
  }

  lemma MessageElementRenders(attrs: Attrs, body: seq<Piece>)
    requires NoFailure(MessageElement(attrs, body))
    ensures NoFailure(body)
  {
    NoFailureParts(Element("message", attrs, body), Ready(EndOfMsg()));
    ElementRenders("message", attrs, body);
  }

  lemma AnswerRenders(m: Message, thinking: bool)
    requires m.Message? && NoFailure(AssistantPieces(m, thinking))
    ensures AllNamed(m.toolCalls)
  {
    var think := if thinking then ThinkPieces(m) else [];
    var response := Element("response", [], ContentPieces(m.content));
    var tools := if |m.toolCalls| > 0 then Element("tools", [], CallsPieces(m.toolCalls, 1)) else [];
    NoFailureParts(think, response + tools);
    NoFailureParts(response, tools);
    if |m.toolCalls| > 0 {
      ElementRenders("tools", [], CallsPieces(m.toolCalls, 1));
      CallsRender(m.toolCalls, 1);
    }
  }

  lemma AssistantRenders(m: Message, calls: seq<Call>, toolIndex: nat, thinking: bool)
    requires IsAssistant(m) && NoFailure(MessagePieces(m, calls, toolIndex, thinking))
    ensures AllNamed(m.toolCalls)
  {
    AssistantIs(m, calls, toolIndex, thinking);
    MessageElementRenders(RoleAttrs("assistant", m.name), AssistantPieces(m, thinking));
    AnswerRenders(m, thinking);
  }

  lemma OnlyAssistant(m: Message)
    requires IsAssistant(m)
    ensures m.Message? && !m.role.Absent? && m.role != Is("user") && m.role != Is("system") && !IsTool(m)
  {
    RolesDiffer();
  }

  lemma AssistantIs(m: Message, calls: seq<Call>, toolIndex: nat, thinking: bool)
    requires IsAssistant(m)
    ensures MessagePieces(m, calls, toolIndex, thinking)
            == MessageElement(RoleAttrs("assistant", m.name), AssistantPieces(m, thinking))
  {
    OnlyAssistant(m);
  }

  lemma MessageRenders(m: Message, calls: seq<Call>, toolIndex: nat, thinking: bool)
    requires NoFailure(MessagePieces(m, calls, toolIndex, thinking))
    ensures Renderable(m, calls, toolIndex)
  {
    RolesDiffer();
    if m.Message? && (m.role.Absent? || (IsTool(m) && ToolName(m, calls, toolIndex + 1).Err?)) {
      UnresolvedFails(m, calls, toolIndex, thinking);
    } else if IsAssistant(m) {
      AssistantRenders(m, calls, toolIndex, thinking);
    }
  }

  /** Message `j` renders at its place. */
  ghost predicate RendersAt(ms: seq<Message>, j: nat, calls: seq<Call>, toolIndex: nat)
    requires j < |ms|
  {
    Renderable(ms[j], CallsAfter(ms[..j], calls), IndexAfter(ms[..j], toolIndex))
  }

  lemma {:induction false} AllRender(ms: seq<Message>, calls: seq<Call>, toolIndex: nat, thinking: bool)
    requires NoFailure(MessagesPieces(ms, calls, toolIndex, thinking))
    ensures forall j: nat | j < |ms| :: RendersAt(ms, j, calls, toolIndex)
    decreases |ms|
  {
    if |ms| > 0 {
      var calls', index' := NextCalls(ms[0], calls), NextToolIndex(ms[0], toolIndex);
      NoFailureParts(MessagePieces(ms[0], calls, toolIndex, thinking),
                     MessagesPieces(ms[1..], calls', index', thinking));
      MessageRenders(ms[0], calls, toolIndex, thinking);
      AllRender(ms[1..], calls', index', thinking);
      forall j: nat | j < |ms|
        ensures RendersAt(ms, j, calls, toolIndex)
      {
        RendersNext(ms, j, calls, toolIndex);
      }
    }
  }

  lemma RendersNext(ms: seq<Message>, j: nat, calls: seq<Call>, toolIndex: nat)
    requires j < |ms| && Renderable(ms[0], calls, toolIndex)
    requires j > 0 ==> RendersAt(ms[1..], j - 1, NextCalls(ms[0], calls), NextToolIndex(ms[0], toolIndex))
    ensures RendersAt(ms, j, calls, toolIndex)
  {
    if j > 0 {
      assert ms[..j][0] == ms[0] && ms[..j][1..] == ms[1..][..j - 1];
    }
  }

  // ----- Where the record of a message is

  lemma RegroupRecords(a: seq<Record>, b: seq<Record>, c: seq<Record>)
    ensures a + (b + c) == a + b + c
  {
  }

  lemma {:induction false} RecordsConcat(a: seq<Message>, b: seq<Message>, calls: seq<Call>, toolIndex: nat,
                                         thinking: bool, split: bool)
    ensures MessagesRecords(a + b, calls, toolIndex, thinking, split)
            == MessagesRecords(a, calls, toolIndex, thinking, split)
               + MessagesRecords(b, CallsAfter(a, calls), IndexAfter(a, toolIndex), thinking, split)
  {
    if |a| == 0 {
      assert a + b == b;
    } else {
      assert (a + b)[0] == a[0] && (a + b)[1..] == a[1..] + b;
      var calls', index' := NextCalls(a[0], calls), NextToolIndex(a[0], toolIndex);
      RecordsConcat(a[1..], b, calls', index', thinking, split);
      RegroupRecords(MessageRecords(a[0], calls, toolIndex, thinking, split),
                     MessagesRecords(a[1..], calls', index', thinking, split),
                     MessagesRecords(b, CallsAfter(a, calls), IndexAfter(a, toolIndex), thinking, split));
    }
  }

  lemma FirstHeard(ms: seq<Message>)
    requires |ms| > 0
    ensures Heard(ms) == (if Speaks(ms[0]) then 1 else 0) + Heard(ms[1..])
  {
  }

  lemma RestRenders(ms: seq<Message>, j: nat, calls: seq<Call>, toolIndex: nat)
    requires 0 < |ms| && j < |ms| - 1 && RendersAt(ms, j + 1, calls, toolIndex)
    ensures RendersAt(ms[1..], j, NextCalls(ms[0], calls), NextToolIndex(ms[0], toolIndex))
  {
    assert ms[..j + 1][0] == ms[0] && ms[..j + 1][1..] == ms[1..][..j];
  }

  /** There are as many records as messages that are rendered. */
  lemma {:induction false} RecordsCount(ms: seq<Message>, calls: seq<Call>, toolIndex: nat, thinking: bool, split: bool)
    requires forall j: nat | j < |ms| :: RendersAt(ms, j, calls, toolIndex)
    ensures |MessagesRecords(ms, calls, toolIndex, thinking, split)| == Heard(ms)
    decreases |ms|
  {
    if |ms| > 0 {
      var calls', index' := NextCalls(ms[0], calls), NextToolIndex(ms[0], toolIndex);
      assert RendersAt(ms, 0, calls, toolIndex) && ms[..0] == [];
      VanishesExactly(ms[0], calls, toolIndex, thinking, split);
      forall j: nat | j < |ms[1..]|
        ensures RendersAt(ms[1..], j, calls', index')
      {
        RestRenders(ms, j, calls, toolIndex);
      }
      RecordsCount(ms[1..], calls', index', thinking, split);
      FirstHeard(ms);
    }
  }

  lemma PrefixRenders(ms: seq<Message>, k: nat, j: nat, calls: seq<Call>, toolIndex: nat)
    requires j < k <= |ms| && RendersAt(ms, j, calls, toolIndex)
    ensures RendersAt(ms[..k], j, calls, toolIndex)
  {
    assert ms[..k][..j] == ms[..j];
  }

  /** The record of message `k` comes after those of the messages before it. */
  lemma RecordAt(ms: seq<Message>, k: nat, thinking: bool, split: bool)
    requires k < |ms| && Speaks(ms[k]) && forall j: nat | j <= k :: RendersAt(ms, j, [], 0)
    ensures var records := MessagesRecords(ms, [], 0, thinking, split);
            && Heard(ms[..k]) < |records|
            && SaidAt(ms, k, thinking, split, records[Heard(ms[..k])])
  {
    var calls, index := CallsAfter(ms[..k], []), IndexAfter(ms[..k], 0);
    forall j: nat | j < k
      ensures RendersAt(ms[..k], j, [], 0)
    {
      PrefixRenders(ms, k, j, [], 0);
    }
    RecordsCount(ms[..k], [], 0, thinking, split);
    assert ms == ms[..k] + ms[k..];
    RecordsConcat(ms[..k], ms[k..], [], 0, thinking, split);
    assert RendersAt(ms, k, [], 0);
    FirstRecord(ms[k..], calls, index, thinking, split);
    AtOffset(MessagesRecords(ms[..k], [], 0, thinking, split),
             MessagesRecords(ms[k..], calls, index, thinking, split), [], 0);
  }

  lemma FirstRecord(ms: seq<Message>, calls: seq<Call>, toolIndex: nat, thinking: bool, split: bool)
    requires |ms| > 0 && Speaks(ms[0]) && Renderable(ms[0], calls, toolIndex)
    ensures var records := MessagesRecords(ms, calls, toolIndex, thinking, split);
            |records| > 0 && Says(ms[0], calls, toolIndex + 1, thinking, split, records[0])
  {
    MessageRead(ms[0], calls, toolIndex, thinking, split);
  }

  /** The record says what message `k` says at its place. */
  ghost predicate SaidAt(ms: seq<Message>, k: nat, thinking: bool, split: bool, r: Record)
    requires k < |ms| && ms[k].Message?
  {
    Says(ms[k], CallsAfter(ms[..k], []), IndexAfter(ms[..k], 0) + 1, thinking, split, r)
  }

  /** How many records the options put before the messages: declared tools, and a thinking effort that
      is given while thinking. */
  function Opening(options: Options): nat {
    (if options.tools.Some? then 1 else 0) + (if options.thinking && options.thinkingEffort.Some? then 1 else 0)
  }

  lemma EncodedRenders(ms: seq<Message>, options: Options, prompts: Prompts)
    requires Encode(ms, options, prompts).Ok?
    ensures NoFailure(MessagesPieces(ms, [], 0, options.thinking)) && NoFailure(EffortPieces(options))
  {
    var pieces := ChatPieces(ms, options);
    if prompts.Some? {
      ChatSyms(ms, options, true);
      WithPromptsExactly(prompts.value, 0, pieces);
    } else {
      WithoutPromptsExactly(0, pieces);
    }
    var q, end := MessagesPieces(ms, [], 0, options.thinking), Ready(Instructions(options) + GenerationPrompt(options));
    NoFailureParts(Ready(Declared(options)), EffortPieces(options) + (q + end));
    NoFailureParts(EffortPieces(options), q + end);
    NoFailureParts(q, end);
  }

  lemma OpeningIs(options: Options)
    requires NoFailure(EffortPieces(options))
    ensures |DeclaredRecords(options)| + |EffortRecords(options)| == Opening(options)
  {
    if options.thinking && options.thinkingEffort.Some? && !ValidEffort(options.thinkingEffort.value) {
      BadEffortFails(options);
    }
  }

  /** Message `k` as decoding gives it: the place of its record counts the messages before it that are
      rendered, and the record says what the message says. */
  lemma MessageIsDecoded(ms: seq<Message>, options: Options, prompts: Prompts, segments: seq<Segment>, k: nat)
    requires Encode(ms, options, prompts) == Ok(segments) && GoodPrompts(prompts) && k < |ms| && Speaks(ms[k])
    ensures var i := Opening(options) + Heard(ms[..k]);
            && Decode(segments).Some? && i < |Decode(segments).value.records|
            && SaidAt(ms, k, options.thinking, prompts.Some?, Decode(segments).value.records[i])
  {
    Decodes(ms, options, prompts, segments);
    MessageIsRecorded(ms, options, prompts, k);
  }

  lemma MessageIsRecorded(ms: seq<Message>, options: Options, prompts: Prompts, k: nat)
    requires Encode(ms, options, prompts).Ok? && k < |ms| && Speaks(ms[k])
    ensures var i, records := Opening(options) + Heard(ms[..k]), Records(ms, options, prompts.Some?);
            i < |records| && SaidAt(ms, k, options.thinking, prompts.Some?, records[i])
  {
    EncodedRenders(ms, options, prompts);
    AllRender(ms, [], 0, options.thinking);
    var a, c, d := RecordsParts(ms, options, prompts);
    MessageInParts(ms, options.thinking, prompts.Some?, k, a, c, d);
  }

  lemma MessageInParts(ms: seq<Message>, thinking: bool, split: bool, k: nat,
                       a: seq<Record>, c: seq<Record>, d: seq<Record>)
    requires c == MessagesRecords(ms, [], 0, thinking, split)
    requires k < |ms| && Speaks(ms[k]) && forall j: nat | j < |ms| :: RendersAt(ms, j, [], 0)
    ensures var i, records := |a| + Heard(ms[..k]), a + (c + d);
            i < |records| && SaidAt(ms, k, thinking, split, records[i])
  {
    RecordAt(ms, k, thinking, split);
    AtOffset(a, c, d, Heard(ms[..k]));
  }

  lemma RecordsParts(ms: seq<Message>, options: Options, prompts: Prompts)
    returns (a: seq<Record>, c: seq<Record>, d: seq<Record>)
    requires Encode(ms, options, prompts).Ok?
    ensures Records(ms, options, prompts.Some?) == a + (c + d) && |a| == Opening(options)
    ensures c == MessagesRecords(ms, [], 0, options.thinking, prompts.Some?)
  {
    EncodedRenders(ms, options, prompts);
    OpeningIs(options);
    a, d := DeclaredRecords(options) + EffortRecords(options), InstructionRecords(options);
    c := MessagesRecords(ms, [], 0, options.thinking, prompts.Some?);
    Regrouped(DeclaredRecords(options), EffortRecords(options), c + d);
  }

  lemma Regrouped(a: seq<Record>, b: seq<Record>, c: seq<Record>)
    ensures a + (b + c) == a + b + c
  {
  }

  lemma AtOffset(a: seq<Record>, c: seq<Record>, d: seq<Record>, i: nat)
    requires i < |c|
    ensures |a| + i < |a + (c + d)| && (a + (c + d))[|a| + i] == c[i]
  {
  }

  /** The reasoning that decoding gives for assistant message `k`, when it was rendered thinking: that of
      `reasoning_content`, or of `reasoning` when that is missing, null or empty; blank reasoning is none. */
  lemma ReasoningIsDecoded(ms: seq<Message>, options: Options, prompts: Prompts, segments: seq<Segment>, k: nat)
    requires Encode(ms, options, prompts) == Ok(segments) && GoodPrompts(prompts) && options.thinking
    requires k < |ms| && ms[k].HasRole("assistant")
    ensures var i := Opening(options) + Heard(ms[..k]);
            && Decode(segments).Some? && i < |Decode(segments).value.records|
            && var r := Decode(segments).value.records[i];
            && r.Answered? && r.reasoning.Some? && ReasoningSays(ms[k], prompts.Some?, r.reasoning.value)
  {
    RolesDiffer();
    MessageIsDecoded(ms, options, prompts, segments, k);
  }

  // ----- What the options announce

  predicate Ends(text: string, end: string) {
    |end| <= |text| && text[|text| - |end|..] == end
  }

  lemma EndsAfter(a: string, b: string, end: string)
    requires Ends(b, end)
    ensures Ends(a + b, end)
  {
  }

  /** Tools declared with the conversation and tools added by a message are announced differently, and
      both announcements end with the tools. */
  lemma DeclarationSays(tools: string)
    ensures "# Tools\n" <= ToolDeclareText(tools, false) && Ends(ToolDeclareText(tools, false), tools + "\n```")
    ensures "## New Tools Available\n" <= ToolDeclareText(tools, true)
    ensures Ends(ToolDeclareText(tools, true), tools + "\n```")
  {
    var end := tools + "\n```";
    var own := "Here are the available tools, described in JSONSchema.\n\n```json\n";
    EndsAfter(own, end, end);
    EndsAfter("# Tools\n", own + end, end);
    var specs := "Here are the specs for the extended tools.\n\n```json\n";
    var access := "You have access to all existing and extended tools.\n";
    var lazy := "The system dynamically extends the toolset via lazy-loading.\n";
    EndsAfter(specs, end, end);
    EndsAfter(access, specs + end, end);
    EndsAfter(lazy, access + (specs + end), end);
    EndsAfter("## New Tools Available\n", lazy + (access + (specs + end)), end);
  }

  /** Required and forbidden tools are announced as such. */
  lemma ChoiceSays()
    ensures "The system is invoked with `tool_choice=required`.\n" <= ChoiceText(true)
    ensures Ends(ChoiceText(true), "You MUST call tools in the next message.")
    ensures "The system is invoked with `tool_choice=none`.\n" <= ChoiceText(false)
    ensures Ends(ChoiceText(false), "You MUST NOT call any tools in the next message.")
  {
    EndsAfter("The system is invoked with `tool_choice=required`.\n", "You MUST call tools in the next message.",
              "You MUST call tools in the next message.");
    EndsAfter("The system is invoked with `tool_choice=none`.\n", "You MUST NOT call any tools in the next message.",
              "You MUST NOT call any tools in the next message.");
  }

  /** The announced effort is the one given. */
  lemma EffortSays(effort: string)
    ensures Ends(EffortText(effort), effort + "`.")
  {
    var end := effort + "`.";
    var now := "Now the system is invoked with `thinking_effort=";
    var values := "supported values include `low`, `medium`, `high`, and `max`.\n";
    var channel := "thinking channel (not including the response channel), ";
    EndsAfter(now, end, end);
    EndsAfter(values, now + end, end);
    EndsAfter(channel, values + (now + end), end);
    EndsAfter("`thinking_effort` guides on how much to think in your ", channel + (values + (now + end)), end);
  }

  /** The announced format is the one asked for, with its schema at the end. */
  lemma FormatSays(schema: string)
    ensures "The system is invoked with `response_format=json_object`.\n" <= FormatText(JsonObject)
    ensures "The system is invoked with `response_format=json_schema`.\n" <= FormatText(JsonSchema(schema))
    ensures Ends(FormatText(JsonSchema(schema)), schema + "\n```")
  {
    var end := schema + "\n```";
    var must := "The JSON data must match the following schema:\n";
    var blocks := "blocks (```json) or any additional formatting.\n";
    var raw := "Your response must be raw JSON data without markdown code ";
    EndsAfter("```json\n", end, end);
    EndsAfter(must, "```json\n" + end, end);
    EndsAfter(blocks, must + ("```json\n" + end), end);
    EndsAfter(raw, blocks + (must + ("```json\n" + end)), end);
    EndsAfter("The system is invoked with `response_format=json_schema`.\n",
              raw + (blocks + (must + ("```json\n" + end))), end);
  }

  /** A thinking effort makes the rendering fail exactly when it matters and is not one of the three. */
  lemma EffortFailsExactly(options: Options)
    ensures !NoFailure(EffortPieces(options)) <==>
            options.thinking && options.thinkingEffort.Some? && options.thinkingEffort.value !in {"low", "high", "max"}
  {
    if options.thinking && options.thinkingEffort.Some? {
      if ValidEffort(options.thinkingEffort.value) {
        ReadyRenders(InternalMessage("thinking-effort", EffortText(options.thinkingEffort.value)));
      } else {
        BadEffortFails(options);
      }
    }
  }

  lemma {:induction false} ReadyRenders(segments: seq<Segment>)
    ensures NoFailure(Ready(segments))
  {
    if |segments| > 0 {
      ReadyRenders(segments[1..]);
      NoFailureParts([Done(segments[0])], Ready(segments[1..]));
    }
  }
}
