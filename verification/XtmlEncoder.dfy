/** Rendering a conversation: for every part of it the pieces it is made of, and the methods that
    render it while they hand out the image prompts. */
module XtmlEncoder {
  import opened Prelude
  import opened Strings
  import opened XtmlMessages
  import opened XtmlToolResults
  import opened XtmlSegments

  // ----- Content

  function PartPieces(part: Part): seq<Piece> {
    match part
    case ImagePart => [Image]
    case TextPart(text) => [UserText(text)]
    case MalformedPart => [Fail(MissingKey)]
  }

  function PartsPieces(parts: seq<Part>): seq<Piece> {
    if |parts| == 0 then [] else PartPieces(parts[0]) + PartsPieces(parts[1..])
  }

  function ContentPieces(content: Content): seq<Piece> {
    match content
    case NoContent => []
    case Text(text) => [UserText(text)]
    case Parts(parts) => PartsPieces(parts)
  }

  function Element(tag: string, attrs: Attrs, body: seq<Piece>): seq<Piece> {
    Ready(OpenTag(tag, attrs)) + (body + Ready(CloseTag(tag)))
  }

  // ----- Assistant messages

  predicate Blank(s: string) {
    forall i | 0 <= i < |s| :: IsSpace(s[i])
  }

  /** `reasoning_content`, or `reasoning` when that is missing or empty. */
  function Reasoning(m: Message): Field
    requires m.Message?
  {
    if m.reasoningContent.Truthy() then m.reasoningContent else m.reasoning
  }

  function ThinkPieces(m: Message): seq<Piece>
    requires m.Message?
  {
    var r := Reasoning(m);
    Element("think", [], if r.Is? && !Blank(r.text) then [UserText(r.text)] else [])
  }

  function XtmlType(value: Value): string {
    match value
    case Str(_) => "string"
    case Json(Boolean, _) => "boolean"
    case Json(NullKind, _) => "null"
    case Json(Number, _) => "number"
    case Json(Object, _) => "object"
    case Json(Array, _) => "array"
  }

  function ArgumentPieces(arguments: seq<(string, Value)>): seq<Piece> {
    if |arguments| == 0 then []
    else
      var (key, value) := arguments[0];
      Element("argument", [("key", key), ("type", XtmlType(value))], [UserText(value.text)])
        + ArgumentPieces(arguments[1..])
  }

  function CallBody(fn: ToolFunction): seq<Piece> {
    match fn.jsonBlock
    case Some(text) => Element("json", [("type", "object")], [UserText(text)])
    case None => ArgumentPieces(fn.arguments)
  }

  /** `str(fn["name"])` */
  function NameText(name: Field): string
    requires !name.Absent?
  {
    if name.Null? then "None" else name.text
  }

  function CallPieces(call: Call, index: nat): seq<Piece> {
    var fn := call.Fn();
    if fn.name.Absent? then [Fail(MissingKey)]
    else Element("call", [("tool", NameText(fn.name)), ("index", Digits(index))], CallBody(fn))
  }

  function CallsPieces(calls: seq<Call>, index: nat): seq<Piece>
    decreases |calls|
  {
    if |calls| == 0 then [] else CallPieces(calls[0], index) + CallsPieces(calls[1..], index + 1)
  }

  function AssistantPieces(m: Message, thinking: bool): seq<Piece>
    requires m.Message?
  {
    (if thinking then ThinkPieces(m) else [])
    + (Element("response", [], ContentPieces(m.content))
    + (if |m.toolCalls| > 0 then Element("tools", [], CallsPieces(m.toolCalls, 1)) else []))
  }

  // ----- Messages

  function MessageElement(attrs: Attrs, body: seq<Piece>): seq<Piece> {
    Element("message", attrs, body) + Ready(EndOfMsg())
  }

  function RoleAttrs(role: string, name: Field): Attrs {
    [("role", role)] + (if name.Truthy() then [("name", name.text)] else [])
  }

  function Framed(attrs: Attrs, body: seq<Segment>): seq<Segment> {
    OpenTag("message", attrs) + (body + (CloseTag("message") + EndOfMsg()))
  }

  function InternalMessage(kind: string, body: string): seq<Segment> {
    Framed([("role", "system"), ("type", kind)], Plain(body))
  }

  function ToolDeclareText(tools: string, dynamic: bool): string {
    if dynamic then
      "## New Tools Available\n"
      + ("The system dynamically extends the toolset via lazy-loading.\n"
      + ("You have access to all existing and extended tools.\n"
      + ("Here are the specs for the extended tools.\n\n```json\n" + (tools + "\n```"))))
    else
      "# Tools\n"
      + ("Here are the available tools, described in JSONSchema.\n\n```json\n" + (tools + "\n```"))
  }

  function ToolDeclare(tools: string, dynamic: bool): seq<Segment> {
    InternalMessage("tool-declare", ToolDeclareText(tools, dynamic))
  }

  /** The name under which tool result `toolIndex` is rendered. */
  function ToolName(m: Message, calls: seq<Call>, toolIndex: nat): Result<string, Error>
    requires m.Message? && toolIndex > 0
  {
    var own := First(m.tool, m.name);
    if own.Is? then Ok(own.text)
    else if toolIndex > |calls| then Err(NoToolName)
    else
      match calls[toolIndex - 1].Fn().name
      case Absent => Err(MissingKey)
      case Null => Err(NoToolName)
      case Is(text) => Ok(text)
  }

  function ToolAttrs(name: string, toolIndex: nat): Attrs {
    [("role", "tool"), ("tool", name), ("index", Digits(toolIndex))]
  }

  /** `calls` and `toolIndex` are those since the last assistant message. */
  function MessagePieces(m: Message, calls: seq<Call>, toolIndex: nat, thinking: bool): seq<Piece> {
    if m.NotADict? then []
    else if m.role.Absent? then [Fail(MissingKey)]
    else if m.role == Is("user") then MessageElement(RoleAttrs("user", m.name), ContentPieces(m.content))
    else if m.role == Is("system") then
      if m.tools.Some? then Ready(ToolDeclare(m.tools.value, true))
      else MessageElement(RoleAttrs("system", m.name), ContentPieces(m.content))
    else if IsTool(m) then
      match ToolName(m, calls, toolIndex + 1)
      case Err(error) => [Fail(error)]
      case Ok(name) => MessageElement(ToolAttrs(name, toolIndex + 1), ContentPieces(m.content))
    else if IsAssistant(m) then MessageElement(RoleAttrs("assistant", m.name), AssistantPieces(m, thinking))
    else []
  }

  function NextCalls(m: Message, calls: seq<Call>): seq<Call> {
    if IsAssistant(m) then m.toolCalls else calls
  }

  function NextToolIndex(m: Message, toolIndex: nat): nat {
    if IsAssistant(m) then 0 else if IsTool(m) then toolIndex + 1 else toolIndex
  }

  function MessagesPieces(ms: seq<Message>, calls: seq<Call>, toolIndex: nat, thinking: bool): seq<Piece>
    decreases |ms|
  {
    if |ms| == 0 then []
    else
      MessagePieces(ms[0], calls, toolIndex, thinking)
        + MessagesPieces(ms[1..], NextCalls(ms[0], calls), NextToolIndex(ms[0], toolIndex), thinking)
  }

  // ----- The conversation

  datatype ToolChoice = RequiredTools | NoTools | OtherChoice

  datatype ResponseFormat = JsonObject | JsonSchema(schema: string) | OtherFormat

  datatype Options = Options(
    tools: Option<string>,
    generationPrompt: bool,
    thinking: bool,
    thinkingEffort: Option<string>,
    toolChoice: ToolChoice,
    responseFormat: ResponseFormat)

  predicate ValidEffort(effort: string) {
    effort == "low" || effort == "high" || effort == "max"
  }

  function EffortText(effort: string): string {
    "`thinking_effort` guides on how much to think in your "
    + ("thinking channel (not including the response channel), "
    + ("supported values include `low`, `medium`, `high`, and `max`.\n"
    + ("Now the system is invoked with `thinking_effort=" + (effort + "`."))))
  }

  function ChoiceText(required: bool): string {
    if required then
      "The system is invoked with `tool_choice=required`.\n" + "You MUST call tools in the next message."
    else
      "The system is invoked with `tool_choice=none`.\n" + "You MUST NOT call any tools in the next message."
  }

  function FormatText(format: ResponseFormat): string
    requires !format.OtherFormat?
  {
    if format.JsonObject? then
      "The system is invoked with `response_format=json_object`.\n"
      + ("Your response must be raw JSON data without markdown code "
      + "blocks (```json) or any additional formatting.")
    else
      "The system is invoked with `response_format=json_schema`.\n"
      + ("Your response must be raw JSON data without markdown code "
      + ("blocks (```json) or any additional formatting.\n"
      + ("The JSON data must match the following schema:\n"
      + ("```json\n" + (format.schema + "\n```")))))
  }

  function Declared(options: Options): seq<Segment> {
    if options.tools.Some? then ToolDeclare(options.tools.value, false) else []
  }

  function EffortPieces(options: Options): seq<Piece> {
    if !options.thinking || options.thinkingEffort.None? then []
    else if ValidEffort(options.thinkingEffort.value) then
      Ready(InternalMessage("thinking-effort", EffortText(options.thinkingEffort.value)))
    else [Fail(BadEffort)]
  }

  function Instructions(options: Options): seq<Segment> {
    (if options.toolChoice.OtherChoice? then []
     else InternalMessage("tool-choice", ChoiceText(options.toolChoice.RequiredTools?)))
    + (if options.responseFormat.OtherFormat? then []
       else InternalMessage("response-format", FormatText(options.responseFormat)))
  }

  const MESSAGE := "message"
  const ASSISTANT: Attrs := [("role", "assistant")]

  /** The tag that a generation prompt leaves open inside the message. */
  function Channel(options: Options): string {
    if options.thinking then "think" else "response"
  }

  function GenerationPrompt(options: Options): seq<Segment> {
    if options.generationPrompt then OpenTag(MESSAGE, ASSISTANT) + OpenTag(Channel(options), []) else []
  }

  function ChatPieces(ms: seq<Message>, options: Options): seq<Piece> {
    Ready(Declared(options))
    + (EffortPieces(options)
    + (MessagesPieces(ms, [], 0, options.thinking)
    + Ready(Instructions(options) + GenerationPrompt(options))))
  }

  /** The segments of a conversation whose tool results are in order; every prompt must be used. */
  function Encode(ms: seq<Message>, options: Options, prompts: Prompts): Result<seq<Segment>, Error> {
    match Fill(prompts, 0, ChatPieces(ms, options))
    case Err(error) => Err(error)
    case Ok(p) => if prompts.Some? && p.1 != |prompts.value| then Err(PromptsLeft) else Ok(p.0)
  }
}
