/** Chat messages, as the dictionaries the encoder reads. */
module XtmlMessages {
  import opened Prelude

  /** The value of an optional key; a value that is not a string stands as its text. */
  datatype Field = Absent | Null | Is(text: string)
  {
    /** `d.get(key)` in a condition. */
    predicate Truthy() { Is? && text != "" }
  }

  /** `d.get(a, d.get(b))` */
  function First(a: Field, b: Field): Field {
    if a.Absent? then b else a
  }

  datatype Kind = Boolean | NullKind | Number | Object | Array

  /** An argument value: a string, or another kind with its JSON text. */
  datatype Value = Str(text: string) | Json(kind: Kind, text: string)

  datatype ToolFunction = ToolFunction(name: Field, arguments: seq<(string, Value)>, jsonBlock: Option<string>)

  /** A tool call: its keys, and its `function` entry if it has one. */
  datatype Call = Call(id: Field, nested: Option<ToolFunction>, own: ToolFunction)
  {
    function Fn(): ToolFunction { if nested.Some? then nested.value else own }
  }

  datatype Part = ImagePart | TextPart(text: string) | MalformedPart

  datatype Content = NoContent | Text(text: string) | Parts(parts: seq<Part>)

  datatype Message =
    | NotADict
    | Message(
        role: Field,
        name: Field,
        tool: Field,
        toolCallId: Field,
        id: Field,
        content: Content,
        reasoningContent: Field,
        reasoning: Field,
        toolCalls: seq<Call>,
        tools: Option<string>)
  {
    predicate HasRole(r: string) { Message? && role == Is(r) }
  }
}
