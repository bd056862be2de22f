/** Reading the tree of a rendering as records: who speaks, what is said, the reasoning and the
    calls.  The reader accepts exactly the trees that records are written as. */
module XtmlReader {
  import opened Prelude
  import opened XtmlSegments
  import opened XtmlParsing

  // ----- Records

  /** A character of a text, or an image in it. */
  datatype Atom = Letter(c: char) | Photo

  datatype ArgumentRecord = ArgumentRecord(key: string, kind: string, value: seq<Atom>)

  /** What a call is given: a block of JSON, or arguments one by one. */
  datatype Given = Block(json: seq<Atom>) | Listed(arguments: seq<ArgumentRecord>)

  datatype CallRecord = CallRecord(name: string, index: string, given: Given)

  /** An empty name stands for none. */
  datatype Speaker =
    | User(name: string)
    | System(name: string)
    | Internal(kind: string)
    | Tool(name: string, index: string)

  datatype Record =
    | Said(speaker: Speaker, content: seq<Atom>)
    | Answered(name: string, reasoning: Option<seq<Atom>>, content: seq<Atom>, calls: Option<seq<CallRecord>>)

  // ----- Writing

  function AtomNode(atom: Atom): Node {
    match atom
    case Letter(c) => Chr(c)
    case Photo => Picture
  }

  function AtomNodes(atoms: seq<Atom>): seq<Node> {
    if |atoms| == 0 then [] else [AtomNode(atoms[0])] + AtomNodes(atoms[1..])
  }

  function ArgumentElem(a: ArgumentRecord): Node {
    Elem("argument", [("key", a.key), ("type", a.kind)], AtomNodes(a.value))
  }

  function ArgumentElems(arguments: seq<ArgumentRecord>): seq<Node> {
    if |arguments| == 0 then [] else [ArgumentElem(arguments[0])] + ArgumentElems(arguments[1..])
  }

  function GivenNodes(given: Given): seq<Node> {
    match given
    case Block(json) => [Elem("json", [("type", "object")], AtomNodes(json))]
    case Listed(arguments) => ArgumentElems(arguments)
  }

  function CallElem(call: CallRecord): Node {
    Elem("call", [("tool", call.name), ("index", call.index)], GivenNodes(call.given))
  }

  function CallElems(calls: seq<CallRecord>): seq<Node> {
    if |calls| == 0 then [] else [CallElem(calls[0])] + CallElems(calls[1..])
  }

  function NamedAttrs(role: string, name: string): Attrs {
    [("role", role)] + (if name == "" then [] else [("name", name)])
  }

  function SpeakerAttrs(speaker: Speaker): Attrs {
    match speaker
    case User(name) => NamedAttrs("user", name)
    case System(name) => NamedAttrs("system", name)
    case Internal(kind) => [("role", "system"), ("type", kind)]
    case Tool(name, index) => [("role", "tool"), ("tool", name), ("index", index)]
  }

  function AnswerNodes(reasoning: Option<seq<Atom>>, content: seq<Atom>, calls: Option<seq<CallRecord>>): seq<Node> {
    (if reasoning.Some? then [Elem("think", [], AtomNodes(reasoning.value))] else [])
    + ([Elem("response", [], AtomNodes(content))]
    + (if calls.Some? then [Elem("tools", [], CallElems(calls.value))] else []))
  }

  function RecordElem(r: Record): Node {
    match r
    case Said(speaker, content) => Elem("message", SpeakerAttrs(speaker), AtomNodes(content))
    case Answered(name, reasoning, content, calls) =>
      Elem("message", NamedAttrs("assistant", name), AnswerNodes(reasoning, content, calls))
  }

  function Write(records: seq<Record>): seq<Node> {
    if |records| == 0 then [] else [RecordElem(records[0]), EndOfMessage] + Write(records[1..])
  }

  // ----- Reading

  function ReadAtoms(nodes: seq<Node>): Option<seq<Atom>> {
    if |nodes| == 0 then Some([])
    else if !nodes[0].Chr? && !nodes[0].Picture? then None
    else
      match ReadAtoms(nodes[1..])
      case None => None
      case Some(more) => Some([if nodes[0].Chr? then Letter(nodes[0].c) else Photo] + more)
  }

  /** The body of an element with this tag and no attributes. */
  predicate IsBare(node: Node, tag: string) {
    node.Elem? && node.tag == tag && node.attrs == []
  }

  function ReadArgument(node: Node): Option<ArgumentRecord> {
    if !node.Elem? || node.tag != "argument" || |node.attrs| != 2 then None
    else if node.attrs[0].0 != "key" || node.attrs[1].0 != "type" then None
    else
      match ReadAtoms(node.body)
      case None => None
      case Some(value) => Some(ArgumentRecord(node.attrs[0].1, node.attrs[1].1, value))
  }

  function ReadArguments(nodes: seq<Node>): Option<seq<ArgumentRecord>> {
    if |nodes| == 0 then Some([])
    else
      match (ReadArgument(nodes[0]), ReadArguments(nodes[1..]))
      case (Some(first), Some(more)) => Some([first] + more)
      case _ => None
  }

  predicate IsBlock(nodes: seq<Node>) {
    |nodes| == 1 && nodes[0].Elem? && nodes[0].tag == "json"
  }

  function ReadGiven(nodes: seq<Node>): Option<Given> {
    if IsBlock(nodes) then
      if nodes[0].attrs != [("type", "object")] then None
      else
        match ReadAtoms(nodes[0].body)
        case None => None
        case Some(json) => Some(Block(json))
    else
      match ReadArguments(nodes)
      case None => None
      case Some(arguments) => Some(Listed(arguments))
  }

  function ReadCall(node: Node): Option<CallRecord> {
    if !node.Elem? || node.tag != "call" || |node.attrs| != 2 then None
    else if node.attrs[0].0 != "tool" || node.attrs[1].0 != "index" then None
    else
      match ReadGiven(node.body)
      case None => None
      case Some(given) => Some(CallRecord(node.attrs[0].1, node.attrs[1].1, given))
  }

  function ReadCalls(nodes: seq<Node>): Option<seq<CallRecord>> {
    if |nodes| == 0 then Some([])
    else
      match (ReadCall(nodes[0]), ReadCalls(nodes[1..]))
      case (Some(first), Some(more)) => Some([first] + more)
      case _ => None
  }

  /** The name after the role. */
  function ReadName(attrs: Attrs): Option<string>
    requires |attrs| > 0
  {
    if |attrs| == 1 then Some("")
    else if |attrs| == 2 && attrs[1].0 == "name" && attrs[1].1 != "" then Some(attrs[1].1)
    else None
  }

  predicate HasRole(attrs: Attrs, role: string) {
    |attrs| > 0 && attrs[0] == ("role", role)
  }

  function ReadSpeaker(attrs: Attrs): Option<Speaker> {
    if HasRole(attrs, "user") then
      match ReadName(attrs)
      case None => None
      case Some(name) => Some(User(name))
    else if HasRole(attrs, "system") && |attrs| == 2 && attrs[1].0 == "type" then Some(Internal(attrs[1].1))
    else if HasRole(attrs, "system") then
      match ReadName(attrs)
      case None => None
      case Some(name) => Some(System(name))
    else if HasRole(attrs, "tool") && |attrs| == 3 && attrs[1].0 == "tool" && attrs[2].0 == "index" then
      Some(Tool(attrs[1].1, attrs[2].1))
    else None
  }

  /** The response and the calls, at the end of an answer. */
  function ReadResponse(nodes: seq<Node>): Option<(seq<Atom>, Option<seq<CallRecord>>)> {
    if |nodes| == 0 || |nodes| > 2 || !IsBare(nodes[0], "response") then None
    else
      match ReadAtoms(nodes[0].body)
      case None => None
      case Some(content) =>
        if |nodes| == 1 then Some((content, None))
        else if !IsBare(nodes[1], "tools") then None
        else
          match ReadCalls(nodes[1].body)
          case None => None
          case Some(calls) => Some((content, Some(calls)))
  }

  function ReadAnswer(name: string, nodes: seq<Node>): Option<Record> {
    if |nodes| > 0 && IsBare(nodes[0], "think") then
      match (ReadAtoms(nodes[0].body), ReadResponse(nodes[1..]))
      case (Some(reasoning), Some((content, calls))) => Some(Answered(name, Some(reasoning), content, calls))
      case _ => None
    else
      match ReadResponse(nodes)
      case Some((content, calls)) => Some(Answered(name, None, content, calls))
      case _ => None
  }

  function ReadRecord(node: Node): Option<Record> {
    if !node.Elem? || node.tag != "message" then None
    else if HasRole(node.attrs, "assistant") then
      match ReadName(node.attrs)
      case None => None
      case Some(name) => ReadAnswer(name, node.body)
    else
      match (ReadSpeaker(node.attrs), ReadAtoms(node.body))
      case (Some(speaker), Some(content)) => Some(Said(speaker, content))
      case _ => None
  }

  function Read(nodes: seq<Node>): Option<seq<Record>> {
    if |nodes| == 0 then Some([])
    else if |nodes| == 1 || nodes[1] != EndOfMessage then None
    else
      match (ReadRecord(nodes[0]), Read(nodes[2..]))
      case (Some(first), Some(more)) => Some([first] + more)
      case _ => None
  }

  // ----- Reading is the inverse of writing

  lemma FirstAndRest<T>(s: seq<T>)
    requires |s| > 0
    ensures [s[0]] + s[1..] == s
  {
  }

  lemma {:induction false} AtomsExactly(nodes: seq<Node>, atoms: seq<Atom>)
    ensures ReadAtoms(nodes) == Some(atoms) <==> nodes == AtomNodes(atoms)
  {
    if |nodes| > 0 && |atoms| > 0 {
      AtomsExactly(nodes[1..], atoms[1..]);
      FirstAndRest(nodes);
      FirstAndRest(atoms);
      assert AtomNodes(atoms)[1..] == AtomNodes(atoms[1..]);
      if ReadAtoms(nodes).Some? {
        assert ReadAtoms(nodes).value[1..] == ReadAtoms(nodes[1..]).value;
      }
    }
  }

  lemma ArgumentExactly(node: Node, a: ArgumentRecord)
    ensures ReadArgument(node) == Some(a) <==> node == ArgumentElem(a)
  {
    if node.Elem? {
      AtomsExactly(node.body, a.value);
      if |node.attrs| == 2 && node.attrs[0] == ("key", a.key) && node.attrs[1] == ("type", a.kind) {
        assert node.attrs == [("key", a.key), ("type", a.kind)];
      }
    }
  }

  lemma {:induction false} ArgumentsExactly(nodes: seq<Node>, arguments: seq<ArgumentRecord>)
    ensures ReadArguments(nodes) == Some(arguments) <==> nodes == ArgumentElems(arguments)
  {
    if |nodes| > 0 && |arguments| > 0 {
      ArgumentExactly(nodes[0], arguments[0]);
      ArgumentsExactly(nodes[1..], arguments[1..]);
      FirstAndRest(nodes);
      FirstAndRest(arguments);
      assert ArgumentElems(arguments)[1..] == ArgumentElems(arguments[1..]);
      if ReadArguments(nodes).Some? {
        assert ReadArguments(nodes).value[1..] == ReadArguments(nodes[1..]).value;
      }
    }
  }

  lemma NotABlock(arguments: seq<ArgumentRecord>)
    ensures !IsBlock(ArgumentElems(arguments))
  {
    if |arguments| > 0 {
      assert "argument"[0] != "json"[0];
    }
  }

  lemma GivenExactly(nodes: seq<Node>, given: Given)
    ensures ReadGiven(nodes) == Some(given) <==> nodes == GivenNodes(given)
  {
    match given
    case Block(json) =>
      if IsBlock(nodes) {
        AtomsExactly(nodes[0].body, json);
        assert nodes == [nodes[0]];
      }
    case Listed(arguments) =>
      ArgumentsExactly(nodes, arguments);
      NotABlock(arguments);
  }

  lemma CallExactly(node: Node, call: CallRecord)
    ensures ReadCall(node) == Some(call) <==> node == CallElem(call)
  {
    if node.Elem? {
      GivenExactly(node.body, call.given);
      if |node.attrs| == 2 && node.attrs[0] == ("tool", call.name) && node.attrs[1] == ("index", call.index) {
        assert node.attrs == [("tool", call.name), ("index", call.index)];
      }
    }
  }

  lemma {:induction false} CallsExactly(nodes: seq<Node>, calls: seq<CallRecord>)
    ensures ReadCalls(nodes) == Some(calls) <==> nodes == CallElems(calls)
  {
    if |nodes| > 0 && |calls| > 0 {
      CallExactly(nodes[0], calls[0]);
      CallsExactly(nodes[1..], calls[1..]);
      FirstAndRest(nodes);
      FirstAndRest(calls);
      assert CallElems(calls)[1..] == CallElems(calls[1..]);
      if ReadCalls(nodes).Some? {
        assert ReadCalls(nodes).value[1..] == ReadCalls(nodes[1..]).value;
      }
    }
  }

  lemma RolesDiffer()
    ensures "user" != "system" && "user" != "tool" && "user" != "assistant"
    ensures "system" != "tool" && "system" != "assistant" && "tool" != "assistant"
    ensures "name" != "type" && "think" != "response"
  {
    assert "user"[0] == 'u' && "system"[0] == 's' && "tool"[0] == 't' && "assistant"[0] == 'a';
    assert "name"[0] == 'n' && "type"[0] == 't' && "think"[0] == 't' && "response"[0] == 'r';
  }

  lemma NameExactly(attrs: Attrs, role: string, name: string)
    ensures HasRole(attrs, role) && ReadName(attrs) == Some(name) <==> attrs == NamedAttrs(role, name)
  {
    if HasRole(attrs, role) {
      if |attrs| == 1 {
        assert attrs == [("role", role)];
      } else if |attrs| == 2 && attrs[1] == ("name", name) {
        assert attrs == [("role", role)] + [("name", name)];
      }
    }
  }

  lemma SpeakerExactly(attrs: Attrs, speaker: Speaker)
    ensures ReadSpeaker(attrs) == Some(speaker) <==> attrs == SpeakerAttrs(speaker)
  {
    RolesDiffer();
    match speaker
    case User(name) => NameExactly(attrs, "user", name);
    case System(name) => NameExactly(attrs, "system", name);
    case Internal(kind) =>
      if HasRole(attrs, "system") && |attrs| == 2 && attrs[1] == ("type", kind) {
        assert attrs == [("role", "system"), ("type", kind)];
      }
    case Tool(name, index) =>
      if HasRole(attrs, "tool") && |attrs| == 3 && attrs[1] == ("tool", name) && attrs[2] == ("index", index) {
        assert attrs == [("role", "tool"), ("tool", name), ("index", index)];
      }
  }

  lemma NotAssistant(speaker: Speaker)
    ensures !HasRole(SpeakerAttrs(speaker), "assistant")
  {
    RolesDiffer();
  }

  function ResponseNodes(content: seq<Atom>, calls: Option<seq<CallRecord>>): seq<Node> {
    [Elem("response", [], AtomNodes(content))]
    + (if calls.Some? then [Elem("tools", [], CallElems(calls.value))] else [])
  }

  lemma ResponseExactly(nodes: seq<Node>, content: seq<Atom>, calls: Option<seq<CallRecord>>)
    ensures ReadResponse(nodes) == Some((content, calls)) <==> nodes == ResponseNodes(content, calls)
  {
    if |nodes| > 0 && IsBare(nodes[0], "response") {
      AtomsExactly(nodes[0].body, content);
      if |nodes| == 1 {
        assert nodes == [nodes[0]];
      } else if |nodes| == 2 && IsBare(nodes[1], "tools") && calls.Some? {
        CallsExactly(nodes[1].body, calls.value);
        assert nodes == [nodes[0]] + [nodes[1]];
      }
    }
  }

  lemma AnswerExactly(name: string, nodes: seq<Node>, r: Record)
    requires r.Answered?
    ensures ReadAnswer(name, nodes) == Some(r) <==>
            r.name == name && nodes == AnswerNodes(r.reasoning, r.content, r.calls)
  {
    RolesDiffer();
    var response := ResponseNodes(r.content, r.calls);
    if |nodes| > 0 && IsBare(nodes[0], "think") {
      ResponseExactly(nodes[1..], r.content, r.calls);
      FirstAndRest(nodes);
      if r.reasoning.Some? {
        AtomsExactly(nodes[0].body, r.reasoning.value);
        assert AnswerNodes(r.reasoning, r.content, r.calls)[1..] == response;
      } else {
        assert AnswerNodes(r.reasoning, r.content, r.calls) == response;
      }
    } else {
      ResponseExactly(nodes, r.content, r.calls);
      if r.reasoning.None? {
        assert AnswerNodes(r.reasoning, r.content, r.calls) == response;
      }
    }
  }

  lemma RecordExactly(node: Node, r: Record)
    ensures ReadRecord(node) == Some(r) <==> node == RecordElem(r)
  {
    if node.Elem? && node.tag == "message" {
      match r
      case Said(speaker, content) =>
        SpeakerExactly(node.attrs, speaker);
        NotAssistant(speaker);
        AtomsExactly(node.body, content);
      case Answered(name, _, _, _) =>
        NameExactly(node.attrs, "assistant", name);
        AnswerExactly(name, node.body, r);
    }
  }

  /** Reading gives these records exactly for the tree they are written as. */
  lemma {:induction false} ReadExactly(nodes: seq<Node>, records: seq<Record>)
    ensures Read(nodes) == Some(records) <==> nodes == Write(records)
    decreases |nodes|
  {
    if |nodes| > 1 && |records| > 0 {
      RecordExactly(nodes[0], records[0]);
      ReadExactly(nodes[2..], records[1..]);
      FirstAndRest(records);
      assert [nodes[0], nodes[1]] + nodes[2..] == nodes;
      assert Write(records)[2..] == Write(records[1..]);
      if Read(nodes).Some? {
        assert Read(nodes).value[1..] == Read(nodes[2..]).value;
      }
    }
  }
}
