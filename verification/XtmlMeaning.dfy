/** What the records of a conversation keep of its messages, and what is lost. */
module XtmlMeaning {
  import opened Prelude
  import opened Strings
  import opened XtmlMessages
  import opened XtmlToolResults
  import opened XtmlSegments
  import opened XtmlEncoder
  import opened XtmlReader
  import opened XtmlRecords

  // ----- Texts are kept

  /** The text of atoms, with the placeholder for every image. */
  function Spelled(atoms: seq<Atom>): string {
    if |atoms| == 0 then ""
    else (if atoms[0].Letter? then [atoms[0].c] else IMAGE_PLACEHOLDER) + Spelled(atoms[1..])
  }

  lemma {:induction false} SpelledText(text: string, split: bool)
    ensures Spelled(TextAtoms(text, split)) == text
    decreases |text|
  {
    if text == "" {
    } else if split && IMAGE_PLACEHOLDER <= text {
      var rest := text[|IMAGE_PLACEHOLDER|..];
      SpelledText(rest, split);
      assert TextAtoms(text, split)[1..] == TextAtoms(rest, split);
      assert IMAGE_PLACEHOLDER + rest == text;
    } else {
      SpelledText(text[1..], split);
      assert TextAtoms(text, split)[1..] == TextAtoms(text[1..], split);
      assert [text[0]] + text[1..] == text;
    }
  }

  lemma TextKept(a: string, b: string, split: bool)
    ensures TextAtoms(a, split) == TextAtoms(b, split) <==> a == b
  {
    SpelledText(a, split);
    SpelledText(b, split);
  }

  // ----- Arguments and calls are kept

  lemma TypesDiffer(a: Value, b: Value)
    ensures XtmlType(a) == XtmlType(b) <==> (a.Str? <==> b.Str?) && (a.Json? && b.Json? ==> a.kind == b.kind)
  {
    assert "string"[0] == 's' && "boolean"[0] == 'b' && "null"[2] == 'l' && "number"[2] == 'm';
    assert "object"[0] == 'o' && "array"[0] == 'a' && "null"[0] == 'n' && "number"[0] == 'n';
  }

  lemma {:induction false} ArgumentsKept(a: seq<(string, Value)>, b: seq<(string, Value)>, split: bool)
    ensures ArgumentRecords(a, split) == ArgumentRecords(b, split) <==> a == b
  {
    if |a| > 0 && |b| > 0 {
      var x, y := ArgumentRecords(a, split), ArgumentRecords(b, split);
      assert x[1..] == ArgumentRecords(a[1..], split) && y[1..] == ArgumentRecords(b[1..], split);
      ArgumentsKept(a[1..], b[1..], split);
      TextKept(a[0].1.text, b[0].1.text, split);
      TypesDiffer(a[0].1, b[0].1);
      FirstAndRest(a);
      FirstAndRest(b);
      FirstAndRest(x);
      FirstAndRest(y);
      assert x[0] == y[0] <==> a[0] == b[0];
    }
  }

  /** The same name, null being "None", and the same JSON block or arguments. */
  ghost predicate SameCall(a: Call, b: Call)
    requires !a.Fn().name.Absent? && !b.Fn().name.Absent?
  {
    var f, g := a.Fn(), b.Fn();
    NameText(f.name) == NameText(g.name) && f.jsonBlock == g.jsonBlock
    && (f.jsonBlock.None? ==> f.arguments == g.arguments)
  }

  predicate AllNamed(calls: seq<Call>) {
    forall i | 0 <= i < |calls| :: !calls[i].Fn().name.Absent?
  }

  ghost predicate SameCalls(a: seq<Call>, b: seq<Call>)
    requires AllNamed(a) && AllNamed(b)
  {
    |a| == |b| && forall i | 0 <= i < |a| :: SameCall(a[i], b[i])
  }

  lemma GivenKept(f: ToolFunction, g: ToolFunction, split: bool)
    ensures GivenTo(f, split) == GivenTo(g, split) <==>
            f.jsonBlock == g.jsonBlock && (f.jsonBlock.None? ==> f.arguments == g.arguments)
  {
    ArgumentsKept(f.arguments, g.arguments, split);
    if f.jsonBlock.Some? && g.jsonBlock.Some? {
      TextKept(f.jsonBlock.value, g.jsonBlock.value, split);
    }
  }

  lemma {:induction false} CallsKept(a: seq<Call>, b: seq<Call>, index: nat, split: bool)
    requires AllNamed(a) && AllNamed(b)
    ensures |CallRecords(a, index, split)| == |a|
    ensures CallRecords(a, index, split) == CallRecords(b, index, split) <==> SameCalls(a, b)
    decreases |a| + |b|
  {
    var x, y := CallRecords(a, index, split), CallRecords(b, index, split);
    if |a| > 0 && |b| > 0 {
      CallsKept(a[1..], b[1..], index + 1, split);
      assert x[1..] == CallRecords(a[1..], index + 1, split) && y[1..] == CallRecords(b[1..], index + 1, split);
      GivenKept(a[0].Fn(), b[0].Fn(), split);
      FirstAndRest(x);
      FirstAndRest(y);
      assert x[0] == y[0] <==> SameCall(a[0], b[0]);
      SameCallsFirst(a, b);
    } else if |a| > 0 {
      CallsKept(a[1..], b, index + 1, split);
    }
  }

  lemma SameCallsFirst(a: seq<Call>, b: seq<Call>)
    requires AllNamed(a) && AllNamed(b) && |a| > 0 && |b| > 0
    ensures SameCalls(a, b) <==> SameCall(a[0], b[0]) && SameCalls(a[1..], b[1..])
  {
    if SameCall(a[0], b[0]) && SameCalls(a[1..], b[1..]) {
      forall i | 0 <= i < |a|
        ensures SameCall(a[i], b[i])
      {
        assert i > 0 ==> SameCall(a[1..][i - 1], b[1..][i - 1]);
      }
    }
  }

  // ----- Messages

  /** The message renders: it has a role, its calls have names, and a tool result finds its name. */
  predicate Renderable(m: Message, calls: seq<Call>, toolIndex: nat) {
    m.Message? ==>
      && !m.role.Absent?
      && (IsAssistant(m) ==> AllNamed(m.toolCalls))
      && (IsTool(m) ==> ToolName(m, calls, toolIndex + 1).Ok?)
  }

  /** The message has a role that is rendered. */
  predicate Speaks(m: Message) {
    m.HasRole("user") || m.HasRole("system") || m.HasRole("tool") || m.HasRole("assistant")
  }

  /** A message leaves no record exactly when it is not a dictionary or has another role. */
  lemma VanishesExactly(m: Message, calls: seq<Call>, toolIndex: nat, thinking: bool, split: bool)
    requires Renderable(m, calls, toolIndex)
    ensures |MessageRecords(m, calls, toolIndex, thinking, split)| == if Speaks(m) then 1 else 0
  {
  }

  /** Two assistant messages say the same: name, calls, and the reasoning only when thinking, blank
      reasoning being none. */
  ghost predicate SameAnswer(m: Message, n: Message, thinking: bool, split: bool)
    requires m.Message? && n.Message? && AllNamed(m.toolCalls) && AllNamed(n.toolCalls)
  {
    && NameOf(m.name) == NameOf(n.name) && (thinking ==> ReasoningText(m) == ReasoningText(n))
    && ContentAtoms(m.content, split) == ContentAtoms(n.content, split) && SameCalls(m.toolCalls, n.toolCalls)
  }

  lemma AnswerKept(m: Message, n: Message, thinking: bool, split: bool)
    requires m.Message? && n.Message? && AllNamed(m.toolCalls) && AllNamed(n.toolCalls)
    ensures AnswerRecord(m, thinking, split) == AnswerRecord(n, thinking, split) <==> SameAnswer(m, n, thinking, split)
  {
    TextKept(ReasoningText(m), ReasoningText(n), split);
    CallsKept(m.toolCalls, n.toolCalls, 1, split);
  }

  lemma SameAfter(before: string, a: string, b: string)
    ensures before + a == before + b <==> a == b
  {
    if before + a == before + b {
      assert a == (before + a)[|before|..] && b == (before + b)[|before|..];
    }
  }

  lemma SameBefore(a: string, b: string, after: string)
    ensures a + after == b + after <==> a == b
  {
    if a + after == b + after {
      assert a == (a + after)[..|a|] && b == (b + after)[..|b|];
    }
  }

  /** Four fixed texts before, and one after, change nothing. */
  lemma SameWithin(p: string, q: string, r: string, s: string, a: string, b: string, t: string)
    ensures p + (q + (r + (s + (a + t)))) == p + (q + (r + (s + (b + t)))) <==> a == b
  {
    SameBefore(a, b, t);
    SameAfter(s, a + t, b + t);
    SameAfter(r, s + (a + t), s + (b + t));
    SameAfter(q, r + (s + (a + t)), r + (s + (b + t)));
    SameAfter(p, q + (r + (s + (a + t))), q + (r + (s + (b + t))));
  }

  lemma DeclarationKept(a: string, b: string)
    ensures (InternalRecord("tool-declare", ToolDeclareText(a, true)) ==
             InternalRecord("tool-declare", ToolDeclareText(b, true))) <==> a == b
  {
    TextKept(ToolDeclareText(a, true), ToolDeclareText(b, true), false);
    SameWithin("## New Tools Available\n", "The system dynamically extends the toolset via lazy-loading.\n",
               "You have access to all existing and extended tools.\n",
               "Here are the specs for the extended tools.\n\n```json\n", a, b, "\n```");
  }

  /** Two messages at the same place say the same: both leave no record; or they have the same role and
      agree on what that role renders. */
  ghost predicate SaysTheSame(m: Message, n: Message, calls: seq<Call>, toolIndex: nat, thinking: bool, split: bool)
    requires Renderable(m, calls, toolIndex) && Renderable(n, calls, toolIndex)
  {
    if !Speaks(m) || !Speaks(n) then !Speaks(m) && !Speaks(n)
    else
      && m.role == n.role
      && if IsAssistant(m) then SameAnswer(m, n, thinking, split)
         else if m.HasRole("system") && (m.tools.Some? || n.tools.Some?) then m.tools == n.tools
         else
           && ContentAtoms(m.content, split) == ContentAtoms(n.content, split)
           && if IsTool(m) then ToolName(m, calls, toolIndex + 1) == ToolName(n, calls, toolIndex + 1)
              else NameOf(m.name) == NameOf(n.name)
  }

  /** Records of speakers of different roles differ. */
  lemma RolesKept(m: Message, n: Message, calls: seq<Call>, toolIndex: nat, thinking: bool, split: bool)
    requires Renderable(m, calls, toolIndex) && Renderable(n, calls, toolIndex)
    requires Speaks(m) && Speaks(n) && m.role != n.role
    ensures MessageRecords(m, calls, toolIndex, thinking, split) != MessageRecords(n, calls, toolIndex, thinking, split)
  {
    RolesDiffer();
    assert MessageRecords(m, calls, toolIndex, thinking, split)[0]
        != MessageRecords(n, calls, toolIndex, thinking, split)[0];
  }

  lemma SystemKept(m: Message, n: Message, calls: seq<Call>, toolIndex: nat, thinking: bool, split: bool)
    requires m.HasRole("system") && n.HasRole("system")
    ensures MessageRecords(m, calls, toolIndex, thinking, split) == MessageRecords(n, calls, toolIndex, thinking, split)
            <==> SaysTheSame(m, n, calls, toolIndex, thinking, split)
  {
    var x := MessageRecords(m, calls, toolIndex, thinking, split);
    var y := MessageRecords(n, calls, toolIndex, thinking, split);
    assert x == y <==> x[0] == y[0];
    RolesDiffer();
    if m.tools.Some? && n.tools.Some? {
      DeclarationKept(m.tools.value, n.tools.value);
    }
  }

  lemma SameRoleKept(m: Message, n: Message, calls: seq<Call>, toolIndex: nat, thinking: bool, split: bool)
    requires Renderable(m, calls, toolIndex) && Renderable(n, calls, toolIndex)
    requires Speaks(m) && Speaks(n) && m.role == n.role
    ensures MessageRecords(m, calls, toolIndex, thinking, split) == MessageRecords(n, calls, toolIndex, thinking, split)
            <==> SaysTheSame(m, n, calls, toolIndex, thinking, split)
  {
    RolesDiffer();
    if m.HasRole("system") {
      SystemKept(m, n, calls, toolIndex, thinking, split);
    } else {
      var x := MessageRecords(m, calls, toolIndex, thinking, split);
      var y := MessageRecords(n, calls, toolIndex, thinking, split);
      assert x == y <==> x[0] == y[0];
      if IsAssistant(m) {
        AnswerKept(m, n, thinking, split);
      }
    }
  }

  /** What is kept of a message, and what is lost, exactly: two messages leave the same records if and
      only if they say the same. */
  lemma KeptExactly(m: Message, n: Message, calls: seq<Call>, toolIndex: nat, thinking: bool, split: bool)
    requires Renderable(m, calls, toolIndex) && Renderable(n, calls, toolIndex)
    ensures MessageRecords(m, calls, toolIndex, thinking, split) == MessageRecords(n, calls, toolIndex, thinking, split)
            <==> SaysTheSame(m, n, calls, toolIndex, thinking, split)
  {
    VanishesExactly(m, calls, toolIndex, thinking, split);
    VanishesExactly(n, calls, toolIndex, thinking, split);
    if Speaks(m) && Speaks(n) {
      if m.role == n.role {
        SameRoleKept(m, n, calls, toolIndex, thinking, split);
      } else {
        RolesKept(m, n, calls, toolIndex, thinking, split);
      }
    }
  }
}
