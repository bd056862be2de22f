/** Sorting tool results into the order of the calls they answer. */
module XtmlToolResults {
  import opened Prelude
  import opened XtmlMessages

  predicate IsAssistant(m: Message) { m.HasRole("assistant") }

  predicate IsTool(m: Message) { m.HasRole("tool") }

  predicate AllTool(ms: seq<Message>) {
    forall i | 0 <= i < |ms| :: IsTool(ms[i])
  }

  // ----- Matching

  /** The first call with an id, from position `i` on. */
  function Lookup(calls: seq<Call>, id: string, i: nat): (r: Option<nat>)
    requires i <= |calls|
    ensures r.Some? ==> i <= r.value < |calls| && calls[r.value].id == Is(id)
    decreases |calls| - i
  {
    if i == |calls| then None
    else if calls[i].id == Is(id) then Some(i)
    else Lookup(calls, id, i + 1)
  }

  function CallId(m: Message): Field
    requires m.Message?
  {
    First(m.toolCallId, m.id)
  }

  /** A tool message with the position, counted from 1, and the name of the call it answers. */
  datatype Answer = Answer(position: nat, message: Message, name: Field)

  function AnswerOf(m: Message, calls: seq<Call>): Option<Answer>
    requires m.Message?
  {
    if !CallId(m).Is? then None
    else
      match Lookup(calls, CallId(m).text, 0)
      case None => None
      case Some(k) => Some(Answer(k + 1, m, calls[k].Fn().name))
  }

  /** The answers of a run, or none when some message matches no call. */
  function Answers(run: seq<Message>, calls: seq<Call>): (r: Option<seq<Answer>>)
    requires AllTool(run)
    ensures r.Some? ==> |r.value| == |run|
  {
    if |run| == 0 then Some([])
    else
      assert IsTool(run[0]);
      var first, rest := AnswerOf(run[0], calls), Answers(run[1..], calls);
      if first.None? || rest.None? then None else Some([first.value] + rest.value)
  }

  // ----- One run

  /** Before the first answer to the same or a later call. */
  function Insert(a: Answer, run: seq<Answer>): (r: seq<Answer>)
    ensures |r| == |run| + 1
  {
    if |run| == 0 || a.position <= run[0].position then [a] + run else [run[0]] + Insert(a, run[1..])
  }

  /** Sorted by (position, offset). */
  function Sort(run: seq<Answer>): (r: seq<Answer>)
    ensures |r| == |run|
  {
    if |run| == 0 then [] else Insert(run[0], Sort(run[1..]))
  }

  /** The name of the answered call replaces the message's `tool`, and its `name` if it has one. */
  function Written(a: Answer): Message
    requires a.message.Message?
  {
    if !a.name.Is? then a.message
    else a.message.(tool := a.name, name := if a.message.name.Absent? then Absent else a.name)
  }

  predicate AreTool(run: seq<Answer>) {
    forall i | 0 <= i < |run| :: IsTool(run[i].message)
  }

  function WriteAll(run: seq<Answer>): (r: seq<Message>)
    requires AreTool(run)
    ensures |r| == |run|
    ensures forall i | 0 <= i < |run| :: r[i] == Written(run[i])
  {
    if |run| == 0 then [] else [Written(run[0])] + WriteAll(run[1..])
  }

  lemma {:induction false} AnswersAt(run: seq<Message>, calls: seq<Call>, i: nat)
    requires AllTool(run)
    requires i < |run| && Answers(run, calls).Some?
    ensures AnswerOf(run[i], calls) == Some(Answers(run, calls).value[i])
    ensures Answers(run, calls).value[i].message == run[i]
  {
    if i > 0 {
      AnswersAt(run[1..], calls, i - 1);
    }
  }

  lemma AnswersAreTool(run: seq<Message>, calls: seq<Call>)
    requires AllTool(run)
    requires Answers(run, calls).Some?
    ensures AreTool(Answers(run, calls).value) && AreTool(Sort(Answers(run, calls).value))
  {
    forall i | 0 <= i < |run| ensures IsTool(Answers(run, calls).value[i].message) {
      AnswersAt(run, calls, i);
    }
    SortKeepsTool(Answers(run, calls).value);
  }

  lemma {:induction false} InsertKeepsTool(a: Answer, run: seq<Answer>)
    requires IsTool(a.message) && AreTool(run)
    ensures AreTool(Insert(a, run))
  {
    if |run| > 0 && a.position > run[0].position {
      InsertKeepsTool(a, run[1..]);
    }
  }

  lemma {:induction false} SortKeepsTool(run: seq<Answer>)
    requires AreTool(run)
    ensures AreTool(Sort(run))
  {
    if |run| > 0 {
      SortKeepsTool(run[1..]);
      InsertKeepsTool(run[0], Sort(run[1..]));
    }
  }

  function Resolve(run: seq<Message>, calls: seq<Call>): (r: seq<Message>)
    requires AllTool(run)
    ensures |r| == |run|
  {
    match Answers(run, calls)
    case None => run
    case Some(answers) =>
      AnswersAreTool(run, calls);
      WriteAll(Sort(answers))
  }

  // ----- The conversation

  /** How many of the next messages are tool messages. */
  function RunLength(ms: seq<Message>): (r: nat)
    ensures r <= |ms|
  {
    if |ms| == 0 || !IsTool(ms[0]) then 0 else 1 + RunLength(ms[1..])
  }

  /** The run is maximal. */
  lemma {:induction false} RunIsTool(ms: seq<Message>)
    ensures var r := RunLength(ms); AllTool(ms[..r]) && (r < |ms| ==> !IsTool(ms[r]))
  {
    if |ms| > 0 && IsTool(ms[0]) {
      RunIsTool(ms[1..]);
      var r := RunLength(ms[1..]);
      assert forall i | 1 <= i < r + 1 :: ms[i] == ms[1..][..r][i - 1];
    }
  }

  /** `calls` are those of the last assistant message. */
  function Normalize(ms: seq<Message>, calls: seq<Call>): (r: seq<Message>)
    ensures |r| == |ms|
    decreases |ms|
  {
    if |ms| == 0 then []
    else if IsAssistant(ms[0]) then [ms[0]] + Normalize(ms[1..], ms[0].toolCalls)
    else if !IsTool(ms[0]) then [ms[0]] + Normalize(ms[1..], calls)
    else
      var k := RunLength(ms);
      RunIsTool(ms);
      Resolve(ms[..k], calls) + Normalize(ms[k..], calls)
  }

  // ----- The loops

  /** The first position, counted from 1, and the name for every id. */
  ghost predicate IsIndex(index: map<string, (nat, Field)>, calls: seq<Call>) {
    forall id :: (id in index <==> Lookup(calls, id, 0).Some?)
              && (id in index ==>
                    index[id] == (Lookup(calls, id, 0).value + 1, calls[Lookup(calls, id, 0).value].Fn().name))
  }

  lemma {:induction false} LookupPrefix(calls: seq<Call>, id: string, k: nat, i: nat)
    requires i <= k < |calls|
    ensures Lookup(calls[..k + 1], id, i) ==
            if Lookup(calls[..k], id, i).Some? then Lookup(calls[..k], id, i)
            else if calls[k].id == Is(id) then Some(k) else None
    decreases k - i
  {
    if i < k && calls[i].id != Is(id) {
      LookupPrefix(calls, id, k, i + 1);
    }
  }

  method ToolCallIdIndex(calls: seq<Call>) returns (index: map<string, (nat, Field)>)
    ensures IsIndex(index, calls)
  {
    index := map[];
    for k := 0 to |calls|
      invariant IsIndex(index, calls[..k])
    {
      ghost var before := index;
      var call := calls[k];
      if call.id.Is? && call.id.text !in index {
        index := index[call.id.text := (k + 1, call.Fn().name)];
      }
      forall id
        ensures id in index <==> Lookup(calls[..k + 1], id, 0).Some?
        ensures id in index ==> index[id] == (Lookup(calls[..k + 1], id, 0).value + 1,
                                              calls[..k + 1][Lookup(calls[..k + 1], id, 0).value].Fn().name)
      {
        LookupPrefix(calls, id, k, 0);
      }
    }
    assert calls[..|calls|] == calls;
  }

  method FindAnswer(m: Message, index: map<string, (nat, Field)>, ghost calls: seq<Call>)
    returns (answer: Option<Answer>)
    requires m.Message? && IsIndex(index, calls)
    ensures answer == AnswerOf(m, calls)
  {
    var callId := CallId(m);
    if callId.Is? && callId.text in index {
      var matched := index[callId.text];
      answer := Some(Answer(matched.0, m, matched.1));
    } else {
      answer := None;
    }
  }

  lemma {:induction false} AnswersSnoc(run: seq<Message>, m: Message, calls: seq<Call>)
    requires AllTool(run) && IsTool(m)
    ensures var a := AnswerOf(m, calls);
            Answers(run + [m], calls) ==
            if Answers(run, calls).None? || a.None? then None else Some(Answers(run, calls).value + [a.value])
  {
    if |run| == 0 {
      assert run + [m] == [m];
      assert Answers([m][1..], calls) == Some([]);
      assert AnswerOf(m, calls).Some? ==> var a := [AnswerOf(m, calls).value]; a + [] == a == [] + a;
    } else {
      AnswersSnoc(run[1..], m, calls);
      assert (run + [m])[0] == run[0] && (run + [m])[1..] == run[1..] + [m];
      if Answers(run, calls).Some? && AnswerOf(m, calls).Some? {
        var first, rest := AnswerOf(run[0], calls).value, Answers(run[1..], calls).value;
        assert [first] + (rest + [AnswerOf(m, calls).value]) == [first] + rest + [AnswerOf(m, calls).value];
      }
    }
  }

  lemma RunStep(ms: seq<Message>, i: nat)
    requires i < |ms| && IsTool(ms[i])
    ensures RunLength(ms[i..]) == 1 + RunLength(ms[i + 1..])
  {
    assert ms[i..][1..] == ms[i + 1..];
  }

  /** Collect one run; its answers are complete unless a message is unresolved. */
  method CollectRun(messages: seq<Message>, start: nat, index: map<string, (nat, Field)>, ghost calls: seq<Call>)
    returns (i: nat, run: seq<Answer>, unresolved: bool)
    requires start <= |messages| && IsIndex(index, calls)
    ensures i == start + RunLength(messages[start..]) && start <= i <= |messages| && AllTool(messages[start..i])
    ensures Answers(messages[start..i], calls) == if unresolved then None else Some(run)
  {
    i := start;
    run := [];
    unresolved := false;
    ghost var taken: seq<Message> := [];
    while i < |messages| && IsTool(messages[i])
      invariant start <= i <= |messages| && taken == messages[start..i] && AllTool(taken)
      invariant i - start + RunLength(messages[i..]) == RunLength(messages[start..])
      invariant Answers(taken, calls) == if unresolved then None else Some(run)
    {
      var answer := FindAnswer(messages[i], index, calls);
      AnswersSnoc(taken, messages[i], calls);
      RunStep(messages, i);
      if answer.None? {
        unresolved := true;
      } else {
        run := run + [answer.value];
      }
      taken := taken + [messages[i]];
      i := i + 1;
    }
  }

  /** The written answers, in order. */
  method WriteRun(run: seq<Answer>) returns (output: seq<Message>)
    requires AreTool(run)
    ensures output == WriteAll(run)
  {
    output := [];
    for k := 0 to |run|
      invariant |output| == k && forall i | 0 <= i < k :: output[i] == Written(run[i])
    {
      output := output + [Written(run[k])];
    }
  }

  /** One run: sorted and written, or as it is when a message is unresolved. */
  method ResolveRun(messages: seq<Message>, start: nat, index: map<string, (nat, Field)>, ghost calls: seq<Call>)
    returns (i: nat, output: seq<Message>)
    requires start <= |messages| && IsIndex(index, calls)
    ensures i == start + RunLength(messages[start..]) && start <= i <= |messages| && AllTool(messages[start..i])
    ensures output == Resolve(messages[start..i], calls)
  {
    var run, unresolved;
    i, run, unresolved := CollectRun(messages, start, index, calls);
    if unresolved {
      output := messages[start..i];
    } else {
      AnswersAreTool(messages[start..i], calls);
      output := WriteRun(Sort(run));
    }
  }

  lemma OtherStep(ms: seq<Message>, i: nat, calls: seq<Call>)
    requires i < |ms| && !IsTool(ms[i])
    ensures Normalize(ms[i..], calls)
            == [ms[i]] + Normalize(ms[i + 1..], if IsAssistant(ms[i]) then ms[i].toolCalls else calls)
  {
    assert ms[i..][1..] == ms[i + 1..];
  }

  lemma ToolStep(ms: seq<Message>, i: nat, j: nat, calls: seq<Call>)
    requires i < |ms| && IsTool(ms[i]) && j == i + RunLength(ms[i..]) && i <= j <= |ms| && AllTool(ms[i..j])
    ensures Normalize(ms[i..], calls) == Resolve(ms[i..j], calls) + Normalize(ms[j..], calls)
  {
    assert ms[i..][..j - i] == ms[i..j] && ms[i..][j - i..] == ms[j..];
  }

  lemma Regroup(a: seq<Message>, b: seq<Message>, c: seq<Message>)
    ensures a + (b + c) == a + b + c
  {
  }

  method NormalizeToolResults(messages: seq<Message>) returns (output: seq<Message>)
    ensures output == Normalize(messages, [])
  {
    output := [];
    var index: map<string, (nat, Field)> := map[];
    ghost var calls: seq<Call> := [];
    var i := 0;
    while i < |messages|
      invariant i <= |messages| && IsIndex(index, calls)
      invariant output + Normalize(messages[i..], calls) == Normalize(messages, [])
    {
      var message := messages[i];
      var added;
      if IsTool(message) {
        ghost var start := i;
        i, added := ResolveRun(messages, i, index, calls);
        ToolStep(messages, start, i, calls);
      } else {
        OtherStep(messages, i, calls);
        if IsAssistant(message) {
          index := ToolCallIdIndex(message.toolCalls);
          calls := message.toolCalls;
        }
        added, i := [message], i + 1;
      }
      Regroup(output, added, Normalize(messages[i..], calls));
      output := output + added;
    }
  }
}
