/** How sorted tool results are rendered: result k of a complete run carries index k and the name of call k. */
module XtmlToolOrder {
  import opened Prelude
  import opened Strings
  import opened XtmlMessages
  import opened XtmlToolResults
  import opened XtmlToolResultTheorems
  import opened XtmlEncoder
  import opened XtmlParsing
  import opened XtmlForest

  // ----- Conversations in parts

  function CallsAfter(ms: seq<Message>, calls: seq<Call>): seq<Call> {
    if |ms| == 0 then calls else CallsAfter(ms[1..], NextCalls(ms[0], calls))
  }

  function IndexAfter(ms: seq<Message>, toolIndex: nat): nat {
    if |ms| == 0 then toolIndex else IndexAfter(ms[1..], NextToolIndex(ms[0], toolIndex))
  }

  lemma {:induction false} NodesConcat(a: seq<Message>, b: seq<Message>, calls: seq<Call>, toolIndex: nat,
                                       thinking: bool, split: bool)
    ensures MessagesNodes(a + b, calls, toolIndex, thinking, split)
            == MessagesNodes(a, calls, toolIndex, thinking, split)
               + MessagesNodes(b, CallsAfter(a, calls), IndexAfter(a, toolIndex), thinking, split)
  {
    if |a| == 0 {
      assert a + b == b;
    } else {
      assert (a + b)[0] == a[0] && (a + b)[1..] == a[1..] + b;
      NodesConcat(a[1..], b, NextCalls(a[0], calls), NextToolIndex(a[0], toolIndex), thinking, split);
      var calls', index' := NextCalls(a[0], calls), NextToolIndex(a[0], toolIndex);
      NodesRegroup(MessageNodes(a[0], calls, toolIndex, thinking, split),
                   MessagesNodes(a[1..], calls', index', thinking, split),
                   MessagesNodes(b, CallsAfter(a, calls), IndexAfter(a, toolIndex), thinking, split));
    }
  }

  lemma NodesRegroup(a: seq<Node>, b: seq<Node>, c: seq<Node>)
    ensures a + (b + c) == a + b + c
  {
  }

  lemma RunBefore(a: seq<Message>, b: seq<Message>)
    requires |a| > 0 && IsTool(a[0]) && |b| > 0 && IsAssistant(b[0])
    ensures var k := RunLength(a);
            0 < k <= |a| && RunLength(a + b) == k && AllTool(a[..k])
            && (a + b)[..k] == a[..k] && (a + b)[k..] == a[k..] + b && (a + b)[0] == a[0]
  {
    var k := RunLength(a);
    RunIsTool(a);
    assert a + b == a[..k] + (a[k..] + b);
    RunOf(a[..k], a[k..] + b);
  }

  /** Sorting the results before an assistant message does not look beyond it. */
  lemma {:induction false} NormalizeConcat(a: seq<Message>, b: seq<Message>, calls: seq<Call>)
    requires |b| > 0 && IsAssistant(b[0])
    ensures Normalize(a + b, calls) == Normalize(a, calls) + ([b[0]] + Normalize(b[1..], b[0].toolCalls))
    decreases |a|
  {
    var tail := [b[0]] + Normalize(b[1..], b[0].toolCalls);
    if |a| == 0 {
      assert a + b == b;
    } else if !IsTool(a[0]) {
      assert (a + b)[0] == a[0] && (a + b)[1..] == a[1..] + b;
      var next := if IsAssistant(a[0]) then a[0].toolCalls else calls;
      NormalizeConcat(a[1..], b, next);
      Regroup([a[0]], Normalize(a[1..], next), tail);
    } else {
      var k := RunLength(a);
      RunBefore(a, b);
      NormalizeConcat(a[k..], b, calls);
      Regroup(Resolve(a[..k], calls), Normalize(a[k..], calls), tail);
    }
  }

  // ----- A run of results

  /** The nodes of results answering the calls in order, from call `k` on. */
  function ResultNodes(run: seq<Message>, calls: seq<Call>, k: nat, split: bool): seq<Node>
    requires AllTool(run) && k + |run| == |calls| && NamedCalls(calls)
    decreases |run|
  {
    if |run| == 0 then []
    else
      assert IsTool(run[0]) && calls[k].Fn().name.Is?;
      Enclosed(ToolAttrs(calls[k].Fn().name.text, k + 1), ContentNodes(run[0].content, split))
        + ResultNodes(run[1..], calls, k + 1, split)
  }

  predicate NamedCalls(calls: seq<Call>) {
    forall k | 0 <= k < |calls| :: calls[k].Fn().name.Is?
  }

  /** Every result is named after the call at its place. */
  predicate NamedInOrder(run: seq<Message>, calls: seq<Call>, k: nat)
    requires AllTool(run) && k + |run| == |calls|
  {
    forall i | 0 <= i < |run| :: IsTool(run[i]) && run[i].tool == calls[k + i].Fn().name
  }

  lemma {:induction false} ResultsInOrder(run: seq<Message>, calls: seq<Call>, k: nat, thinking: bool, split: bool)
    requires AllTool(run) && k + |run| == |calls| && NamedCalls(calls) && NamedInOrder(run, calls, k)
    ensures MessagesNodes(run, calls, k, thinking, split) == ResultNodes(run, calls, k, split)
    decreases |run|
  {
    if |run| > 0 {
      assert IsTool(run[0]) && run[0].tool == calls[k + 0].Fn().name && calls[k].Fn().name.Is?;
      forall i | 0 <= i < |run[1..]| ensures IsTool(run[1..][i]) && run[1..][i].tool == calls[k + 1 + i].Fn().name {
        assert run[1..][i] == run[i + 1] && run[i + 1].tool == calls[k + (i + 1)].Fn().name;
      }
      ResultsInOrder(run[1..], calls, k + 1, thinking, split);
    }
  }

  lemma {:induction false} StateAfterResults(run: seq<Message>, calls: seq<Call>, k: nat)
    requires AllTool(run)
    ensures CallsAfter(run, calls) == calls && IndexAfter(run, k) == k + |run|
    decreases |run|
  {
    if |run| > 0 {
      assert IsTool(run[0]);
      StateAfterResults(run[1..], calls, k + 1);
    }
  }

  /** In any conversation: where a complete run of results follows an assistant message directly, in
      whatever order, they are rendered in call order, result k with index k and the name of call k. */
  lemma ResultsAreRenderedInCallOrder(before: seq<Message>, m: Message, run: seq<Message>, after: seq<Message>,
                                      thinking: bool, split: bool)
    requires IsAssistant(m) && AllTool(run) && |run| > 0 && (|after| > 0 ==> !IsTool(after[0]))
    requires Complete(run, m.toolCalls) && NamedCalls(m.toolCalls)
    ensures |Resolve(run, m.toolCalls)| == |m.toolCalls| && AllTool(Resolve(run, m.toolCalls))
    ensures
      var calls := m.toolCalls;
      var earlier := Normalize(before, []);
      MessagesNodes(Normalize(before + ([m] + (run + after)), []), [], 0, thinking, split)
      == MessagesNodes(earlier, [], 0, thinking, split)
         + (MessageNodes(m, CallsAfter(earlier, []), IndexAfter(earlier, 0), thinking, split)
         + (ResultNodes(Resolve(run, calls), calls, 0, split)
         + MessagesNodes(Normalize(after, calls), calls, |calls|, thinking, split)))
  {
    var calls := m.toolCalls;
    Sorted(run, calls);
    NormalizedAround(before, m, run, after);
    NodesAround(Normalize(before, []), m, Resolve(run, calls), Normalize(after, calls), thinking, split);
  }

  lemma NormalizedAround(before: seq<Message>, m: Message, run: seq<Message>, after: seq<Message>)
    requires IsAssistant(m) && AllTool(run) && |run| > 0 && (|after| > 0 ==> !IsTool(after[0]))
    ensures Normalize(before + ([m] + (run + after)), [])
            == Normalize(before, []) + ([m] + (Resolve(run, m.toolCalls) + Normalize(after, m.toolCalls)))
  {
    NormalizeConcat(before, [m] + (run + after), []);
    assert ([m] + (run + after))[1..] == run + after;
    RunThen(run, after, m.toolCalls);
  }

  lemma NodesAround(before: seq<Message>, m: Message, run: seq<Message>, after: seq<Message>,
                    thinking: bool, split: bool)
    requires IsAssistant(m) && AllTool(run) && |run| == |m.toolCalls|
    requires NamedCalls(m.toolCalls) && NamedInOrder(run, m.toolCalls, 0)
    ensures
      var calls := m.toolCalls;
      MessagesNodes(before + ([m] + (run + after)), [], 0, thinking, split)
      == MessagesNodes(before, [], 0, thinking, split)
         + (MessageNodes(m, CallsAfter(before, []), IndexAfter(before, 0), thinking, split)
         + (ResultNodes(run, calls, 0, split) + MessagesNodes(after, calls, |calls|, thinking, split)))
  {
    var calls := m.toolCalls;
    NodesConcat(before, [m] + (run + after), [], 0, thinking, split);
    AssistantThen(m, run + after, CallsAfter(before, []), IndexAfter(before, 0), thinking, split);
    NodesConcat(run, after, calls, 0, thinking, split);
    ResultsInOrder(run, calls, 0, thinking, split);
    StateAfterResults(run, calls, 0);
  }

  lemma AssistantThen(m: Message, rest: seq<Message>, calls: seq<Call>, toolIndex: nat, thinking: bool, split: bool)
    requires IsAssistant(m)
    ensures MessagesNodes([m] + rest, calls, toolIndex, thinking, split)
            == MessageNodes(m, calls, toolIndex, thinking, split) + MessagesNodes(rest, m.toolCalls, 0, thinking, split)
  {
    assert ([m] + rest)[1..] == rest;
  }

  lemma RunThen(run: seq<Message>, after: seq<Message>, calls: seq<Call>)
    requires AllTool(run) && |run| > 0 && (|after| > 0 ==> !IsTool(after[0]))
    ensures Normalize(run + after, calls) == Resolve(run, calls) + Normalize(after, calls)
  {
    RunOf(run, after);
    assert IsTool(run[0]) && (run + after)[..|run|] == run && (run + after)[|run|..] == after;
  }

  lemma Sorted(run: seq<Message>, calls: seq<Call>)
    requires AllTool(run) && Complete(run, calls) && NamedCalls(calls) && |run| > 0
    ensures |Resolve(run, calls)| == |calls| && AllTool(Resolve(run, calls))
    ensures NamedInOrder(Resolve(run, calls), calls, 0)
  {
    ResolveAgain(run, calls);
    AnswersAt(run, calls, 0);
    CompleteRunIsInCallOrder(run, calls, 0);
    forall i | 0 <= i < |calls|
      ensures IsTool(Resolve(run, calls)[i]) && Resolve(run, calls)[i].tool == calls[0 + i].Fn().name
    {
      assert calls[i].Fn().name.Is?;
      CompleteRunIsInCallOrder(run, calls, i);
    }
  }
}
