/** What the sorting of tool results keeps and what it achieves. */
module XtmlToolResultTheorems {
  import opened Prelude
  import opened XtmlMessages
  import opened XtmlToolResults

  // ----- A stable sort

  predicate Sorted(run: seq<Answer>) {
    forall i, j | 0 <= i < j < |run| :: run[i].position <= run[j].position
  }

  /** The answers to one call, in order. */
  function At(run: seq<Answer>, position: nat): seq<Answer> {
    if |run| == 0 then []
    else (if run[0].position == position then [run[0]] else []) + At(run[1..], position)
  }

  lemma {:induction false} InsertSorts(a: Answer, run: seq<Answer>)
    requires Sorted(run)
    ensures Sorted(Insert(a, run))
    ensures |run| > 0 ==>
              Insert(a, run)[0].position == if a.position <= run[0].position then a.position else run[0].position
    ensures |run| == 0 ==> Insert(a, run)[0].position == a.position
  {
    if |run| > 0 && a.position > run[0].position {
      InsertSorts(a, run[1..]);
      var rest := Insert(a, run[1..]);
      assert forall j | 0 <= j < |rest| :: rest[0].position <= rest[j].position;
    }
  }

  lemma {:induction false} InsertAt(a: Answer, run: seq<Answer>, position: nat)
    ensures At(Insert(a, run), position) == (if a.position == position then [a] else []) + At(run, position)
  {
    if |run| > 0 && a.position > run[0].position {
      InsertAt(a, run[1..], position);
    }
  }

  /** The run is sorted by position, and the answers to one call keep their order. */
  lemma {:induction false} SortIsStable(run: seq<Answer>, position: nat)
    ensures Sorted(Sort(run)) && At(Sort(run), position) == At(run, position)
  {
    if |run| > 0 {
      SortIsStable(run[1..], position);
      InsertSorts(run[0], Sort(run[1..]));
      InsertAt(run[0], Sort(run[1..]), position);
    }
  }

  lemma {:induction false} InsertAdds(a: Answer, run: seq<Answer>)
    ensures multiset(Insert(a, run)) == multiset{a} + multiset(run)
  {
    if |run| > 0 && a.position > run[0].position {
      InsertAdds(a, run[1..]);
      assert run == [run[0]] + run[1..];
    }
  }

  /** Nothing is lost or added. */
  lemma {:induction false} SortPermutes(run: seq<Answer>)
    ensures multiset(Sort(run)) == multiset(run)
  {
    if |run| > 0 {
      SortPermutes(run[1..]);
      InsertAdds(run[0], Sort(run[1..]));
      assert run == [run[0]] + run[1..];
    }
  }

  lemma {:induction false} SortOfSorted(run: seq<Answer>)
    requires Sorted(run)
    ensures Sort(run) == run
  {
    if |run| > 0 {
      SortOfSorted(run[1..]);
      assert |run| > 1 ==> run[0].position <= run[1].position;
      assert run == [run[0]] + run[1..];
    }
  }

  // ----- Once more

  /** Every answer is that of its own message. */
  predicate Own(run: seq<Answer>, calls: seq<Call>) {
    forall i | 0 <= i < |run| :: IsTool(run[i].message) && AnswerOf(run[i].message, calls) == Some(run[i])
  }

  lemma AnswersAreOwn(run: seq<Message>, calls: seq<Call>)
    requires AllTool(run) && Answers(run, calls).Some?
    ensures Own(Answers(run, calls).value, calls) && Own(Sort(Answers(run, calls).value), calls)
  {
    forall i | 0 <= i < |run|
      ensures IsTool(run[i]) && Answers(run, calls).value[i].message == run[i]
      ensures AnswerOf(run[i], calls) == Some(Answers(run, calls).value[i])
    {
      AnswersAt(run, calls, i);
    }
    SortKeepsOwn(Answers(run, calls).value, calls);
  }

  lemma {:induction false} InsertKeepsOwn(a: Answer, run: seq<Answer>, calls: seq<Call>)
    requires Own([a], calls) && Own(run, calls)
    ensures Own(Insert(a, run), calls)
  {
    assert Own([a], calls) ==> IsTool([a][0].message) && AnswerOf([a][0].message, calls) == Some(a);
    if |run| > 0 && a.position > run[0].position {
      InsertKeepsOwn(a, run[1..], calls);
    }
  }

  lemma {:induction false} SortKeepsOwn(run: seq<Answer>, calls: seq<Call>)
    requires Own(run, calls)
    ensures Own(Sort(run), calls)
  {
    if |run| > 0 {
      SortKeepsOwn(run[1..], calls);
      InsertKeepsOwn(run[0], Sort(run[1..]), calls);
    }
  }

  /** The same answer, of the written message. */
  function Rewritten(run: seq<Answer>): (r: seq<Answer>)
    requires AreTool(run)
    ensures |r| == |run| && forall i | 0 <= i < |run| :: r[i] == run[i].(message := Written(run[i]))
  {
    if |run| == 0 then [] else [run[0].(message := Written(run[0]))] + Rewritten(run[1..])
  }

  /** The written messages match the same calls. */
  lemma {:induction false} WrittenAnswers(run: seq<Answer>, calls: seq<Call>)
    requires Own(run, calls)
    ensures AreTool(run) && AllTool(WriteAll(run))
    ensures Answers(WriteAll(run), calls) == Some(Rewritten(run))
  {
    if |run| > 0 {
      WrittenAnswers(run[1..], calls);
      assert AnswerOf(Written(run[0]), calls) == Some(run[0].(message := Written(run[0])));
      assert WriteAll(run)[1..] == WriteAll(run[1..]);
    }
  }

  lemma ResolveAgain(run: seq<Message>, calls: seq<Call>)
    requires AllTool(run)
    ensures AllTool(Resolve(run, calls))
    ensures Resolve(Resolve(run, calls), calls) == Resolve(run, calls)
  {
    if Answers(run, calls).Some? {
      var sorted := Sort(Answers(run, calls).value);
      AnswersAreOwn(run, calls);
      WrittenAnswers(sorted, calls);
      SortIsStable(Answers(run, calls).value, 0);
      SortOfSorted(Rewritten(sorted));
      assert AreTool(Rewritten(sorted));
      assert WriteAll(Rewritten(sorted)) == WriteAll(sorted);
    }
  }

  lemma {:induction false} RunOf(a: seq<Message>, b: seq<Message>)
    requires AllTool(a) && (|b| > 0 ==> !IsTool(b[0]))
    ensures RunLength(a + b) == |a|
  {
    if |a| == 0 {
      assert a + b == b;
    } else {
      assert IsTool(a[0]) && (a + b)[1..] == a[1..] + b;
      RunOf(a[1..], b);
    }
  }

  /** Messages other than tool messages stay where they are. */
  lemma {:induction false} OthersStay(ms: seq<Message>, calls: seq<Call>, i: nat)
    requires i < |ms|
    ensures IsTool(Normalize(ms, calls)[i]) <==> IsTool(ms[i])
    ensures !IsTool(ms[i]) ==> Normalize(ms, calls)[i] == ms[i]
    decreases |ms|
  {
    if !IsTool(ms[0]) {
      if i > 0 {
        OthersStay(ms[1..], if IsAssistant(ms[0]) then ms[0].toolCalls else calls, i - 1);
      }
    } else {
      var k := RunLength(ms);
      RunIsTool(ms);
      ResolveAgain(ms[..k], calls);
      if i < k {
        assert ms[i] == ms[..k][i] && Normalize(ms, calls)[i] == Resolve(ms[..k], calls)[i];
      } else {
        OthersStay(ms[k..], calls, i - k);
      }
    }
  }

  /** Normalising twice is normalising once. */
  lemma {:induction false} NormalizeTwice(ms: seq<Message>, calls: seq<Call>)
    ensures Normalize(Normalize(ms, calls), calls) == Normalize(ms, calls)
    decreases |ms|
  {
    if |ms| > 0 {
      var once := Normalize(ms, calls);
      if !IsTool(ms[0]) {
        var next := if IsAssistant(ms[0]) then ms[0].toolCalls else calls;
        NormalizeTwice(ms[1..], next);
        assert once[0] == ms[0] && once[1..] == Normalize(ms[1..], next);
      } else {
        var k := RunLength(ms);
        RunIsTool(ms);
        var resolved, rest := Resolve(ms[..k], calls), Normalize(ms[k..], calls);
        ResolveAgain(ms[..k], calls);
        NormalizeTwice(ms[k..], calls);
        if k < |ms| {
          OthersStay(ms[k..], calls, 0);
        }
        RunOf(resolved, rest);
        assert once[0] == resolved[0] && IsTool(resolved[0]);
        assert once[..k] == resolved && once[k..] == rest;
      }
    }
  }

  // ----- A complete run

  lemma {:induction false} AtMember(run: seq<Answer>, i: nat)
    requires i < |run|
    ensures |At(run, run[i].position)| > 0
  {
    if i > 0 {
      AtMember(run[1..], i - 1);
    }
  }

  lemma {:induction false} AtNotEmpty(run: seq<Answer>, position: nat) returns (i: nat)
    requires |At(run, position)| > 0
    ensures i < |run| && run[i].position == position
  {
    if run[0].position == position {
      i := 0;
    } else {
      i := AtNotEmpty(run[1..], position);
      i := i + 1;
    }
  }

  /** Sorted answers to each of the calls `low` to `high`, one each, are in call order. */
  lemma {:induction false} OneEach(run: seq<Answer>, low: nat, high: nat)
    requires low <= high + 1 && Sorted(run)
    requires forall i | 0 <= i < |run| :: low <= run[i].position <= high
    requires forall p | low <= p <= high :: |At(run, p)| == 1
    ensures |run| == high + 1 - low
    ensures forall i | 0 <= i < |run| :: run[i].position == low + i
    decreases high + 1 - low
  {
    if |run| > 0 {
      assert low <= run[0].position <= high;
    }
    if low <= high {
      var i := AtNotEmpty(run, low);
      assert run[0].position <= run[i].position == low;
      assert |At(run, low)| == 1 + |At(run[1..], low)|;
      forall j | 0 <= j < |run[1..]| ensures low + 1 <= run[1..][j].position <= high {
        assert run[1..][j] == run[j + 1];
        AtMember(run[1..], j);
      }
      forall p | low + 1 <= p <= high ensures |At(run[1..], p)| == 1 {
        assert At(run, p) == [] + At(run[1..], p) && |At(run, p)| == 1;
      }
      OneEach(run[1..], low + 1, high);
      assert forall j | 1 <= j < |run| :: run[j] == run[1..][j - 1];
    }
  }

  /** Every call is answered by exactly one message of the run, and every message answers a call. */
  predicate Complete(run: seq<Message>, calls: seq<Call>)
    requires AllTool(run)
  {
    && Answers(run, calls).Some?
    && forall p | 1 <= p <= |calls| :: |At(Answers(run, calls).value, p)| == 1
  }

  /** A complete run comes out in call order, and message k carries the name of call k. */
  lemma CompleteRunIsInCallOrder(run: seq<Message>, calls: seq<Call>, k: nat)
    requires AllTool(run) && Complete(run, calls) && k < |calls|
    ensures |run| == |calls| == |Resolve(run, calls)|
    ensures var m := Resolve(run, calls)[k];
            && IsTool(m) && CallId(m) == calls[k].id
            && (calls[k].Fn().name.Is? ==> m.tool == calls[k].Fn().name && (m.name.Absent? || m.name == m.tool))
  {
    var answers := Answers(run, calls).value;
    var sorted := Sort(answers);
    AnswersAreOwn(run, calls);
    AnswersAreTool(run, calls);
    forall i | 0 <= i < |sorted| ensures 1 <= sorted[i].position <= |calls| {
      assert AnswerOf(sorted[i].message, calls) == Some(sorted[i]);
    }
    forall p | 1 <= p <= |calls| ensures |At(sorted, p)| == 1 {
      SortIsStable(answers, p);
      assert |At(answers, p)| == 1;
    }
    SortIsStable(answers, 0);
    OneEach(sorted, 1, |calls|);
    assert AnswerOf(sorted[k].message, calls) == Some(sorted[k]) && sorted[k].position == 1 + k;
    assert Resolve(run, calls)[k] == Written(sorted[k]);
  }
}
