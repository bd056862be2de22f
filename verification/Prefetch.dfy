/** Iterating over the cache with the next batch fetched by a background thread, in every
    interleaving of the generator, the thread and the consumer. */
module Prefetch {
  import opened Prelude
  import opened CacheValues
  import opened Cache

  /** A submitted fetch whose result has not been collected. */
  datatype Task =
    | Running(index: nat, read: nat, got: Dict<Seen>)
    | Finished(index: nat, data: Dict<Seen>)

  /** `queue` holds the submitted fetches; `resumed` says that the consumer has asked for the next batch. */
  datatype State = State(
    batches: seq<Batch>,
    heap: Heap,
    queue: seq<Task>,
    resumed: bool,
    yielded: seq<Dict<Seen>>)

  predicate BatchesIn(batches: seq<Batch>, heap: Heap) {
    forall i | 0 <= i < |batches| :: BatchIn(batches[i], heap)
  }

  predicate Proper(s: State) { BatchesIn(s.batches, s.heap) }

  function Init(batches: seq<Batch>, heap: Heap): State {
    State(batches, heap, [], false, [])
  }

  // ----- Steps

  /** Between two batches the consumer may change those up to the one it received last. */
  ghost predicate ConsumerStep(s: State, s': State) {
    && !s.resumed
    && s' == s.(batches := s'.batches, heap := s'.heap)
    && Proper(s') && s.heap.tensors <= s'.heap.tensors
    && |s'.batches| == |s.batches|
    && forall i | |s.yielded| <= i < |s.batches| :: s'.batches[i] == s.batches[i]
  }

  ghost predicate RequestStep(s: State, s': State) {
    !s.resumed && s' == s.(resumed := true)
  }

  /** The next fetch, submitted before the current batch is handed out. */
  function Submitted(index: nat, count: nat): seq<Task> {
    if index + 1 < count then [Running(index + 1, 0, Dict([], []))] else []
  }

  /** Hand out `current` as the next batch. */
  function Yield(s: State, queue: seq<Task>, current: Dict<Seen>): State {
    s.(queue := queue + Submitted(|s.yielded|, |s.batches|), resumed := false, yielded := s.yielded + [current])
  }

  /** The generator without a submitted fetch: it fetches the batch itself. */
  ghost predicate FetchStep(s: State, s': State, names: Names) {
    && Proper(s) && s.resumed && |s.yielded| < |s.batches| && s.queue == []
    && s' == Yield(s, [], FetchOf(s.batches[|s.yielded|], s.heap, names))
  }

  /** The generator waits for the submitted fetch. */
  ghost predicate CollectStep(s: State, s': State) {
    && s.resumed && |s.yielded| < |s.batches| && |s.queue| > 0 && s.queue[0].Finished?
    && s' == Yield(s, s.queue[1..], s.queue[0].data)
  }

  function Extended(got: Dict<Seen>, names: Names, key: string, item: Seen): Dict<Seen> {
    if Selected(names, key) then Dict(got.keys + [key], got.items + [item]) else got
  }

  /** The thread onloads one more entry of the batch, or is done with it. */
  ghost predicate ThreadStep(s: State, s': State, names: Names) {
    && Proper(s) && |s.queue| > 0 && s.queue[0].Running? && s.queue[0].index < |s.batches|
    && var task := s.queue[0];
       var batch := s.batches[task.index];
       if task.read < |batch.items| then
         assert BatchIn(batch, s.heap);
         OnloadAllAt(batch.items, s.heap, task.read);
         var item := Onload(batch.items[task.read], s.heap);
         var got := Extended(task.got, names, batch.keys[task.read], item);
         s' == s.(queue := [Running(task.index, task.read + 1, got)] + s.queue[1..])
       else s' == s.(queue := [Finished(task.index, task.got)] + s.queue[1..])
  }

  ghost predicate Step(s: State, s': State, names: Names) {
    || ConsumerStep(s, s')
    || RequestStep(s, s')
    || FetchStep(s, s', names)
    || CollectStep(s, s')
    || ThreadStep(s, s', names)
  }

  ghost predicate IsRun(run: seq<State>, names: Names) {
    |run| > 0 && forall k | 0 <= k < |run| - 1 :: Step(run[k], run[k + 1], names)
  }

  // ----- The invariant

  /** The batch as it was at the start is what every fetch sees. */
  ghost predicate Unchanged(s: State, s0: State) {
    && Proper(s0) && Proper(s)
    && |s.batches| == |s0.batches|
    && s0.heap.tensors <= s.heap.tensors
    && |s.yielded| <= |s.batches|
    && forall i | |s.yielded| <= i < |s.batches| :: s.batches[i] == s0.batches[i]
  }

  ghost predicate YieldsInOrder(s: State, s0: State, names: Names)
    requires Proper(s0)
  {
    |s.yielded| <= |s0.batches|
    && forall k | 0 <= k < |s.yielded| :: s.yielded[k] == FetchOf(s0.batches[k], s0.heap, names)
  }

  /** At most one fetch is in flight: that of the batch the consumer gets next. */
  ghost predicate OneInFlight(s: State, s0: State, names: Names)
    requires Proper(s0)
  {
    if 0 < |s.yielded| < |s0.batches| then
      |s.queue| == 1 && TaskOf(s.queue[0], s0.batches[|s.yielded|], |s.yielded|, s0.heap, names)
    else s.queue == []
  }

  ghost predicate TaskOf(task: Task, b: Batch, index: nat, heap: Heap, names: Names)
    requires BatchIn(b, heap)
  {
    match task
    case Running(i, read, got) =>
      i == index && read <= |b.items| && got == Select(Taken(OnloadBatch(b, heap), read), names)
    case Finished(i, data) => i == index && data == FetchOf(b, heap, names)
  }

  ghost predicate Inv(s: State, s0: State, names: Names) {
    Unchanged(s, s0) && YieldsInOrder(s, s0, names) && OneInFlight(s, s0, names)
  }

  lemma NewTask(b: Batch, index: nat, heap: Heap, names: Names)
    requires BatchIn(b, heap)
    ensures TaskOf(Running(index, 0, Dict([], [])), b, index, heap, names)
  {
    var none := Taken(OnloadBatch(b, heap), 0);
    assert none.keys == [] && none.items == [];
  }

  // ----- Every step keeps it

  lemma YieldKeeps(s: State, s': State, s0: State, names: Names, queue: seq<Task>, current: Dict<Seen>)
    requires Inv(s, s0, names) && |s.yielded| < |s.batches| && queue == []
    requires s' == Yield(s, queue, current) && current == FetchOf(s0.batches[|s.yielded|], s0.heap, names)
    ensures Inv(s', s0, names)
  {
    var k := |s.yielded|;
    if k + 1 < |s.batches| {
      NewTask(s0.batches[k + 1], k + 1, s0.heap, names);
      assert s'.queue == [Running(k + 1, 0, Dict([], []))];
    }
  }

  lemma FetchKeeps(s: State, s': State, s0: State, names: Names)
    requires Inv(s, s0, names) && FetchStep(s, s', names)
    ensures Inv(s', s0, names)
  {
    var k := |s.yielded|;
    assert s.batches[k] == s0.batches[k] && BatchIn(s0.batches[k], s0.heap);
    BatchStays(s0.batches[k], s0.heap, s.heap);
    YieldKeeps(s, s', s0, names, [], FetchOf(s.batches[k], s.heap, names));
  }

  lemma CollectKeeps(s: State, s': State, s0: State, names: Names)
    requires Inv(s, s0, names) && CollectStep(s, s')
    ensures Inv(s', s0, names)
  {
    YieldKeeps(s, s', s0, names, s.queue[1..], s.queue[0].data);
  }

  lemma ThreadKeeps(s: State, s': State, s0: State, names: Names)
    requires Inv(s, s0, names) && ThreadStep(s, s', names)
    ensures Inv(s', s0, names)
  {
    var task, k := s.queue[0], |s.yielded|;
    var b := s0.batches[k];
    assert s.batches[k] == b && BatchIn(b, s0.heap);
    BatchStays(b, s0.heap, s.heap);
    var seen := OnloadBatch(b, s0.heap);
    OnloadAllLength(b.items, s0.heap);
    if task.read < |b.items| {
      OnloadAllAt(b.items, s.heap, task.read);
      SelectOneMore(seen, names, task.read);
      assert s'.queue == [s'.queue[0]];
    } else {
      TakenAll(seen);
      assert s'.queue == [Finished(task.index, task.got)];
    }
  }

  lemma StepKeeps(s: State, s': State, s0: State, names: Names)
    requires Inv(s, s0, names) && Step(s, s', names)
    ensures Inv(s', s0, names)
  {
    if FetchStep(s, s', names) {
      FetchKeeps(s, s', s0, names);
    } else if CollectStep(s, s') {
      CollectKeeps(s, s', s0, names);
    } else if ThreadStep(s, s', names) {
      ThreadKeeps(s, s', s0, names);
    }
  }

  /** In every run the invariant holds at every point. */
  lemma {:induction false} RunKeeps(run: seq<State>, names: Names, k: nat)
    requires IsRun(run, names) && Proper(run[0]) && run[0] == Init(run[0].batches, run[0].heap) && k < |run|
    ensures Inv(run[k], run[0], names)
  {
    if k > 0 {
      RunKeeps(run, names, k - 1);
      StepKeeps(run[k - 1], run[k], run[0], names);
    }
  }

  /** Never more than one fetch in flight, and never more batches than there are. */
  lemma AtMostOneFetch(run: seq<State>, names: Names, k: nat)
    requires IsRun(run, names) && Proper(run[0]) && run[0] == Init(run[0].batches, run[0].heap) && k < |run|
    ensures |run[k].queue| <= 1 && |run[k].yielded| <= |run[0].batches|
  {
    RunKeeps(run, names, k);
  }

  // ----- The plain iterator

  /** Without prefetching the generator fetches each batch when it is asked for it. */
  ghost predicate PlainStep(s: State, s': State, names: Names) {
    || ConsumerStep(s, s')
    || RequestStep(s, s')
    || (Proper(s) && s.resumed && |s.yielded| < |s.batches|
        && s' == s.(resumed := false, yielded := s.yielded + [FetchOf(s.batches[|s.yielded|], s.heap, names)]))
  }

  ghost predicate IsPlainRun(run: seq<State>, names: Names) {
    |run| > 0 && forall k | 0 <= k < |run| - 1 :: PlainStep(run[k], run[k + 1], names)
  }

  lemma {:induction false} PlainRunKeeps(run: seq<State>, names: Names, k: nat)
    requires IsPlainRun(run, names) && Proper(run[0]) && run[0] == Init(run[0].batches, run[0].heap) && k < |run|
    ensures Unchanged(run[k], run[0]) && YieldsInOrder(run[k], run[0], names)
  {
    if k > 0 {
      PlainRunKeeps(run, names, k - 1);
      var s, s', s0 := run[k - 1], run[k], run[0];
      assert PlainStep(run[k - 1], run[k - 1 + 1], names);
      if s.resumed && |s.yielded| < |s.batches| {
        var b := s0.batches[|s.yielded|];
        assert s.batches[|s.yielded|] == b && BatchIn(b, s0.heap);
        BatchStays(b, s0.heap, s.heap);
      }
    }
  }

  /** Whatever the consumers do within their bounds, and however the thread is scheduled, prefetching
      yields the batches that plain iteration yields. */
  lemma PrefetchYieldsTheSame(run: seq<State>, plain: seq<State>, names: Names, k: nat, j: nat, i: nat)
    requires IsRun(run, names) && IsPlainRun(plain, names)
    requires run[0] == plain[0] == Init(run[0].batches, run[0].heap) && Proper(run[0])
    requires k < |run| && j < |plain| && i < |run[k].yielded| && i < |plain[j].yielded|
    ensures run[k].yielded[i] == plain[j].yielded[i]
  {
    RunKeeps(run, names, k);
    PlainRunKeeps(plain, names, j);
  }

  // ----- It gets there

  /** What the thread still has to do before the next batch can be handed out. */
  function Work(s: State): nat
    requires Proper(s)
  {
    if |s.queue| == 0 || s.queue[0].Finished? || s.queue[0].index >= |s.batches| then 0
    else
      var items := s.batches[s.queue[0].index].items;
      1 + (if s.queue[0].read <= |items| then |items| - s.queue[0].read else 0)
  }

  /** A generator that has been asked can go on until all batches are yielded. */
  lemma NeverStuck(s: State, s0: State, names: Names) returns (s': State)
    requires Inv(s, s0, names) && s.resumed && |s.yielded| < |s0.batches|
    ensures Step(s, s', names) && Inv(s', s0, names)
    ensures |s'.yielded| == |s.yielded| + 1 || (s'.yielded == s.yielded && s'.resumed && Work(s') < Work(s))
  {
    if |s.queue| == 0 {
      s' := Yield(s, [], FetchOf(s.batches[|s.yielded|], s.heap, names));
      assert FetchStep(s, s', names);
    } else if s.queue[0].Finished? {
      s' := Yield(s, s.queue[1..], s.queue[0].data);
      assert CollectStep(s, s');
    } else {
      var task := s.queue[0];
      var batch := s.batches[task.index];
      assert BatchIn(batch, s.heap);
      if task.read < |batch.items| {
        OnloadAllAt(batch.items, s.heap, task.read);
        var item := Onload(batch.items[task.read], s.heap);
        var got := Extended(task.got, names, batch.keys[task.read], item);
        s' := s.(queue := [Running(task.index, task.read + 1, got)] + s.queue[1..]);
      } else {
        s' := s.(queue := [Finished(task.index, task.got)] + s.queue[1..]);
      }
      assert ThreadStep(s, s', names);
    }
    StepKeeps(s, s', s0, names);
  }

  /** Every step after the consumer has asked hands out one more batch, or leaves what was handed out
      and the consumer waiting, with less work for the thread to do. */
  lemma EveryStepProgresses(s: State, s': State, s0: State, names: Names)
    requires Inv(s, s0, names) && s.resumed && Step(s, s', names)
    ensures Proper(s') && |s.yielded| < |s0.batches|
    ensures || (s'.yielded[..|s'.yielded| - 1] == s.yielded && |s'.yielded| == |s.yielded| + 1 && !s'.resumed)
            || (s'.yielded == s.yielded && s'.resumed && Work(s') < Work(s))
  {
    StepKeeps(s, s', s0, names);
  }

  /** Nothing can happen any more exactly when the consumer waits and all batches have been yielded. */
  lemma OverExactly(s: State, s0: State, names: Names)
    requires Inv(s, s0, names)
    ensures (forall s': State :: !Step(s, s', names)) <==> s.resumed && |s.yielded| == |s0.batches|
  {
    if !s.resumed {
      assert RequestStep(s, s.(resumed := true));
      assert Step(s, s.(resumed := true), names);
    } else if |s.yielded| < |s0.batches| {
      var s' := NeverStuck(s, s0, names);
    } else {
      forall s': State
        ensures !Step(s, s', names)
      {
        if Step(s, s', names) {
          EveryStepProgresses(s, s', s0, names);
        }
      }
    }
  }

  /** A run cannot go on exactly when it has yielded every batch and the consumer asks for another. */
  lemma StopsExactly(run: seq<State>, names: Names, k: nat)
    requires IsRun(run, names) && Proper(run[0]) && run[0] == Init(run[0].batches, run[0].heap) && k < |run|
    ensures (forall s': State :: !Step(run[k], s', names)) <==>
            run[k].resumed && |run[k].yielded| == |run[0].batches|
  {
    RunKeeps(run, names, k);
    OverExactly(run[k], run[0], names);
  }

  lemma WaitingWorks(run: seq<State>, names: Names, k: nat)
    requires IsRun(run, names) && Proper(run[0]) && run[0] == Init(run[0].batches, run[0].heap)
    requires k + 1 < |run| && run[k].resumed && run[k + 1].resumed
    ensures Proper(run[k]) && Proper(run[k + 1]) && Work(run[k + 1]) < Work(run[k])
  {
    RunKeeps(run, names, k);
    EveryStepProgresses(run[k], run[k + 1], run[0], names);
  }

  /** In every run the consumer waits for at most as many steps as the thread has work. */
  lemma {:induction false} WaitIsBounded(run: seq<State>, names: Names, i: nat, j: nat)
    requires IsRun(run, names) && Proper(run[0]) && run[0] == Init(run[0].batches, run[0].heap)
    requires i <= j < |run| && forall k | i <= k <= j :: run[k].resumed
    ensures Proper(run[i]) && Proper(run[j]) && j - i + Work(run[j]) <= Work(run[i])
    decreases j
  {
    RunKeeps(run, names, i);
    if i < j {
      WaitIsBounded(run, names, i, j - 1);
      WaitingWorks(run, names, j - 1);
    }
  }
}
