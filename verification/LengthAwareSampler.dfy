/** The length-aware sampler object: the order it keeps, the statistics it logs and
    the samples it yields. */
module LengthAwareSampler {
  import opened Prelude
  import opened LengthAwareBatching

  /** `order` lists the positions of `lengths` once each, longest first (ties in any order). */
  ghost predicate SortsDescending(lengths: seq<nat>, order: seq<nat>) {
    && |order| == |lengths|
    && (forall i | 0 <= i < |order| :: order[i] < |lengths|)
    && (forall i, j | 0 <= i < j < |order| :: order[i] != order[j] && lengths[order[i]] >= lengths[order[j]])
  }

  function Picked(lengths: seq<nat>, order: seq<nat>): (s: seq<nat>)
    requires forall i | 0 <= i < |order| :: order[i] < |lengths|
    ensures |s| == |order|
  {
    seq(|order|, i requires 0 <= i < |order| && order[i] < |lengths| => lengths[order[i]])
  }

  function Prefix<T>(s: seq<T>, n: nat): seq<T> {
    if n < |s| then s[..n] else s
  }

  class Sampler {
    const numSamples: nat
    const batchSize: nat
    const order: seq<nat>
    const lengths: seq<nat>

    /** `lengths` are the token counts of the dataset's samples, and `argsort` what sorting them
        in descending order yields.  None or zero samples asked for means all of them. */
    constructor (lengths: seq<nat>, argsort: seq<nat>, numSamples: Option<nat>, batchSize: nat)
      requires SortsDescending(lengths, argsort) && batchSize > 0
      ensures this.lengths == lengths && order == argsort && this.batchSize == batchSize
      ensures this.numSamples == if numSamples == None || numSamples == Some(0) then |lengths| else numSamples.value
    {
      this.lengths := lengths;
      this.numSamples := if numSamples == None || numSamples == Some(0) then |lengths| else numSamples.value;
      this.batchSize := batchSize;
      order := argsort;
    }

    /** The samples yielded, in order. */
    method Iterate() returns (samples: seq<nat>)
      requires SortsDescending(lengths, order)
      ensures samples == Prefix(order, numSamples)
      ensures samples <= order && |samples| == if numSamples < |lengths| then numSamples else |lengths|
      ensures Descending(Picked(lengths, samples))
      ensures forall i, j: nat | 0 <= i < |samples| && j < |lengths| && j !in samples ::
                lengths[samples[i]] >= lengths[j]
    {
      samples := if numSamples < |order| then order[..numSamples] else order;
      LongestFirst(lengths, order, samples);
    }

    /** The token overhead of consecutive batches: removed by truncation, added by padding. */
    method CalculateBatchStats() returns (removed: nat, added: nat)
      requires SortsDescending(lengths, order) && batchSize > 0
      ensures removed == Removed(Prefix(Picked(lengths, order), numSamples), batchSize)
      ensures added == Added(Prefix(Picked(lengths, order), numSamples), batchSize)
    {
      removed, added := 0, 0;
      var sorted := Prefix(Picked(lengths, order), numSamples);
      if batchSize == 1 {
        SingletonBatches(sorted);
        return;
      }
      removed, added := TotalOverhead(sorted, numSamples, batchSize);
    }
  }

  /** What truncating and padding one batch costs. */
  function Lost(batch: seq<nat>): nat {
    if |batch| == 0 then 0 else Truncated(batch, MinOf(batch))
  }

  function Gained(batch: seq<nat>): nat {
    if |batch| == 0 then 0 else Padded(batch, MaxOf(batch))
  }

  function Rest(s: seq<nat>, i: nat): seq<nat> {
    if i <= |s| then s[i..] else []
  }

  /** The totals after the batches that begin at position `i` or later. */
  function Walk(s: seq<nat>, i: nat, n: nat, b: nat, removed: nat, added: nat): (nat, nat)
    requires b > 0
    decreases n - i
  {
    if i >= n then (removed, added)
    else
      var batch := Head(Rest(s, i), b);
      Walk(s, i + b, n, b, removed + Lost(batch), added + Gained(batch))
  }

  lemma RestStep(s: seq<nat>, i: nat, b: nat)
    requires b > 0 && i < |s|
    ensures |Rest(s, i)| > 0 && Rest(s, i + b) == Tail(Rest(s, i), b)
  {
  }

  lemma FirstBatch(s: seq<nat>, rest: seq<nat>, b: nat)
    requires b > 0 && |s| > 0 && rest == Tail(s, b)
    ensures Removed(s, b) == Lost(Head(s, b)) + Removed(rest, b)
    ensures Added(s, b) == Gained(Head(s, b)) + Added(rest, b)
  {
  }

  lemma NextBatch(s: seq<nat>, i: nat, b: nat)
    requires b > 0
    ensures Removed(Rest(s, i), b) == Lost(Head(Rest(s, i), b)) + Removed(Rest(s, i + b), b)
    ensures Added(Rest(s, i), b) == Gained(Head(Rest(s, i), b)) + Added(Rest(s, i + b), b)
  {
    if i < |s| {
      RestStep(s, i, b);
      FirstBatch(Rest(s, i), Rest(s, i + b), b);
    } else {
      assert Rest(s, i) == [] && Rest(s, i + b) == [];
    }
  }

  lemma {:induction false} WalkIs(s: seq<nat>, i: nat, n: nat, b: nat, removed: nat, added: nat)
    requires b > 0 && |s| <= n
    ensures Walk(s, i, n, b, removed, added) == (removed + Removed(Rest(s, i), b), added + Added(Rest(s, i), b))
    decreases n - i
  {
    if i < n {
      NextBatch(s, i, b);
      WalkIs(s, i + b, n, b, removed + Lost(Head(Rest(s, i), b)), added + Gained(Head(Rest(s, i), b)));
    } else {
      assert Rest(s, i) == [];
    }
  }

  method TotalOverhead(sorted: seq<nat>, numSamples: nat, b: nat) returns (removed: nat, added: nat)
    requires b > 0 && |sorted| <= numSamples
    ensures removed == Removed(sorted, b) && added == Added(sorted, b)
  {
    removed, added := 0, 0;
    WalkIs(sorted, 0, numSamples, b, 0, 0);
    var i := 0;
    while i < numSamples
      invariant Walk(sorted, i, numSamples, b, removed, added) == Walk(sorted, 0, numSamples, b, 0, 0)
      decreases numSamples - i
    {
      var batch := Head(Rest(sorted, i), b);
      if |batch| > 0 {
        removed := removed + Lost(batch);
        added := added + Gained(batch);
      }
      i := i + b;
    }
  }

  lemma {:induction false} SingletonBatches(s: seq<nat>)
    ensures Removed(s, 1) == 0 && Added(s, 1) == 0
    decreases |s|
  {
    if |s| > 0 {
      var head := Head(s, 1);
      assert head == [s[0]] && MinOf(head) == s[0] && MaxOf(head) == s[0];
      TruncatedSum(head, s[0]);
      PaddedSum(head, s[0]);
      assert Times(1, s[0]) == s[0] + Times(0, s[0]) && Sum(head) == s[0] + Sum(head[1..]);
      SingletonBatches(Tail(s, 1));
    }
  }

  lemma LongestFirst(lengths: seq<nat>, order: seq<nat>, samples: seq<nat>)
    requires SortsDescending(lengths, order) && samples <= order
    ensures Descending(Picked(lengths, samples))
    ensures forall i, j: nat | 0 <= i < |samples| && j < |lengths| && j !in samples :: lengths[samples[i]] >= lengths[j]
  {
    forall i, j: nat | 0 <= i < |samples| && j < |lengths| && j !in samples
      ensures lengths[samples[i]] >= lengths[j]
    {
      AllPositions(order);
      assert j in order;
      var k :| 0 <= k < |order| && order[k] == j;
      assert k >= |samples| && samples[i] == order[i];
    }
  }

  /** Distinct positions below their number are all the positions. */
  lemma AllPositions(order: seq<nat>)
    requires forall i | 0 <= i < |order| :: order[i] < |order|
    requires forall i, j | 0 <= i < j < |order| :: order[i] != order[j]
    ensures forall k: nat | k < |order| :: k in order
  {
    var seen, all := Elements(order, |order|), Below(|order|);
    assert order[..|order|] == order;
    if k: nat :| k < |order| && k !in order {
      Smaller(seen, all - {k});
      assert false;
    }
  }

  ghost function Elements(order: seq<nat>, n: nat): (s: set<nat>)
    requires n <= |order| && forall i, j | 0 <= i < j < |order| :: order[i] != order[j]
    ensures |s| == n && forall x :: x in s <==> x in order[..n]
  {
    if n == 0 then {}
    else
      assert order[..n] == order[..n - 1] + [order[n - 1]];
      Elements(order, n - 1) + {order[n - 1]}
  }

  ghost function Below(n: nat): (s: set<nat>)
    ensures |s| == n && forall x: nat :: x in s <==> x < n
  {
    if n == 0 then {} else Below(n - 1) + {n - 1}
  }

  lemma {:induction false} Smaller(a: set<nat>, b: set<nat>)
    requires a <= b
    ensures |a| <= |b|
    decreases |a|
  {
    if x :| x in a {
      Smaller(a - {x}, b - {x});
    }
  }

  /** What the sampler promises: among all orders of the samples it yields, its own loses and
      pads the fewest tokens, provided the batch size divides their number. */
  lemma SamplerIsOptimal(lengths: seq<nat>, order: seq<nat>, numSamples: nat, batchSize: nat)
    requires SortsDescending(lengths, order) && batchSize > 0
    requires |Prefix(order, numSamples)| % batchSize == 0
    ensures var s := Prefix(Picked(lengths, order), numSamples);
            LeastRemoved(s, batchSize) && LeastAdded(s, batchSize)
  {
    DescendingIsOptimal(Prefix(Picked(lengths, order), numSamples), batchSize);
  }
}
