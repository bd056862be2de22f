/** The static min/max observer: statistics accumulated batch by batch on every rank and
    then reduced across ranks. */
module MinMax {
  import opened Arith
  import opened Prelude
  import opened RankPartition

  /** An observed value: for every channel, the values that share its quantisation parameters. */
  type Tensor = seq<seq<real>>

  function Lower(x: real, y: real): real {
    if y < x then y else x
  }

  function Upper(x: real, y: real): real {
    if y > x then y else x
  }

  function AMin(values: seq<real>): real
    requires |values| > 0
  {
    if |values| == 1 then values[0] else Lower(values[0], AMin(values[1..]))
  }

  function AMax(values: seq<real>): real
    requires |values| > 0
  {
    if |values| == 1 then values[0] else Upper(values[0], AMax(values[1..]))
  }

  /** The value is one of the values, and no other is below it. */
  ghost predicate Least(v: real, values: seq<real>) {
    v in values && forall i | 0 <= i < |values| :: v <= values[i]
  }

  ghost predicate Greatest(v: real, values: seq<real>) {
    v in values && forall i | 0 <= i < |values| :: v >= values[i]
  }

  lemma {:induction false} ExtremesAre(values: seq<real>)
    requires |values| > 0
    ensures Least(AMin(values), values) && Greatest(AMax(values), values)
  {
    if |values| > 1 {
      ExtremesAre(values[1..]);
      assert forall i | 0 < i < |values| :: values[i] == values[1..][i - 1];
    }
  }

  ghost predicate Shaped(t: Tensor, channels: nat) {
    |t| == channels && forall c | 0 <= c < channels :: |t[c]| > 0
  }

  // ----- The observer

  datatype Extremes = Extremes(mins: seq<real>, maxs: seq<real>)

  function GetMinMax(observed: Tensor): Extremes
    requires forall c | 0 <= c < |observed| :: |observed[c]| > 0
  {
    Extremes(seq(|observed|, c requires 0 <= c < |observed| && |observed[c]| > 0 => AMin(observed[c])),
             seq(|observed|, c requires 0 <= c < |observed| && |observed[c]| > 0 => AMax(observed[c])))
  }

  /** Channel by channel, the lower minimum and the upper maximum. */
  function Merge(x: Extremes, y: Extremes): Extremes
    requires |x.mins| == |y.mins| == |x.maxs| == |y.maxs|
  {
    Extremes(seq(|x.mins|, c requires 0 <= c < |x.mins| => Lower(x.mins[c], y.mins[c])),
             seq(|x.maxs|, c requires 0 <= c < |x.maxs| => Upper(x.maxs[c], y.maxs[c])))
  }

  function Absorb(state: Option<Extremes>, observed: Tensor): Extremes
    requires forall c | 0 <= c < |observed| :: |observed[c]| > 0
    requires state.Some? ==> |state.value.mins| == |state.value.maxs| == |observed|
  {
    if state.None? then GetMinMax(observed) else Merge(GetMinMax(observed), state.value)
  }

  /** The old extremes of a channel, if there are any. */
  ghost function Before(state: Option<Extremes>, c: nat): (r: (seq<real>, seq<real>))
    requires state.Some? ==> c < |state.value.mins| == |state.value.maxs|
  {
    if state.Some? then ([state.value.mins[c]], [state.value.maxs[c]]) else ([], [])
  }

  /** Observing a value leaves the extremes of what a channel had and what it is shown. */
  lemma AbsorbedAre(state: Option<Extremes>, observed: Tensor)
    requires forall c | 0 <= c < |observed| :: |observed[c]| > 0
    requires state.Some? ==> |state.value.mins| == |state.value.maxs| == |observed|
    ensures var r := Absorb(state, observed);
            && |r.mins| == |r.maxs| == |observed|
            && forall c | 0 <= c < |observed| ::
                 && Least(r.mins[c], observed[c] + Before(state, c).0)
                 && Greatest(r.maxs[c], observed[c] + Before(state, c).1)
  {
    var r := Absorb(state, observed);
    forall c | 0 <= c < |observed|
      ensures Least(r.mins[c], observed[c] + Before(state, c).0)
      ensures Greatest(r.maxs[c], observed[c] + Before(state, c).1)
    {
      ExtremesAre(observed[c]);
      OneMore(observed[c], Before(state, c).0, r.mins[c]);
      OneMore(observed[c], Before(state, c).1, r.maxs[c]);
    }
  }

  lemma OneMore(a: seq<real>, b: seq<real>, v: real)
    requires v in a || v in b
    ensures v in a + b
  {
  }

  class StaticMinMaxObserver {
    var stats: Option<Extremes>

    constructor ()
      ensures stats == None
    {
      stats := None;
    }

    method UpdateStatistics(observed: Tensor)
      requires forall c | 0 <= c < |observed| :: |observed[c]| > 0
      requires stats.Some? ==> |stats.value.mins| == |stats.value.maxs| == |observed|
      modifies this
      ensures stats == Some(Absorb(old(stats), observed))
      ensures |stats.value.mins| == |stats.value.maxs| == |observed|
      ensures forall c | 0 <= c < |observed| ::
                && Least(stats.value.mins[c], observed[c] + Before(old(stats), c).0)
                && Greatest(stats.value.maxs[c], observed[c] + Before(old(stats), c).1)
    {
      AbsorbedAre(stats, observed);
      var now := GetMinMax(observed);
      if stats.Some? {
        stats := Some(Merge(now, stats.value));
      } else {
        stats := Some(now);
      }
    }
  }

  // ----- Accumulation over batches

  /** A batch shows each channel the values of all its samples. */
  function Channel(samples: seq<Tensor>, c: nat): seq<real>
    requires forall k | 0 <= k < |samples| :: c < |samples[k]|
  {
    if |samples| == 0 then [] else samples[0][c] + Channel(samples[1..], c)
  }

  ghost predicate AllShaped(samples: seq<Tensor>, channels: nat) {
    forall k | 0 <= k < |samples| :: Shaped(samples[k], channels)
  }

  function Observed(samples: seq<Tensor>, channels: nat): (t: Tensor)
    requires forall k | 0 <= k < |samples| :: |samples[k]| == channels
    ensures |t| == channels && forall c | 0 <= c < channels :: t[c] == Channel(samples, c)
  {
    seq(channels, c requires 0 <= c < channels => Channel(samples, c))
  }

  lemma {:induction false} ChannelNonEmpty(samples: seq<Tensor>, channels: nat, c: nat)
    requires AllShaped(samples, channels) && c < channels
    ensures |samples| > 0 ==> |Channel(samples, c)| > 0
  {
  }

  lemma {:induction false} ChannelSplits(a: seq<Tensor>, b: seq<Tensor>, channels: nat, c: nat)
    requires AllShaped(a, channels) && AllShaped(b, channels) && c < channels
    ensures AllShaped(a + b, channels) && Channel(a + b, c) == Channel(a, c) + Channel(b, c)
  {
    assert forall k | 0 <= k < |a + b| :: (a + b)[k] == if k < |a| then a[k] else b[k - |a|];
    if |a| == 0 {
      assert a + b == b;
    } else {
      assert (a + b)[1..] == a[1..] + b;
      ChannelSplits(a[1..], b, channels, c);
    }
  }

  lemma {:induction false} ExtremesSplit(a: seq<real>, b: seq<real>)
    requires |a| > 0 && |b| > 0
    ensures AMin(a + b) == Lower(AMin(a), AMin(b)) && AMax(a + b) == Upper(AMax(a), AMax(b))
  {
    if |a| == 1 {
      assert (a + b)[1..] == b;
    } else {
      assert (a + b)[1..] == a[1..] + b;
      ExtremesSplit(a[1..], b);
    }
  }

  /** The statistics of a set of samples in one go. */
  function Whole(samples: seq<Tensor>, channels: nat): Extremes
    requires AllShaped(samples, channels) && |samples| > 0
  {
    assert forall c | 0 <= c < channels :: |Channel(samples, c)| > 0;
    GetMinMax(Observed(samples, channels))
  }

  lemma WholeMerges(a: seq<Tensor>, b: seq<Tensor>, channels: nat)
    requires AllShaped(a, channels) && AllShaped(b, channels) && |a| > 0 && |b| > 0
    ensures AllShaped(a + b, channels) && Whole(a + b, channels) == Merge(Whole(b, channels), Whole(a, channels))
    ensures Whole(a + b, channels) == Merge(Whole(a, channels), Whole(b, channels))
  {
    assert forall k | 0 <= k < |a + b| :: (a + b)[k] == if k < |a| then a[k] else b[k - |a|];
    forall c: nat | c < channels
      ensures |Channel(a, c)| > 0 && |Channel(b, c)| > 0
      ensures AMin(Channel(a + b, c)) == Lower(AMin(Channel(a, c)), AMin(Channel(b, c)))
      ensures AMax(Channel(a + b, c)) == Upper(AMax(Channel(a, c)), AMax(Channel(b, c)))
    {
      ChannelNonEmpty(a, channels, c);
      ChannelNonEmpty(b, channels, c);
      ChannelSplits(a, b, channels, c);
      ExtremesSplit(Channel(a, c), Channel(b, c));
    }
  }

  /** The state after observing the batches one after the other. */
  function Accumulated(batches: seq<seq<Tensor>>, channels: nat): (state: Option<Extremes>)
    requires forall k | 0 <= k < |batches| :: AllShaped(batches[k], channels) && |batches[k]| > 0
    ensures state.Some? <==> |batches| > 0
    ensures state.Some? ==> |state.value.mins| == |state.value.maxs| == channels
  {
    if |batches| == 0 then None
    else
      var last := batches[|batches| - 1];
      assert AllShaped(last, channels);
      assert forall c | 0 <= c < channels :: |Channel(last, c)| > 0;
      Some(Absorb(Accumulated(batches[..|batches| - 1], channels), Observed(last, channels)))
  }

  function Flatten<T>(parts: seq<seq<T>>): seq<T> {
    if |parts| == 0 then [] else Flatten(parts[..|parts| - 1]) + parts[|parts| - 1]
  }

  /** However the samples are batched, the accumulated statistics are those of all of them. */
  lemma {:induction false} BatchingDoesNotMatter(batches: seq<seq<Tensor>>, channels: nat)
    requires |batches| > 0
    requires forall k | 0 <= k < |batches| :: AllShaped(batches[k], channels) && |batches[k]| > 0
    ensures AllShaped(Flatten(batches), channels) && |Flatten(batches)| > 0
    ensures Accumulated(batches, channels) == Some(Whole(Flatten(batches), channels))
  {
    var n := |batches| - 1;
    if n == 0 {
      assert Flatten(batches[..0]) == [] && Flatten(batches) == batches[0];
    } else {
      BatchingDoesNotMatter(batches[..n], channels);
      WholeMerges(Flatten(batches[..n]), batches[n], channels);
    }
  }

  /** A value that channel `c` is shown in one of the samples. */
  ghost predicate Shown(samples: seq<Tensor>, c: nat, v: real) {
    exists k: nat :: k < |samples| && c < |samples[k]| && v in samples[k][c]
  }

  /** The extremes of everything that is shown. */
  ghost predicate AreExtremes(x: Extremes, samples: seq<Tensor>, channels: nat) {
    && |x.mins| == |x.maxs| == channels
    && forall c: nat | c < channels ::
         && Shown(samples, c, x.mins[c]) && Shown(samples, c, x.maxs[c])
         && forall v | Shown(samples, c, v) :: x.mins[c] <= v <= x.maxs[c]
  }

  lemma {:induction false} ChannelHasShown(samples: seq<Tensor>, channels: nat, c: nat, v: real)
    requires AllShaped(samples, channels) && c < channels
    ensures v in Channel(samples, c) <==> Shown(samples, c, v)
  {
    if |samples| > 0 {
      var rest := samples[1..];
      ChannelHasShown(rest, channels, c, v);
      assert v in samples[0][c] ==> Shown(samples, c, v);
      if Shown(rest, c, v) {
        var k: nat :| k < |rest| && c < |rest[k]| && v in rest[k][c];
        assert samples[k + 1] == rest[k];
      }
      if k: nat :| 0 < k < |samples| && v in samples[k][c] {
        assert rest[k - 1] == samples[k];
      }
    }
  }

  /** What one process holds after all samples is the least and the greatest value of every channel. */
  lemma WholeAreExtremes(samples: seq<Tensor>, channels: nat)
    requires AllShaped(samples, channels) && |samples| > 0
    ensures AreExtremes(Whole(samples, channels), samples, channels)
  {
    var x := Whole(samples, channels);
    forall c: nat | c < channels
      ensures Shown(samples, c, x.mins[c]) && Shown(samples, c, x.maxs[c])
      ensures forall v | Shown(samples, c, v) :: x.mins[c] <= v <= x.maxs[c]
    {
      ChannelNonEmpty(samples, channels, c);
      ExtremesAre(Channel(samples, c));
      ChannelHasShown(samples, channels, c, x.mins[c]);
      ChannelHasShown(samples, channels, c, x.maxs[c]);
      forall v | Shown(samples, c, v)
        ensures x.mins[c] <= v <= x.maxs[c]
      {
        ChannelHasShown(samples, channels, c, v);
      }
    }
  }

  /** A sample of one of the batches. */
  ghost predicate Sampled(batches: seq<seq<Tensor>>, t: Tensor) {
    exists b: nat :: b < |batches| && t in batches[b]
  }

  lemma {:induction false} FlattenHasSampled(batches: seq<seq<Tensor>>, t: Tensor)
    ensures t in Flatten(batches) <==> Sampled(batches, t)
  {
    if |batches| > 0 {
      var n := |batches| - 1;
      FlattenHasSampled(batches[..n], t);
      if Sampled(batches[..n], t) {
        var b: nat :| b < n && t in batches[..n][b];
        assert t in batches[b];
      }
      if b: nat :| b < n && t in batches[b] {
        assert t in batches[..n][b];
      }
    }
  }

  /** In any batching the accumulated statistics of a channel are the least and the greatest of all
      values that some sample of some batch shows it. */
  lemma AccumulatedAreExtremes(batches: seq<seq<Tensor>>, channels: nat, c: nat, v: real)
    requires |batches| > 0 && c < channels
    requires forall k | 0 <= k < |batches| :: AllShaped(batches[k], channels) && |batches[k]| > 0
    ensures var x := Accumulated(batches, channels).value;
            && ShownInBatches(batches, c, x.mins[c]) && ShownInBatches(batches, c, x.maxs[c])
            && (ShownInBatches(batches, c, v) ==> x.mins[c] <= v <= x.maxs[c])
  {
    var x := Accumulated(batches, channels).value;
    BatchingDoesNotMatter(batches, channels);
    WholeAreExtremes(Flatten(batches), channels);
    InBatches(batches, c, x.mins[c]);
    InBatches(batches, c, x.maxs[c]);
    InBatches(batches, c, v);
  }

  ghost predicate ShownInBatches(batches: seq<seq<Tensor>>, c: nat, v: real) {
    exists t: Tensor :: Sampled(batches, t) && c < |t| && v in t[c]
  }

  lemma InBatches(batches: seq<seq<Tensor>>, c: nat, v: real)
    ensures Shown(Flatten(batches), c, v) <==> ShownInBatches(batches, c, v)
  {
    var samples := Flatten(batches);
    if Shown(samples, c, v) {
      var k: nat :| k < |samples| && c < |samples[k]| && v in samples[k][c];
      FlattenHasSampled(batches, samples[k]);
    }
    if t: Tensor :| Sampled(batches, t) && c < |t| && v in t[c] {
      FlattenHasSampled(batches, t);
      var k: nat :| k < |samples| && samples[k] == t;
    }
  }

  // ----- Reduction over ranks

  /** All-reduce with MIN and MAX. */
  function Reduced(ranks: seq<Extremes>, channels: nat): (r: Extremes)
    requires |ranks| > 0 && forall k | 0 <= k < |ranks| :: |ranks[k].mins| == |ranks[k].maxs| == channels
    ensures |r.mins| == |r.maxs| == channels
  {
    if |ranks| == 1 then ranks[0] else Merge(Reduced(ranks[..|ranks| - 1], channels), ranks[|ranks| - 1])
  }

  /** The samples of rank `i` of `d`. */
  function Share(samples: seq<Tensor>, i: nat, d: nat): (share: seq<Tensor>)
    requires i < d
    ensures |share| == Start(|samples|, i + 1, d) - Start(|samples|, i, d)
  {
    var (start, end) := StartEnd(|samples|, i, d);
    Ends(|samples|, d);
    Increasing(|samples|, 0, i, d);
    Increasing(|samples|, i, i + 1, d);
    Increasing(|samples|, i + 1, d, d);
    samples[start..end]
  }

  ghost predicate ValidBatches(batches: seq<seq<Tensor>>, channels: nat) {
    forall k | 0 <= k < |batches| :: AllShaped(batches[k], channels) && |batches[k]| > 0
  }

  /** Rank by rank, any batching of the rank's share. */
  ghost predicate Distributes(work: seq<seq<seq<Tensor>>>, samples: seq<Tensor>, channels: nat) {
    && |work| > 0 && AllShaped(samples, channels)
    && forall i: nat | i < |work| :: Flatten(work[i]) == Share(samples, i, |work|) && ValidBatches(work[i], channels)
  }

  /** Before the reduction every rank holds the statistics of its share. */
  lemma RankHoldsShare(work: seq<seq<seq<Tensor>>>, samples: seq<Tensor>, channels: nat, i: nat)
    requires Distributes(work, samples, channels) && |samples| >= |work| && i < |work|
    ensures AllShaped(Share(samples, i, |work|), channels) && |Share(samples, i, |work|)| > 0
    ensures Accumulated(work[i], channels) == Some(Whole(Share(samples, i, |work|), channels))
  {
    ShareNonEmpty(samples, i, |work|);
    var batches := work[i];
    assert ValidBatches(batches, channels) && Flatten(batches) == Share(samples, i, |work|);
    if |batches| > 0 {
      BatchingDoesNotMatter(batches, channels);
    }
  }

  lemma ShareNonEmpty(samples: seq<Tensor>, i: nat, d: nat)
    requires i < d <= |samples|
    ensures |Share(samples, i, d)| > 0
  {
    NonEmpty(|samples|, i, d);
  }

  /** What the ranks hold before the reduction. */
  ghost predicate Held(ranks: seq<Extremes>, work: seq<seq<seq<Tensor>>>, channels: nat) {
    && |ranks| == |work|
    && forall i: nat | i < |work| ::
         && ValidBatches(work[i], channels) && Accumulated(work[i], channels) == Some(ranks[i])
         && |ranks[i].mins| == |ranks[i].maxs| == channels
  }

  /** Reducing the statistics of the parts gives those of the whole. */
  lemma {:induction false} PartsReduce(parts: seq<seq<Tensor>>, channels: nat, ranks: seq<Extremes>)
    requires ValidBatches(parts, channels) && 0 < |parts| == |ranks|
    requires forall k | 0 <= k < |parts| :: ranks[k] == Whole(parts[k], channels)
    ensures AllShaped(Flatten(parts), channels) && |Flatten(parts)| > 0
    ensures forall k | 0 <= k < |ranks| :: |ranks[k].mins| == |ranks[k].maxs| == channels
    ensures Reduced(ranks, channels) == Whole(Flatten(parts), channels)
  {
    var n := |parts| - 1;
    if n == 0 {
      assert Flatten(parts[..0]) == [] && Flatten(parts) == parts[0];
    } else {
      PartsReduce(parts[..n], channels, ranks[..n]);
      WholeMerges(Flatten(parts[..n]), parts[n], channels);
    }
  }

  function Shares(samples: seq<Tensor>, n: nat, d: nat): (parts: seq<seq<Tensor>>)
    requires n <= d
    ensures |parts| == n && forall i | 0 <= i < n :: parts[i] == Share(samples, i, d)
  {
    if n == 0 then [] else Shares(samples, n - 1, d) + [Share(samples, n - 1, d)]
  }

  /** The shares of the first `n` ranks are the samples before the next rank's start. */
  lemma {:induction false} SharesTile(samples: seq<Tensor>, n: nat, d: nat)
    requires n <= d && d > 0
    ensures Start(|samples|, n, d) <= |samples|
    ensures Flatten(Shares(samples, n, d)) == samples[..Start(|samples|, n, d)]
  {
    Ends(|samples|, d);
    Increasing(|samples|, n, d, d);
    if n > 0 {
      var before := Shares(samples, n - 1, d);
      SharesTile(samples, n - 1, d);
      Increasing(|samples|, n - 1, n, d);
      assert (before + [Share(samples, n - 1, d)])[..n - 1] == before;
    }
  }

  /** Distributed observation equals observation of all samples by one process. */
  lemma DistributionDoesNotMatter(work: seq<seq<seq<Tensor>>>, samples: seq<Tensor>, channels: nat,
                                  ranks: seq<Extremes>)
    requires Distributes(work, samples, channels) && |samples| >= |work| && Held(ranks, work, channels)
    ensures Reduced(ranks, channels) == Whole(samples, channels)
    ensures AreExtremes(Reduced(ranks, channels), samples, channels)
  {
    WholeAreExtremes(samples, channels);
    var d := |work|;
    var parts := Shares(samples, d, d);
    forall i: nat | i < d
      ensures AllShaped(parts[i], channels) && |parts[i]| > 0 && ranks[i] == Whole(parts[i], channels)
    {
      RankHoldsShare(work, samples, channels, i);
    }
    PartsReduce(parts, channels, ranks);
    SharesTile(samples, d, d);
    Ends(|samples|, d);
    assert samples[..Start(|samples|, d, d)] == samples;
  }
}
