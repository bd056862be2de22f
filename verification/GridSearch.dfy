/** The shrink-factor grid searches of the MSE and importance observers.

    Candidate number `i` scales the observed range by 1 - i/grid; its
    quantisation error on channel `c` is the abstract `err(i, c)`.  Three
    searches walk the candidates in order: the eager one stops after `patience`
    candidates in a row that improve no channel, the chunked one tests the same
    condition at chunk boundaries only, and the importance search has its own
    step count and treats patience 0 and below as "never stop". */
module GridSearch {
  import opened Arith
  import opened Prelude

  /** Error of candidate `step` on a channel. */
  type Errors = (nat, nat) -> real

  /** The best error found so far; None is the initial value, above every error. */
  type Bound = Option<real>

  predicate Below(e: real, bound: Bound) {
    bound.None? || e < bound.value
  }

  /** The candidate a channel has kept after the first `n`: the earliest with the least error. */
  function BestStep(err: Errors, c: nat, n: nat): (best: Option<nat>)
    ensures n == 0 <==> best.None?
    ensures best.Some? ==> best.value < n
  {
    if n == 0 then None
    else
      var before := BestStep(err, c, n - 1);
      if before.None? || err(n - 1, c) < err(before.value, c) then Some(n - 1) else before
  }

  /** What the fold keeps, said without the fold. */
  lemma {:induction false} BestStepIsEarliestLeast(err: Errors, c: nat, n: nat, i: nat)
    requires i < n
    ensures BestStep(err, c, n).Some?
    ensures err(BestStep(err, c, n).value, c) <= err(i, c)
    ensures i < BestStep(err, c, n).value ==> err(BestStep(err, c, n).value, c) < err(i, c)
  {
    if i < n - 1 {
      BestStepIsEarliestLeast(err, c, n - 1, i);
    }
  }

  function BestError(err: Errors, c: nat, n: nat): Bound {
    match BestStep(err, c, n)
    case None => None
    case Some(step) => Some(err(step, c))
  }

  /** A range end shrunk by candidate `i`. */
  function Candidate(end: real, grid: real, i: nat): real
    requires grid != 0.0
  {
    end * (1.0 - i as real / grid)
  }

  /** The range end a channel reports: its observed end scaled by the kept candidate. */
  function Scaled(end: real, step: Option<nat>, grid: real): real
    requires grid != 0.0
  {
    match step
    case None => end
    case Some(i) => Candidate(end, grid, i)
  }

  function Ranges(err: Errors, ends: seq<real>, grid: real, n: nat): (r: seq<real>)
    requires grid != 0.0
  {
    seq(|ends|, c requires 0 <= c < |ends| => Scaled(ends[c], BestStep(err, c, n), grid))
  }

  // ----- What a candidate is

  lemma Proportion(end: real, grid: real, i: real)
    requires grid != 0.0
    ensures end * (1.0 - i / grid) == end - i * (end / grid)
  {
    assert end * (i / grid) == i * (end / grid) by {
      Quotients(end, grid, i);
    }
    assert end * (1.0 - i / grid) == end - end * (i / grid);
  }

  lemma Quotients(end: real, grid: real, i: real)
    requires grid != 0.0
    ensures end * (i / grid) == i * (end / grid)
  {
    var x, y := i / grid, end / grid;
    assert i == x * grid && end == y * grid;
    assert (y * grid) * x == (x * grid) * y;
  }

  /** The candidates go from the observed end to nothing in `grid` equal steps. */
  lemma CandidatesAreEvenlySpaced(end: real, grid: nat, i: nat)
    requires grid > 0
    ensures Candidate(end, grid as real, 0) == end
    ensures Candidate(end, grid as real, i) - Candidate(end, grid as real, i + 1) == end / grid as real
    ensures Candidate(end, grid as real, grid) == 0.0
  {
    var g, x := grid as real, i as real;
    Proportion(end, g, 0.0);
    Proportion(end, g, x);
    Proportion(end, g, x + 1.0);
    Proportion(end, g, g);
    var step := end / g;
    assert (x + 1.0) * step == x * step + step;
    assert g * step == end;
  }

  /** Candidate `i` is the earliest of the first `n` with the least error on the channel. */
  ghost predicate EarliestLeast(err: Errors, c: nat, n: nat, i: nat) {
    && i < n && (forall j: nat | j < n :: err(i, c) <= err(j, c))
    && forall j: nat | j < i :: err(i, c) < err(j, c)
  }

  /** Every range end is the observed end, less as many steps of a `grid`-th of it as the number of the
      earliest candidate with the least error; it is the observed end when nothing was tried. */
  ghost predicate Reports(err: Errors, ends: seq<real>, grid: real, n: nat, reported: seq<real>)
    requires grid != 0.0
  {
    && |reported| == |ends|
    && forall c: nat | c < |ends| ::
         && (n == 0 ==> reported[c] == ends[c])
         && (forall i: nat | EarliestLeast(err, c, n, i) :: reported[c] == ends[c] - i as real * (ends[c] / grid))
         && (n > 0 ==> exists i: nat :: EarliestLeast(err, c, n, i))
  }

  lemma EarliestLeastExactly(err: Errors, c: nat, n: nat, i: nat)
    ensures EarliestLeast(err, c, n, i) <==> BestStep(err, c, n) == Some(i)
  {
    if n > 0 {
      var b := BestStep(err, c, n).value;
      forall j: nat | j < n
        ensures err(b, c) <= err(j, c) && (j < b ==> err(b, c) < err(j, c))
      {
        BestStepIsEarliestLeast(err, c, n, j);
      }
      assert EarliestLeast(err, c, n, b);
    }
  }

  lemma RangesReport(err: Errors, ends: seq<real>, grid: real, n: nat)
    requires grid != 0.0
    ensures Reports(err, ends, grid, n, Ranges(err, ends, grid, n))
  {
    forall c: nat | c < |ends|
      ensures forall i: nat | EarliestLeast(err, c, n, i) ::
                Ranges(err, ends, grid, n)[c] == ends[c] - i as real * (ends[c] / grid)
      ensures n > 0 ==> exists i: nat :: EarliestLeast(err, c, n, i)
    {
      forall i: nat | EarliestLeast(err, c, n, i)
        ensures Ranges(err, ends, grid, n)[c] == ends[c] - i as real * (ends[c] / grid)
      {
        EarliestLeastExactly(err, c, n, i);
        Proportion(ends[c], grid, i as real);
      }
      if n > 0 {
        EarliestLeastExactly(err, c, n, BestStep(err, c, n).value);
      }
    }
  }

  /** A channel whose least error is at the first candidate keeps its observed range. */
  lemma FirstKeepsRange(err: Errors, ends: seq<real>, grid: real, n: nat, reported: seq<real>, c: nat)
    requires grid != 0.0 && n > 0 && c < |ends| && Reports(err, ends, grid, n, reported)
    requires forall j: nat | j < n :: err(0, c) <= err(j, c)
    ensures reported[c] == ends[c]
  {
    assert EarliestLeast(err, c, n, 0);
    assert reported[c] == ends[c] - 0 as real * (ends[c] / grid);
  }

  function Errors0(err: Errors, channels: nat, n: nat): seq<Bound> {
    seq(channels, c requires 0 <= c < channels => BestError(err, c, n))
  }

  predicate Lowers(err: Errors, c: nat, i: nat) {
    Below(err(i, c), BestError(err, c, i))
  }

  /** Candidate `i` lowers the best error of some channel. */
  ghost predicate Improves(err: Errors, channels: nat, i: nat) {
    exists c: nat | c < channels :: Lowers(err, c, i)
  }

  /** No candidate in [from, to) improves any channel. */
  ghost predicate Quiet(err: Errors, channels: nat, from: nat, to: nat) {
    forall i: nat | from <= i < to :: !Improves(err, channels, i)
  }

  /** A patience below one acts as one: the first quiet candidate stops the eager search. */
  function Tolerance(patience: int): (p: nat)
    ensures p >= 1 && p >= patience
  {
    if patience < 1 then 1 else patience
  }

  ghost predicate EagerBreak(err: Errors, channels: nat, patience: int, n: nat) {
    var p := Tolerance(patience);
    n >= p && Quiet(err, channels, n - p, n)
  }

  /** `n` is the number of candidates the eager search evaluates. */
  ghost predicate IsEagerStop(err: Errors, channels: nat, total: nat, patience: int, n: nat) {
    && n <= total
    && (n < total ==> EagerBreak(err, channels, patience, n))
    && forall k: nat | k < n :: !EagerBreak(err, channels, patience, k)
  }

  ghost predicate IsBoundary(chunk: nat, total: nat, n: nat)
    requires chunk > 0
  {
    n <= total && (n % chunk == 0 || n == total)
  }

  /** At boundary `n` some run of whole quiet chunks ends that is at least `patience` long. */
  ghost predicate ChunkBreak(err: Errors, channels: nat, patience: int, chunk: nat, n: nat)
    requires chunk > 0
  {
    exists a: nat :: a < n && a % chunk == 0 && n - a >= patience && Quiet(err, channels, a, n)
  }

  /** `n` is the number of candidates the chunked search evaluates. */
  ghost predicate IsChunkedStop(err: Errors, channels: nat, total: nat, patience: int, chunk: nat, n: nat)
    requires chunk > 0
  {
    && IsBoundary(chunk, total, n)
    && (n < total ==> ChunkBreak(err, channels, patience, chunk, n))
    && forall k: nat | k < n && IsBoundary(chunk, total, k) ::
         !ChunkBreak(err, channels, patience, chunk, k)
  }

  ghost predicate ImportanceBreak(err: Errors, channels: nat, patience: int, n: nat) {
    patience > 0 && EagerBreak(err, channels, patience, n)
  }

  /** `n` is the number of candidates the importance search evaluates. */
  ghost predicate IsImportanceStop(err: Errors, channels: nat, total: nat, patience: int, n: nat) {
    var steps := (if total < 1 then 1 else total) + 1;
    && n <= steps
    && (n < steps ==> ImportanceBreak(err, channels, patience, n))
    && forall k: nat | k < n :: !ImportanceBreak(err, channels, patience, k)
  }

  // ----- Facts about whole chunks

  /** [start, n) is quiet, and no run of whole chunks reaching further back is. */
  ghost predicate QuietRun(err: Errors, channels: nat, chunk: nat, total: nat, start: nat, n: nat)
    requires chunk > 0
  {
    && start <= n && Quiet(err, channels, start, n) && IsBoundary(chunk, total, start)
    && forall a: nat | a < start && a % chunk == 0 :: !Quiet(err, channels, a, start)
  }

  lemma NextBoundary(chunk: nat, total: nat, idx: nat)
    requires chunk > 0 && idx < total && idx % chunk == 0
    ensures var end := if idx + chunk < total then idx + chunk else total;
            IsBoundary(chunk, total, end) && forall k: nat | IsBoundary(chunk, total, k) :: k <= idx || k >= end
  {
    NextMultiple(chunk, idx);
    forall k: nat | k > idx && k % chunk == 0
      ensures k >= idx + chunk
    {
      MultiplesAreApart(chunk, k, idx);
    }
  }

  /** The best errors are equal before and after a stretch exactly when the stretch is quiet. */
  lemma {:induction false} EqualErrorsMeanQuiet(err: Errors, channels: nat, from: nat, to: nat)
    requires from <= to
    ensures Errors0(err, channels, from) == Errors0(err, channels, to) <==> Quiet(err, channels, from, to)
  {
    if from < to {
      var before, after := Errors0(err, channels, from), Errors0(err, channels, to);
      var last := Errors0(err, channels, to - 1);
      EqualErrorsMeanQuiet(err, channels, from, to - 1);
      if Improves(err, channels, to - 1) {
        var c: nat :| c < channels && Lowers(err, c, to - 1);
        ErrorsFall(err, c, from, to - 1);
        assert after[c] == Some(err(to - 1, c));
        assert before[c] != after[c];
      } else {
        forall c: nat | c < channels
          ensures after[c] == last[c]
        {
          assert !Lowers(err, c, to - 1);
        }
        assert last == after;
      }
    }
  }

  lemma {:induction false} ErrorsFall(err: Errors, c: nat, from: nat, to: nat)
    requires from <= to
    ensures BestError(err, c, from).Some? ==>
              BestError(err, c, to).Some? && BestError(err, c, to).value <= BestError(err, c, from).value
  {
    if from < to {
      ErrorsFall(err, c, from, to - 1);
    }
  }

  lemma LoudChunk(err: Errors, channels: nat, chunk: nat, total: nat, idx: nat, end: nat)
    requires chunk > 0 && idx < total && idx % chunk == 0
    requires end == if idx + chunk < total then idx + chunk else total
    requires !Quiet(err, channels, idx, end)
    ensures QuietRun(err, channels, chunk, total, end, end)
  {
    NextBoundary(chunk, total, idx);
    forall a: nat | a < end && a % chunk == 0
      ensures !Quiet(err, channels, a, end)
    {
      if a > idx {
        MultiplesAreApart(chunk, a, idx);
      }
    }
  }

  lemma NoBreakYet(err: Errors, channels: nat, patience: int, chunk: nat, total: nat, start: nat, n: nat)
    requires chunk > 0 && QuietRun(err, channels, chunk, total, start, n)
    requires n - start < patience || start == n
    ensures !ChunkBreak(err, channels, patience, chunk, n)
  {
    forall a: nat | a < n && a % chunk == 0 && n - a >= patience
      ensures !Quiet(err, channels, a, n)
    {
      assert a < start;
      assert !Quiet(err, channels, a, start);
    }
  }

  // ----- The searches

  /** The state the three searches share after `n` candidates. */
  ghost predicate Holds(err: Errors, minVal: seq<real>, maxVal: seq<real>, grid: real, n: nat,
                        bestError: seq<Bound>, bestMin: seq<real>, bestMax: seq<real>)
    requires grid != 0.0
  {
    && bestError == Errors0(err, |minVal|, n)
    && bestMin == Ranges(err, minVal, grid, n)
    && bestMax == Ranges(err, maxVal, grid, n)
  }

  /** One candidate of the eager and importance loops: in-place, boolean-indexed updates. */
  method TryCandidate(err: Errors, minVal: seq<real>, maxVal: seq<real>, grid: real, i: nat,
                      bestError: array<Bound>, bestMin: array<real>, bestMax: array<real>)
    returns (any: bool)
    requires grid != 0.0 && |minVal| == |maxVal| == bestError.Length == bestMin.Length == bestMax.Length
    requires bestMin != bestMax
    requires Holds(err, minVal, maxVal, grid, i, bestError[..], bestMin[..], bestMax[..])
    modifies bestError, bestMin, bestMax
    ensures any <==> Improves(err, |minVal|, i)
    ensures Holds(err, minVal, maxVal, grid, i + 1, bestError[..], bestMin[..], bestMax[..])
  {
    ghost var errors, mins, maxs := bestError[..], bestMin[..], bestMax[..];
    assert forall c | 0 <= c < |minVal| :: bestError[c] == errors[c] && bestMin[c] == mins[c] && bestMax[c] == maxs[c];
    var improved := seq(|minVal|, c requires 0 <= c < |minVal| reads bestError => Below(err(i, c), bestError[c]));
    any := exists c | 0 <= c < |minVal| :: improved[c];
    if any {
      forall c | 0 <= c < |minVal| && improved[c] {
        bestError[c] := Some(err(i, c));
      }
      forall c | 0 <= c < |minVal| && improved[c] {
        bestMin[c] := Candidate(minVal[c], grid, i);
      }
      forall c | 0 <= c < |minVal| && improved[c] {
        bestMax[c] := Candidate(maxVal[c], grid, i);
      }
    }
    AfterCandidate(err, minVal, maxVal, grid, i, errors, mins, maxs, improved, bestError[..], bestMin[..], bestMax[..]);
  }

  lemma AfterCandidate(err: Errors, minVal: seq<real>, maxVal: seq<real>, grid: real, i: nat,
                       errors: seq<Bound>, mins: seq<real>, maxs: seq<real>, improved: seq<bool>,
                       errors': seq<Bound>, mins': seq<real>, maxs': seq<real>)
    requires grid != 0.0 && |minVal| == |maxVal| == |improved| == |errors'| == |mins'| == |maxs'|
    requires Holds(err, minVal, maxVal, grid, i, errors, mins, maxs)
    requires forall c | 0 <= c < |minVal| :: improved[c] == Below(err(i, c), errors[c])
    requires forall c | 0 <= c < |minVal| ::
               && errors'[c] == (if improved[c] then Some(err(i, c)) else errors[c])
               && mins'[c] == (if improved[c] then Candidate(minVal[c], grid, i) else mins[c])
               && maxs'[c] == (if improved[c] then Candidate(maxVal[c], grid, i) else maxs[c])
    ensures Holds(err, minVal, maxVal, grid, i + 1, errors', mins', maxs')
    ensures (exists c | 0 <= c < |minVal| :: improved[c]) <==> Improves(err, |minVal|, i)
  {
    forall c: nat | c < |minVal|
      ensures errors'[c] == BestError(err, c, i + 1)
      ensures mins'[c] == Scaled(minVal[c], BestStep(err, c, i + 1), grid)
      ensures maxs'[c] == Scaled(maxVal[c], BestStep(err, c, i + 1), grid)
      ensures improved[c] == Lowers(err, c, i)
    {
      assert errors[c] == BestError(err, c, i);
      assert mins[c] == Scaled(minVal[c], BestStep(err, c, i), grid);
      assert maxs[c] == Scaled(maxVal[c], BestStep(err, c, i), grid);
    }
    assert errors' == Errors0(err, |minVal|, i + 1);
    assert mins' == Ranges(err, minVal, grid, i + 1);
    assert maxs' == Ranges(err, maxVal, grid, i + 1);
  }

  method EagerSearch(err: Errors, minVal: seq<real>, maxVal: seq<real>, total: nat, patience: int, grid: real,
                     bestError: array<Bound>, bestMin: array<real>, bestMax: array<real>)
    returns (evaluated: nat)
    requires grid != 0.0 && |minVal| == |maxVal| == bestError.Length == bestMin.Length == bestMax.Length
    requires bestMin != bestMax
    requires bestMin[..] == minVal && bestMax[..] == maxVal
    requires forall c | 0 <= c < bestError.Length :: bestError[c] == None
    modifies bestError, bestMin, bestMax
    ensures IsEagerStop(err, |minVal|, total, patience, evaluated)
    ensures bestMin[..] == Ranges(err, minVal, grid, evaluated)
    ensures bestMax[..] == Ranges(err, maxVal, grid, evaluated)
    ensures Reports(err, minVal, grid, evaluated, bestMin[..]) && Reports(err, maxVal, grid, evaluated, bestMax[..])
  {
    var channels := |minVal|;
    var noImprove := 0;
    evaluated := 0;
    while evaluated < total
      invariant evaluated <= total
      invariant Holds(err, minVal, maxVal, grid, evaluated, bestError[..], bestMin[..], bestMax[..])
      invariant 0 <= noImprove <= evaluated
      invariant Quiet(err, channels, evaluated - noImprove, evaluated)
      invariant noImprove < evaluated ==> Improves(err, channels, evaluated - noImprove - 1)
      invariant forall k: nat | k <= evaluated :: !EagerBreak(err, channels, patience, k)
    {
      var any := TryCandidate(err, minVal, maxVal, grid, evaluated, bestError, bestMin, bestMax);
      evaluated := evaluated + 1;
      if any {
        noImprove := 0;
      } else {
        noImprove := noImprove + 1;
        if noImprove >= patience {
          assert EagerBreak(err, channels, patience, evaluated);
          break;
        }
      }
    }
    RangesReport(err, minVal, grid, evaluated);
    RangesReport(err, maxVal, grid, evaluated);
  }

  method ImportanceSearch(err: Errors, minVal: seq<real>, maxVal: seq<real>, total: nat, patience: int, grid: real,
                          bestError: array<Bound>, bestMin: array<real>, bestMax: array<real>)
    returns (evaluated: nat)
    requires grid != 0.0 && |minVal| == |maxVal| == bestError.Length == bestMin.Length == bestMax.Length
    requires bestMin != bestMax
    requires bestMin[..] == minVal && bestMax[..] == maxVal
    requires forall c | 0 <= c < bestError.Length :: bestError[c] == None
    modifies bestError, bestMin, bestMax
    ensures IsImportanceStop(err, |minVal|, total, patience, evaluated)
    ensures bestMin[..] == Ranges(err, minVal, grid, evaluated)
    ensures bestMax[..] == Ranges(err, maxVal, grid, evaluated)
    ensures Reports(err, minVal, grid, evaluated, bestMin[..]) && Reports(err, maxVal, grid, evaluated, bestMax[..])
  {
    var channels := |minVal|;
    var shrinkSteps := if total < 1 then 1 else total;
    var noImprove := 0;
    evaluated := 0;
    while evaluated < shrinkSteps + 1
      invariant evaluated <= shrinkSteps + 1
      invariant Holds(err, minVal, maxVal, grid, evaluated, bestError[..], bestMin[..], bestMax[..])
      invariant 0 <= noImprove <= evaluated
      invariant Quiet(err, channels, evaluated - noImprove, evaluated)
      invariant noImprove < evaluated ==> Improves(err, channels, evaluated - noImprove - 1)
      invariant forall k: nat | k <= evaluated :: !ImportanceBreak(err, channels, patience, k)
    {
      var any := TryCandidate(err, minVal, maxVal, grid, evaluated, bestError, bestMin, bestMax);
      evaluated := evaluated + 1;
      if any {
        noImprove := 0;
      } else {
        noImprove := noImprove + 1;
        if patience > 0 && noImprove >= patience {
          assert ImportanceBreak(err, channels, patience, evaluated);
          break;
        }
      }
    }
    RangesReport(err, minVal, grid, evaluated);
    RangesReport(err, maxVal, grid, evaluated);
  }

  /** A whole chunk of candidates, each step building new tensors (`torch.where`). */
  method ComputeChunk(err: Errors, minVal: seq<real>, maxVal: seq<real>, grid: real, idx: nat, size: nat,
                      bestError: seq<Bound>, bestMin: seq<real>, bestMax: seq<real>)
    returns (error: seq<Bound>, lo: seq<real>, hi: seq<real>)
    requires grid != 0.0 && |minVal| == |maxVal|
    requires Holds(err, minVal, maxVal, grid, idx, bestError, bestMin, bestMax)
    ensures Holds(err, minVal, maxVal, grid, idx + size, error, lo, hi)
    ensures Reports(err, minVal, grid, idx + size, lo) && Reports(err, maxVal, grid, idx + size, hi)
  {
    error, lo, hi := bestError, bestMin, bestMax;
    var n := |minVal|;
    for j := 0 to size
      invariant Holds(err, minVal, maxVal, grid, idx + j, error, lo, hi)
    {
      ghost var error0, lo0, hi0 := error, lo, hi;
      var prev := error;
      var improved := seq(n, c requires 0 <= c < n => Below(err(idx + j, c), prev[c]));
      error := seq(n, c requires 0 <= c < n => if improved[c] then Some(err(idx + j, c)) else prev[c]);
      var prevLo, prevHi := lo, hi;
      lo := seq(n, c requires 0 <= c < n => if improved[c] then Candidate(minVal[c], grid, idx + j) else prevLo[c]);
      hi := seq(n, c requires 0 <= c < n => if improved[c] then Candidate(maxVal[c], grid, idx + j) else prevHi[c]);
      AfterCandidate(err, minVal, maxVal, grid, idx + j, error0, lo0, hi0, improved, error, lo, hi);
    }
    RangesReport(err, minVal, grid, idx + size);
    RangesReport(err, maxVal, grid, idx + size);
  }

  method ChunkedSearch(err: Errors, minVal: seq<real>, maxVal: seq<real>, total: nat, patience: int, grid: real,
                       chunk: nat)
    returns (bestMin: seq<real>, bestMax: seq<real>, evaluated: nat)
    requires grid != 0.0 && |minVal| == |maxVal| && chunk > 0
    ensures IsChunkedStop(err, |minVal|, total, patience, chunk, evaluated)
    ensures bestMin == Ranges(err, minVal, grid, evaluated)
    ensures bestMax == Ranges(err, maxVal, grid, evaluated)
    ensures Reports(err, minVal, grid, evaluated, bestMin) && Reports(err, maxVal, grid, evaluated, bestMax)
  {
    var channels := |minVal|;
    var bestError: seq<Bound> := seq(channels, _ => None);
    bestMin, bestMax := minVal, maxVal;
    var noImprove := 0;
    var idx := 0;
    evaluated := 0;
    ghost var start: nat := 0;   // where the current run of whole quiet chunks begins
    while idx < total
      invariant idx <= total && evaluated == idx && IsBoundary(chunk, total, idx)
      invariant Holds(err, minVal, maxVal, grid, idx, bestError, bestMin, bestMax)
      invariant QuietRun(err, channels, chunk, total, start, idx) && noImprove == idx - start
      invariant forall k: nat | k <= idx && IsBoundary(chunk, total, k) ::
                  !ChunkBreak(err, channels, patience, chunk, k)
    {
      var chunkEnd := if idx + chunk < total then idx + chunk else total;
      var current := chunkEnd - idx;
      var prevBest := bestError;
      bestError, bestMin, bestMax :=
        ComputeChunk(err, minVal, maxVal, grid, idx, current, bestError, bestMin, bestMax);
      EqualErrorsMeanQuiet(err, channels, idx, chunkEnd);
      NextBoundary(chunk, total, idx);
      evaluated := chunkEnd;
      if prevBest == bestError {
        noImprove := noImprove + current;
        if noImprove >= patience {
          assert start < chunkEnd && chunkEnd - start >= patience && Quiet(err, channels, start, chunkEnd);
          assert ChunkBreak(err, channels, patience, chunk, chunkEnd);
          break;
        }
      } else {
        noImprove := 0;
        LoudChunk(err, channels, chunk, total, idx, chunkEnd);
        start := chunkEnd;
      }
      NoBreakYet(err, channels, patience, chunk, total, start, chunkEnd);
      idx := chunkEnd;
    }
    RangesReport(err, minVal, grid, evaluated);
    RangesReport(err, maxVal, grid, evaluated);
  }
}
