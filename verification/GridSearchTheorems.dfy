/** How the three searches relate: what the chunked and importance searches
    evaluate compared with the eager one, and by how much they overshoot it. */
module GridSearchTheorems {
  import opened Arith
  import opened Prelude
  import opened GridSearch

  /** The chunked search evaluates every candidate the eager search does. */
  lemma ChunkedCoversEager(err: Errors, channels: nat, total: nat, patience: int, chunk: nat, eager: nat, chunked: nat)
    requires chunk > 0
    requires IsEagerStop(err, channels, total, patience, eager)
    requires IsChunkedStop(err, channels, total, patience, chunk, chunked)
    ensures eager <= chunked
  {
    if chunked < total {
      var a: nat :| a < chunked && a % chunk == 0 && chunked - a >= patience && Quiet(err, channels, a, chunked);
      assert EagerBreak(err, channels, patience, a + Tolerance(patience));
    }
  }

  /** ... so on each channel it keeps the eager candidate, or one with a strictly smaller
      error; and it reports the eager ranges when the eager search walks every candidate. */
  lemma ChunkedIsNoWorse(err: Errors, channels: nat, total: nat, patience: int, chunk: nat,
                         eager: nat, chunked: nat, c: nat, ends: seq<real>, grid: real)
    requires chunk > 0 && grid != 0.0 && total > 0
    requires IsEagerStop(err, channels, total, patience, eager)
    requires IsChunkedStop(err, channels, total, patience, chunk, chunked)
    ensures var e, k := BestStep(err, c, eager), BestStep(err, c, chunked);
            e.Some? && k.Some? && (k == e || err(k.value, c) < err(e.value, c))
    ensures eager == total ==> Ranges(err, ends, grid, chunked) == Ranges(err, ends, grid, eager)
  {
    ChunkedCoversEager(err, channels, total, patience, chunk, eager, chunked);
    assert !EagerBreak(err, channels, patience, 0);
    LaterIsNoWorse(err, c, eager, chunked);
  }

  lemma {:induction false} LaterIsNoWorse(err: Errors, c: nat, n: nat, m: nat)
    requires 0 < n <= m
    ensures var a, b := BestStep(err, c, n), BestStep(err, c, m);
            a.Some? && b.Some? && (b == a || err(b.value, c) < err(a.value, c))
  {
    if n < m {
      LaterIsNoWorse(err, c, n, m - 1);
    }
  }

  // ----- The exact overshoot

  /** The least multiple of `chunk` that is at least `p`. */
  function RoundUp(chunk: nat, p: nat): (r: nat)
    requires chunk > 0
    ensures p <= r < p + chunk
  {
    if p % chunk == 0 then p else p + (chunk - p % chunk)
  }

  lemma RoundUpIsLeast(chunk: nat, p: nat)
    requires chunk > 0
    ensures RoundUp(chunk, p) % chunk == 0
    ensures forall x: nat | x >= p && x % chunk == 0 :: x >= RoundUp(chunk, p)
  {
    var q, r := p / chunk, p % chunk;
    if r != 0 {
      DivModUnique(p + (chunk - r), chunk, q + 1, 0);
    }
    forall x: nat | x >= p && x % chunk == 0
      ensures x >= RoundUp(chunk, p)
    {
      if r != 0 {
        DivModUnique(p - r, chunk, q, 0);
        MultiplesAreApart(chunk, x, p - r);
      }
    }
  }

  lemma MultiplesAdd(chunk: nat, x: nat, y: nat)
    requires chunk > 0 && x % chunk == 0 && y % chunk == 0
    ensures (x + y) % chunk == 0
    ensures x <= y ==> (y - x) % chunk == 0
  {
    var i, j := x / chunk, y / chunk;
    assert x == chunk * i && y == chunk * j;
    DivModUnique(x + y, chunk, i + j, 0);
    DivModUnique(y - x, chunk, j - i, 0);
  }

  /** The most candidates the chunked search can evaluate past the eager stop. */
  function WorstOvershoot(chunk: nat, patience: int): nat
    requires chunk > 0
  {
    var p := Tolerance(patience);
    chunk - 1 + (RoundUp(chunk, p) - p)
  }

  /** Both searches stop where they would stop with a patience of at least one. */
  lemma SamePatience(err: Errors, channels: nat, total: nat, patience: int, chunk: nat, n: nat)
    requires chunk > 0
    ensures IsEagerStop(err, channels, total, patience, n) <==>
            IsEagerStop(err, channels, total, Tolerance(patience), n)
    ensures IsChunkedStop(err, channels, total, patience, chunk, n) <==>
            IsChunkedStop(err, channels, total, Tolerance(patience), chunk, n)
  {
    forall k: nat
      ensures EagerBreak(err, channels, patience, k) <==> EagerBreak(err, channels, Tolerance(patience), k)
      ensures ChunkBreak(err, channels, patience, chunk, k)
              <==> ChunkBreak(err, channels, Tolerance(patience), chunk, k)
    {
    }
  }

  /** When no candidate past the eager stop improves, `bound` is never exceeded. */
  ghost predicate OvershootWithin(chunk: nat, patience: int, bound: nat)
    requires chunk > 0
  {
    forall err: Errors, channels: nat, total: nat, eager: nat, chunked: nat ::
      IsEagerStop(err, channels, total, patience, eager) &&
      IsChunkedStop(err, channels, total, patience, chunk, chunked) &&
      Quiet(err, channels, eager, total)
      ==> chunked <= eager + bound
  }

  lemma OvershootBound(err: Errors, channels: nat, total: nat, patience: int, chunk: nat, eager: nat, chunked: nat)
    requires chunk > 0
    requires IsEagerStop(err, channels, total, patience, eager)
    requires IsChunkedStop(err, channels, total, patience, chunk, chunked)
    requires Quiet(err, channels, eager, total)
    ensures chunked <= eager + WorstOvershoot(chunk, patience)
    decreases patience < 1
  {
    if patience < 1 {
      SamePatience(err, channels, total, patience, chunk, eager);
      SamePatience(err, channels, total, patience, chunk, chunked);
      OvershootBound(err, channels, total, 1, chunk, eager, chunked);
    } else if eager < total {
      var quietFrom := eager - patience;
      var a := RoundUp(chunk, quietFrom);
      var n := a + RoundUp(chunk, patience);
      RoundUpIsLeast(chunk, quietFrom);
      RoundUpIsLeast(chunk, patience);
      MultiplesAdd(chunk, a, RoundUp(chunk, patience));
      if n <= total {
        assert Quiet(err, channels, a, n);
        assert IsBoundary(chunk, total, n) && ChunkBreak(err, channels, patience, chunk, n);
      }
    }
  }

  /** Only the first candidate improves. */
  function FirstIsBest(): Errors {
    (i: nat, _: nat) => if i == 0 then 0.0 else 1.0
  }

  lemma {:induction false} FirstIsKept(n: nat)
    requires n > 0
    ensures BestStep(FirstIsBest(), 0, n) == Some(0)
  {
    if n > 1 {
      FirstIsKept(n - 1);
    }
  }

  lemma FirstIsBestQuiet(i: nat)
    ensures Improves(FirstIsBest(), 1, i) <==> i == 0
  {
    if i == 0 {
      assert Lowers(FirstIsBest(), 0, 0);
    } else {
      FirstIsKept(i);
    }
  }

  lemma OvershootIsReached(chunk: nat, patience: int) returns (total: nat, eager: nat, chunked: nat)
    requires chunk > 0
    ensures IsEagerStop(FirstIsBest(), 1, total, patience, eager)
    ensures IsChunkedStop(FirstIsBest(), 1, total, patience, chunk, chunked)
    ensures Quiet(FirstIsBest(), 1, eager, total)
    ensures chunked == eager + WorstOvershoot(chunk, patience)
  {
    total, eager, chunked := OvershootIsReachedAt(chunk, Tolerance(patience));
    SamePatience(FirstIsBest(), 1, total, patience, chunk, eager);
    SamePatience(FirstIsBest(), 1, total, patience, chunk, chunked);
  }

  lemma OvershootIsReachedAt(chunk: nat, patience: nat) returns (total: nat, eager: nat, chunked: nat)
    requires chunk > 0 && patience > 0
    ensures IsEagerStop(FirstIsBest(), 1, total, patience, eager)
    ensures IsChunkedStop(FirstIsBest(), 1, total, patience, chunk, chunked)
    ensures Quiet(FirstIsBest(), 1, eager, total)
    ensures chunked == eager + WorstOvershoot(chunk, patience)
  {
    var err := FirstIsBest();
    var width := RoundUp(chunk, patience);
    eager, chunked := 1 + patience, chunk + width;
    total := chunked + 1;
    forall i: nat {
      FirstIsBestQuiet(i);
    }
    RoundUpIsLeast(chunk, patience);
    MultiplesAdd(chunk, chunk, width);
    assert Quiet(err, 1, eager - patience, eager) && EagerBreak(err, 1, patience, eager);
    forall k: nat | k < eager ensures !EagerBreak(err, 1, patience, k) {
      assert k >= patience ==> k - patience == 0 && Improves(err, 1, 0);
    }
    assert Quiet(err, 1, eager, total);
    assert Quiet(err, 1, chunk, chunked);
    assert ChunkBreak(err, 1, patience, chunk, chunked);
    forall k: nat | k < chunked && IsBoundary(chunk, total, k)
      ensures !ChunkBreak(err, 1, patience, chunk, k)
    {
      forall a: nat | a < k && a % chunk == 0 && k - a >= patience
        ensures !Quiet(err, 1, a, k)
      {
        if a == 0 {
          assert Improves(err, 1, 0);
        } else {
          MultiplesAdd(chunk, a, k);
          MultiplesAreApart(chunk, a, 0);
        }
      }
    }
  }

  /** The overshoot bound, exactly: it lies between chunk - 1 and 2 * (chunk - 1), and the
      documented chunk - 1 is a bound if and only if the chunk size divides the patience, or 1 for a
      patience below 1. */
  lemma OvershootExactly(chunk: nat, patience: int, bound: nat)
    requires chunk > 0
    ensures OvershootWithin(chunk, patience, bound) <==> bound >= WorstOvershoot(chunk, patience)
    ensures OvershootWithin(chunk, patience, 2 * (chunk - 1))
    ensures OvershootWithin(chunk, patience, chunk - 1) <==> Tolerance(patience) % chunk == 0
  {
    forall err: Errors, channels: nat, total: nat, eager: nat, chunked: nat |
      IsEagerStop(err, channels, total, patience, eager) &&
      IsChunkedStop(err, channels, total, patience, chunk, chunked) &&
      Quiet(err, channels, eager, total)
      ensures chunked <= eager + WorstOvershoot(chunk, patience)
    {
      OvershootBound(err, channels, total, patience, chunk, eager, chunked);
    }
    var total, eager, chunked := OvershootIsReached(chunk, patience);
  }

  /** Improvements at the first `first` candidates, then a lull of `patience`, then forever. */
  function Revival(first: nat, stop: nat): Errors {
    (i: nat, _: nat) => if first <= i < stop then 1.0 else 0.0 - i as real
  }

  /** With improvements past the eager stop nothing bounds the overshoot, unless chunks are single steps. */
  lemma OvershootUnbounded(chunk: nat, patience: int, extra: nat)
    returns (err: Errors, total: nat, eager: nat, chunked: nat)
    requires chunk > 1
    ensures IsEagerStop(err, 1, total, patience, eager)
    ensures IsChunkedStop(err, 1, total, patience, chunk, chunked)
    ensures chunked > eager + extra
  {
    err, total, eager, chunked := OvershootUnboundedAt(chunk, Tolerance(patience), extra);
    SamePatience(err, 1, total, patience, chunk, eager);
    SamePatience(err, 1, total, patience, chunk, chunked);
  }

  lemma OvershootUnboundedAt(chunk: nat, patience: nat, extra: nat)
    returns (err: Errors, total: nat, eager: nat, chunked: nat)
    requires chunk > 1 && patience > 0
    ensures IsEagerStop(err, 1, total, patience, eager)
    ensures IsChunkedStop(err, 1, total, patience, chunk, chunked)
    ensures chunked > eager + extra
  {
    var first := if (1 + patience) % chunk == 0 then 2 else 1;
    eager := first + patience;
    if first == 2 {
      DivModUnique(eager, chunk, (1 + patience) / chunk, 1);
    }
    total := eager + extra + 1;
    chunked := total;
    err := Revival(first, eager);
    forall i: nat
      ensures Improves(err, 1, i) <==> !(first <= i < eager)
    {
      RevivalImproves(first, eager, i);
    }
    forall k: nat | k < eager
      ensures !EagerBreak(err, 1, patience, k)
    {
      assert k >= patience ==> Improves(err, 1, k - patience);
    }
    forall k: nat | k < chunked && IsBoundary(chunk, total, k)
      ensures !ChunkBreak(err, 1, patience, chunk, k)
    {
      forall a: nat | a < k && a % chunk == 0 && k - a >= patience
        ensures !Quiet(err, 1, a, k)
      {
        if a < first {
          assert Improves(err, 1, a);
        } else {
          assert k >= eager && k != eager;
          assert Improves(err, 1, k - 1);
        }
      }
    }
  }

  lemma RevivalImproves(first: nat, stop: nat, i: nat)
    requires 0 < first <= 2 && first < stop
    ensures Improves(Revival(first, stop), 1, i) <==> !(first <= i < stop)
  {
    if i > 0 {
      RevivalKeeps(first, stop, i);
    }
    assert Lowers(Revival(first, stop), 0, i) <==> !(first <= i < stop);
  }

  lemma {:induction false} RevivalKeeps(first: nat, stop: nat, n: nat)
    requires n > 0 && 0 < first <= 2 && first < stop
    ensures BestStep(Revival(first, stop), 0, n) ==
            Some(if first < n <= stop then first - 1 else n - 1)
  {
    if n > 1 {
      RevivalKeeps(first, stop, n - 1);
    }
  }

  /** With chunks of one candidate the two searches stop together, whatever the errors. */
  lemma SingleStepChunks(err: Errors, channels: nat, total: nat, patience: int, eager: nat, chunked: nat)
    requires IsEagerStop(err, channels, total, patience, eager)
    requires IsChunkedStop(err, channels, total, patience, 1, chunked)
    ensures eager == chunked
  {
    ChunkedCoversEager(err, channels, total, patience, 1, eager, chunked);
    if eager < total {
      var a := eager - Tolerance(patience);
      assert a % 1 == 0 && eager % 1 == 0;
      assert ChunkBreak(err, channels, patience, 1, eager);
    }
  }

  // ----- The importance search

  /** With no weights the importance search evaluates every candidate the eager search does,
      and exactly those when the eager search stops early on a positive patience. */
  lemma ImportanceCoversEager(err: Errors, channels: nat, total: nat, patience: int, eager: nat, weighted: nat)
    requires IsEagerStop(err, channels, total, patience, eager)
    requires IsImportanceStop(err, channels, total, patience, weighted)
    ensures eager <= weighted
    ensures patience > 0 && eager < total ==> weighted == eager
    ensures patience <= 0 ==> weighted == (if total < 1 then 1 else total) + 1
  {
    assert weighted < eager ==> !EagerBreak(err, channels, patience, weighted);
    if patience > 0 && eager < total {
      assert ImportanceBreak(err, channels, patience, eager);
    }
  }

  lemma ImportanceIsNoWorse(err: Errors, channels: nat, total: nat, patience: int, eager: nat, weighted: nat, c: nat)
    requires total > 0
    requires IsEagerStop(err, channels, total, patience, eager)
    requires IsImportanceStop(err, channels, total, patience, weighted)
    ensures var e, w := BestStep(err, c, eager), BestStep(err, c, weighted);
            e.Some? && w.Some? && (w == e || err(w.value, c) < err(e.value, c))
  {
    ImportanceCoversEager(err, channels, total, patience, eager, weighted);
    assert !EagerBreak(err, channels, patience, 0);
    LaterIsNoWorse(err, c, eager, weighted);
  }
}
