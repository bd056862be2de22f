/** Length-aware batching: samples are taken in descending length and cut into
    consecutive batches.  Collating a batch either truncates every sample to the
    shortest or pads every sample to the longest. */
module LengthAwareBatching {
  import opened Arith
  import opened Prelude

  // ----- The cost of a batching

  function MinOf(s: seq<nat>): nat
    requires |s| > 0
  {
    if |s| == 1 then s[0] else
    var rest := MinOf(s[1..]);
    if s[0] < rest then s[0] else rest
  }

  function MaxOf(s: seq<nat>): nat
    requires |s| > 0
  {
    if |s| == 1 then s[0] else
    var rest := MaxOf(s[1..]);
    if s[0] > rest then s[0] else rest
  }

  lemma {:induction false} MinIs(s: seq<nat>)
    requires |s| > 0
    ensures MinOf(s) in s && forall i | 0 <= i < |s| :: MinOf(s) <= s[i]
  {
    if |s| > 1 {
      MinIs(s[1..]);
      assert forall i | 0 < i < |s| :: s[i] == s[1..][i - 1];
    }
  }

  lemma {:induction false} MaxIs(s: seq<nat>)
    requires |s| > 0
    ensures MaxOf(s) in s && forall i | 0 <= i < |s| :: s[i] <= MaxOf(s)
  {
    if |s| > 1 {
      MaxIs(s[1..]);
      assert forall i | 0 < i < |s| :: s[i] == s[1..][i - 1];
    }
  }

  function Sum(s: seq<nat>): nat {
    if |s| == 0 then 0 else s[0] + Sum(s[1..])
  }

  /** How much the first number exceeds the second. */
  function Excess(x: nat, y: nat): nat {
    if x >= y then x - y else 0
  }

  /** Tokens lost when every sample is truncated to length `to`. */
  function Truncated(s: seq<nat>, to: nat): nat {
    if |s| == 0 then 0 else Excess(s[0], to) + Truncated(s[1..], to)
  }

  /** Tokens added when every sample is padded to length `to`. */
  function Padded(s: seq<nat>, to: nat): nat {
    if |s| == 0 then 0 else Excess(to, s[0]) + Padded(s[1..], to)
  }

  /** The first batch: up to `b` samples. */
  function Head(s: seq<nat>, b: nat): seq<nat> {
    if |s| <= b then s else s[..b]
  }

  function Tail(s: seq<nat>, b: nat): seq<nat> {
    if |s| <= b then [] else s[b..]
  }

  function Removed(s: seq<nat>, b: nat): nat
    requires b > 0
    decreases |s|
  {
    if |s| == 0 then 0 else Truncated(Head(s, b), MinOf(Head(s, b))) + Removed(Tail(s, b), b)
  }

  function Added(s: seq<nat>, b: nat): nat
    requires b > 0
    decreases |s|
  {
    if |s| == 0 then 0 else Padded(Head(s, b), MaxOf(Head(s, b))) + Added(Tail(s, b), b)
  }

  predicate Descending(s: seq<nat>) {
    forall i, j | 0 <= i < j < |s| :: s[i] >= s[j]
  }

  // ----- Sums of batch extremes, counted level by level

  function Least(x: nat, y: nat): nat {
    if x < y then x else y
  }

  /** `n` times `x`. */
  function Times(n: nat, x: nat): nat {
    if n == 0 then 0 else x + Times(n - 1, x)
  }

  /** The tokens kept when batches are truncated, lengths above `cap` counting as `cap`. */
  function Kept(s: seq<nat>, b: nat, cap: nat): nat
    requires b > 0
    decreases |s|
  {
    if |s| == 0 then 0 else Times(|Head(s, b)|, Least(MinOf(Head(s, b)), cap)) + Kept(Tail(s, b), b, cap)
  }

  /** The tokens there are after padding, lengths above `cap` counting as `cap`. */
  function Filled(s: seq<nat>, b: nat, cap: nat): nat
    requires b > 0
    decreases |s|
  {
    if |s| == 0 then 0 else Times(|Head(s, b)|, Least(MaxOf(Head(s, b)), cap)) + Filled(Tail(s, b), b, cap)
  }

  /** How many samples are in batches whose samples are all at least `v` long. */
  function InFull(s: seq<nat>, b: nat, v: nat): nat
    requires b > 0
    decreases |s|
  {
    if |s| == 0 then 0 else (if MinOf(Head(s, b)) >= v then |Head(s, b)| else 0) + InFull(Tail(s, b), b, v)
  }

  /** How many samples are in batches with a sample at least `v` long. */
  function InTouched(s: seq<nat>, b: nat, v: nat): nat
    requires b > 0
    decreases |s|
  {
    if |s| == 0 then 0 else (if MaxOf(Head(s, b)) >= v then |Head(s, b)| else 0) + InTouched(Tail(s, b), b, v)
  }

  /** How many samples are at least `v` long. */
  function AtLeast(s: seq<nat>, v: nat): (n: nat)
    ensures n <= |s|
  {
    if |s| == 0 then 0 else (if s[0] >= v then 1 else 0) + AtLeast(s[1..], v)
  }

  lemma {:induction false} AtLeastExtremes(s: seq<nat>, v: nat)
    ensures AtLeast(s, v) == |s| <==> forall i | 0 <= i < |s| :: s[i] >= v
    ensures AtLeast(s, v) == 0 <==> forall i | 0 <= i < |s| :: s[i] < v
  {
    if |s| > 0 {
      var rest := s[1..];
      AtLeastExtremes(rest, v);
      assert forall i | 0 < i < |s| :: s[i] == rest[i - 1];
      assert forall i | 0 <= i < |rest| :: rest[i] == s[i + 1];
    }
  }

  lemma {:induction false} AtLeastSplits(s: seq<nat>, t: seq<nat>, v: nat)
    ensures AtLeast(s + t, v) == AtLeast(s, v) + AtLeast(t, v)
    ensures Sum(s + t) == Sum(s) + Sum(t)
  {
    if |s| == 0 {
      assert s + t == t;
    } else {
      assert (s + t)[1..] == s[1..] + t;
      AtLeastSplits(s[1..], t, v);
    }
  }

  /** Counts and sums do not depend on the order of the samples. */
  lemma {:induction false} CountsUnordered(s: seq<nat>, t: seq<nat>, v: nat)
    requires multiset(s) == multiset(t)
    ensures |s| == |t| && AtLeast(s, v) == AtLeast(t, v) && Sum(s) == Sum(t)
  {
    if |s| == 0 {
      assert |multiset(t)| == 0;
    } else {
      assert s[0] in multiset(t);
      var k :| 0 <= k < |t| && t[k] == s[0];
      TakenOut(s, t, k);
      CountsUnordered(s[1..], t[..k] + t[k + 1..], v);
      CountedWithout(t, k, v);
    }
  }

  lemma TakenOut(s: seq<nat>, t: seq<nat>, k: nat)
    requires |s| > 0 && k < |t| && multiset(s) == multiset(t) && t[k] == s[0]
    ensures multiset(s[1..]) == multiset(t[..k] + t[k + 1..])
  {
    assert s == [s[0]] + s[1..];
    assert t == t[..k] + ([t[k]] + t[k + 1..]);
    assert multiset(s) == multiset{s[0]} + multiset(s[1..]);
    assert multiset(t) == multiset{s[0]} + multiset(t[..k] + t[k + 1..]);
    assert multiset(s[1..]) == multiset(s) - multiset{s[0]} == multiset(t) - multiset{s[0]};
  }

  lemma CountedWithout(t: seq<nat>, k: nat, v: nat)
    requires k < |t|
    ensures var rest := t[..k] + t[k + 1..];
            AtLeast(t, v) == AtLeast(rest, v) + (if t[k] >= v then 1 else 0) && Sum(t) == Sum(rest) + t[k]
  {
    var left, right := t[..k], t[k + 1..];
    assert t == left + ([t[k]] + right);
    AtLeastSplits(left, [t[k]] + right, v);
    AtLeastSplits([t[k]], right, v);
    AtLeastSplits(left, right, v);
  }

  lemma {:induction false} TimesNext(n: nat, x: nat)
    ensures Times(n, x + 1) == Times(n, x) + n
  {
    if n > 0 {
      TimesNext(n - 1, x);
    }
  }

  lemma NextCap(n: nat, x: nat, v: nat)
    ensures Times(n, Least(x, v + 1)) == Times(n, Least(x, v)) + (if x >= v + 1 then n else 0)
  {
    if x >= v + 1 {
      TimesNext(n, v);
    }
  }

  lemma {:induction false} LevelByLevel(s: seq<nat>, b: nat, v: nat)
    requires b > 0
    ensures Kept(s, b, v + 1) == Kept(s, b, v) + InFull(s, b, v + 1)
    ensures Filled(s, b, v + 1) == Filled(s, b, v) + InTouched(s, b, v + 1)
    decreases |s|
  {
    if |s| > 0 {
      LevelByLevel(Tail(s, b), b, v);
      NextCap(|Head(s, b)|, MinOf(Head(s, b)), v);
      NextCap(|Head(s, b)|, MaxOf(Head(s, b)), v);
    }
  }

  lemma {:induction false} NothingAtLevelZero(s: seq<nat>, b: nat)
    requires b > 0
    ensures Kept(s, b, 0) == 0 && Filled(s, b, 0) == 0
    decreases |s|
  {
    if |s| > 0 {
      NothingAtLevelZero(Tail(s, b), b);
      TimesZero(|Head(s, b)|);
    }
  }

  lemma {:induction false} TimesZero(n: nat)
    ensures Times(n, 0) == 0
  {
    if n > 0 {
      TimesZero(n - 1);
    }
  }

  /** The first batch at level `v`. */
  lemma FirstAtLevel(s: seq<nat>, b: nat, v: nat)
    requires b > 0 && |s| > 0
    ensures var head, tail := Head(s, b), Tail(s, b);
            && |head| > 0 && |tail| < |s| && AtLeast(s, v) == AtLeast(head, v) + AtLeast(tail, v)
            && (MinOf(head) >= v <==> AtLeast(head, v) == |head|)
            && (MaxOf(head) < v <==> AtLeast(head, v) == 0)
  {
    var head, tail := Head(s, b), Tail(s, b);
    assert s == head + tail;
    AtLeastSplits(head, tail, v);
    AtLeastExtremes(head, v);
    MinIs(head);
    MaxIs(head);
  }

  /** In any batching, the samples at least `v` long cover the full batches and fit in the touched ones. */
  lemma {:induction false} BatchesBounded(s: seq<nat>, b: nat, v: nat)
    requires b > 0
    ensures InFull(s, b, v) <= AtLeast(s, v) <= InTouched(s, b, v)
    decreases |s|
  {
    if |s| > 0 {
      FirstAtLevel(s, b, v);
      BatchesBounded(Tail(s, b), b, v);
    }
  }

  lemma AddBatch(b: nat, x: nat, y: nat)
    requires b > 0 && x % b == 0 && (y == x || y == x + b)
    ensures y % b == 0
  {
    NextMultiple(b, x);
  }

  lemma NoRoom(b: nat, x: nat, y: nat)
    requires b > 0 && x % b == 0 && y % b == 0 && x < y + b
    ensures x <= y
  {
    if x > y {
      MultiplesAreApart(b, x, y);
    }
  }

  lemma {:induction false} WholeBatches(s: seq<nat>, b: nat, v: nat)
    requires b > 0 && |s| % b == 0
    ensures InFull(s, b, v) % b == 0 && InTouched(s, b, v) % b == 0
    decreases |s|
  {
    if |s| > 0 {
      HeadTail(s, b);
      WholeBatches(Tail(s, b), b, v);
      var full, touched := InFull(Tail(s, b), b, v), InTouched(Tail(s, b), b, v);
      AddBatch(b, full, InFull(s, b, v));
      AddBatch(b, touched, InTouched(s, b, v));
    }
  }

  lemma HeadTail(s: seq<nat>, b: nat)
    requires b > 0 && |s| > 0 && |s| % b == 0
    ensures |Head(s, b)| == b && |Tail(s, b)| % b == 0
  {
    MultiplesAreApart(b, |s|, 0);
    DivModUnique(|s| - b, b, |s| / b - 1, 0);
  }

  /** In descending order the batches are filled one after the other. */
  lemma {:induction false} BatchesOfDescending(s: seq<nat>, b: nat, v: nat)
    requires b > 0 && |s| % b == 0 && Descending(s)
    ensures AtLeast(s, v) < InFull(s, b, v) + b
    ensures InTouched(s, b, v) < AtLeast(s, v) + b
    decreases |s|
  {
    if |s| > 0 {
      var head, tail := Head(s, b), Tail(s, b);
      HeadTail(s, b);
      FirstAtLevel(s, b, v);
      assert s == head + tail;
      ShortAfterShort(head, tail, v);
      BatchesBounded(tail, b, v);
      BatchesOfDescending(tail, b, v);
      if AtLeast(tail, v) == 0 {
        WholeBatches(tail, b, v);
        NoneTouched(tail, b, v);
      }
    }
  }

  lemma {:induction false} NoneTouched(s: seq<nat>, b: nat, v: nat)
    requires b > 0 && AtLeast(s, v) == 0
    ensures InTouched(s, b, v) == 0
    decreases |s|
  {
    if |s| > 0 {
      FirstAtLevel(s, b, v);
      NoneTouched(Tail(s, b), b, v);
    }
  }

  /** Once a batch has a sample shorter than `v`, all later samples are shorter. */
  lemma ShortAfterShort(head: seq<nat>, tail: seq<nat>, v: nat)
    requires Descending(head + tail)
    ensures Descending(tail)
    ensures AtLeast(head, v) < |head| ==> AtLeast(tail, v) == 0
  {
    var s := head + tail;
    assert forall j | 0 <= j < |tail| :: tail[j] == s[|head| + j];
    AtLeastExtremes(head, v);
    AtLeastExtremes(tail, v);
    if i :| 0 <= i < |head| && head[i] < v {
      assert s[i] == head[i];
    }
  }

  // ----- The optimality theorem

  /** At every level, the descending order has the most samples in full batches and touches the fewest. */
  lemma BestAtLevel(s: seq<nat>, t: seq<nat>, b: nat, v: nat)
    requires b > 0 && |s| % b == 0 && Descending(s) && multiset(s) == multiset(t)
    ensures InFull(t, b, v) <= InFull(s, b, v) && InTouched(s, b, v) <= InTouched(t, b, v)
  {
    CountsUnordered(s, t, v);
    BatchesBounded(t, b, v);
    BatchesOfDescending(s, b, v);
    WholeBatches(s, b, v);
    WholeBatches(t, b, v);
    NoRoom(b, InFull(t, b, v), InFull(s, b, v));
    NoRoom(b, InTouched(s, b, v), InTouched(t, b, v));
  }

  /** So it keeps the most and pads the least. */
  lemma {:induction false} DescendingIsBestUpTo(s: seq<nat>, t: seq<nat>, b: nat, cap: nat)
    requires b > 0 && |s| % b == 0 && Descending(s) && multiset(s) == multiset(t)
    ensures Kept(t, b, cap) <= Kept(s, b, cap) && Filled(s, b, cap) <= Filled(t, b, cap)
  {
    if cap == 0 {
      NothingAtLevelZero(s, b);
      NothingAtLevelZero(t, b);
    } else {
      DescendingIsBestUpTo(s, t, b, cap - 1);
      BestAtLevel(s, t, b, cap);
      NextLevel(s, t, b, cap - 1);
    }
  }

  lemma NextLevel(s: seq<nat>, t: seq<nat>, b: nat, v: nat)
    requires b > 0 && Kept(t, b, v) <= Kept(s, b, v) && Filled(s, b, v) <= Filled(t, b, v)
    requires InFull(t, b, v + 1) <= InFull(s, b, v + 1) && InTouched(s, b, v + 1) <= InTouched(t, b, v + 1)
    ensures Kept(t, b, v + 1) <= Kept(s, b, v + 1) && Filled(s, b, v + 1) <= Filled(t, b, v + 1)
  {
    LevelByLevel(s, b, v);
    LevelByLevel(t, b, v);
  }

  /** What is removed and kept, or added and there already, make up the whole. */
  lemma {:induction false} CostsBySums(s: seq<nat>, b: nat, cap: nat)
    requires b > 0 && forall i | 0 <= i < |s| :: s[i] <= cap
    ensures Removed(s, b) + Kept(s, b, cap) == Sum(s)
    ensures Added(s, b) + Sum(s) == Filled(s, b, cap)
    decreases |s|
  {
    if |s| > 0 {
      var head, tail := Head(s, b), Tail(s, b);
      HeadAndTail(s, b, cap);
      CostsOfBatch(head, cap);
      CostsBySums(tail, b, cap);
    }
  }

  lemma HeadAndTail(s: seq<nat>, b: nat, cap: nat)
    requires b > 0 && |s| > 0 && forall i | 0 <= i < |s| :: s[i] <= cap
    ensures |Head(s, b)| > 0 && |Tail(s, b)| < |s| && Sum(s) == Sum(Head(s, b)) + Sum(Tail(s, b))
    ensures forall i | 0 <= i < |Head(s, b)| :: Head(s, b)[i] <= cap
    ensures forall i | 0 <= i < |Tail(s, b)| :: Tail(s, b)[i] <= cap
  {
    var head, tail := Head(s, b), Tail(s, b);
    assert s == head + tail;
    AtLeastSplits(head, tail, 0);
    assert forall i | 0 <= i < |head| :: head[i] == s[i];
    assert forall i | 0 <= i < |tail| :: tail[i] == s[|head| + i];
  }

  lemma CostsOfBatch(s: seq<nat>, cap: nat)
    requires |s| > 0 && forall i | 0 <= i < |s| :: s[i] <= cap
    ensures Truncated(s, MinOf(s)) + Times(|s|, Least(MinOf(s), cap)) == Sum(s)
    ensures Padded(s, MaxOf(s)) + Sum(s) == Times(|s|, Least(MaxOf(s), cap))
  {
    MinIs(s);
    MaxIs(s);
    TruncatedSum(s, MinOf(s));
    PaddedSum(s, MaxOf(s));
    assert MinOf(s) <= s[0];
  }

  lemma {:induction false} TruncatedSum(s: seq<nat>, to: nat)
    requires forall i | 0 <= i < |s| :: to <= s[i]
    ensures Truncated(s, to) + Times(|s|, to) == Sum(s)
  {
    if |s| > 0 {
      TruncatedSum(s[1..], to);
    }
  }

  lemma {:induction false} PaddedSum(s: seq<nat>, to: nat)
    requires forall i | 0 <= i < |s| :: s[i] <= to
    ensures Padded(s, to) + Sum(s) == Times(|s|, to)
  {
    if |s| > 0 {
      PaddedSum(s[1..], to);
    }
  }

  /** No other order of the samples, cut into batches the same way, loses fewer tokens. */
  ghost predicate LeastRemoved(s: seq<nat>, b: nat)
    requires b > 0
  {
    forall t: seq<nat> | multiset(t) == multiset(s) :: Removed(s, b) <= Removed(t, b)
  }

  /** No other order of the samples, cut into batches the same way, is padded with fewer tokens. */
  ghost predicate LeastAdded(s: seq<nat>, b: nat)
    requires b > 0
  {
    forall t: seq<nat> | multiset(t) == multiset(s) :: Added(s, b) <= Added(t, b)
  }

  lemma DescendingIsOptimal(s: seq<nat>, b: nat)
    requires b > 0 && Descending(s) && (|s| % b == 0 || |s| < b)
    ensures LeastRemoved(s, b) && LeastAdded(s, b)
  {
    forall t: seq<nat> | multiset(t) == multiset(s)
      ensures Removed(s, b) <= Removed(t, b) && Added(s, b) <= Added(t, b)
    {
      var cap := if |s| == 0 then 0 else MaxOf(s);
      if |s| > 0 {
        MaxIs(s);
      }
      CountsUnordered(s, t, 0);
      SameElements(s, t);
      CostsBySums(s, b, cap);
      CostsBySums(t, b, cap);
      if |s| % b == 0 {
        DescendingIsBestUpTo(s, t, b, cap);
      } else {
        OneBatch(s, t, b, cap);
      }
    }
  }

  lemma OneBatch(s: seq<nat>, t: seq<nat>, b: nat, cap: nat)
    requires 0 < |s| < b && multiset(s) == multiset(t)
    ensures Kept(t, b, cap) == Kept(s, b, cap) && Filled(t, b, cap) == Filled(s, b, cap)
  {
    CountsUnordered(s, t, 0);
    SameElements(s, t);
    SameElements(t, s);
    MinIs(s);
    MinIs(t);
    MaxIs(s);
    MaxIs(t);
    assert MinOf(s) == MinOf(t) && MaxOf(s) == MaxOf(t);
    assert Head(s, b) == s && Head(t, b) == t;
  }

  lemma SameElements(s: seq<nat>, t: seq<nat>)
    requires multiset(s) == multiset(t)
    ensures forall i | 0 <= i < |t| :: t[i] in s
  {
    forall i | 0 <= i < |t|
      ensures t[i] in s
    {
      assert t[i] in multiset(s);
    }
  }

  // ----- Divisibility is needed

  function Copies(n: nat, x: nat): (s: seq<nat>)
    ensures |s| == n && forall i | 0 <= i < n :: s[i] == x
  {
    seq(n, _ => x)
  }

  /** Samples of two adjacent lengths, the longer first. */
  function TwoLengths(long: nat, short: nat): seq<nat> {
    Copies(long, 2) + Copies(short, 1)
  }

  lemma {:induction false} EqualLengthsCostNothing(n: nat, x: nat, b: nat)
    requires b > 0
    ensures Removed(Copies(n, x), b) == 0 && Added(Copies(n, x), b) == 0
    decreases n
  {
    var s := Copies(n, x);
    if n > 0 {
      var head, tail := Head(s, b), Tail(s, b);
      assert head == Copies(|head|, x) && tail == Copies(|tail|, x);
      MinIs(head);
      MaxIs(head);
      assert MinOf(head) == x && MaxOf(head) == x;
      TruncatedSum(head, x);
      PaddedSum(head, x);
      SumOfCopies(|head|, x);
      EqualLengthsCostNothing(|tail|, x, b);
    }
  }

  lemma {:induction false} SumOfCopies(n: nat, x: nat)
    ensures Sum(Copies(n, x)) == Times(n, x)
  {
    if n > 0 {
      assert Copies(n, x)[1..] == Copies(n - 1, x);
      SumOfCopies(n - 1, x);
    }
  }

  /** Whole batches of one length followed by a ragged batch of another cost nothing. */
  lemma {:induction false} RaggedLast(n: nat, r: nat, b: nat)
    requires b > 0 && n % b == 0 && r < b
    ensures Removed(Copies(n, 1) + Copies(r, 2), b) == 0 && Added(Copies(n, 1) + Copies(r, 2), b) == 0
    decreases n
  {
    var s := Copies(n, 1) + Copies(r, 2);
    if n == 0 {
      assert s == Copies(r, 2);
      EqualLengthsCostNothing(r, 2, b);
    } else {
      MultiplesAreApart(b, n, 0);
      DivModUnique(n - b, b, n / b - 1, 0);
      assert Head(s, b) == Copies(b, 1) && Tail(s, b) == Copies(n - b, 1) + Copies(r, 2);
      MinIs(Head(s, b));
      MaxIs(Head(s, b));
      assert MinOf(Head(s, b)) == 1 && MaxOf(Head(s, b)) == 1;
      TruncatedSum(Head(s, b), 1);
      PaddedSum(Head(s, b), 1);
      SumOfCopies(b, 1);
      RaggedLast(n - b, r, b);
    }
  }

  lemma NotLeast(s: seq<nat>, t: seq<nat>, b: nat)
    requires b > 0 && multiset(s) == multiset(t) && Removed(t, b) < Removed(s, b) && Added(t, b) < Added(s, b)
    ensures !LeastRemoved(s, b) && !LeastAdded(s, b)
  {
    assert multiset(t) == multiset(s);
  }

  /** As many longer samples as the ragged batch holds cost something when they come first. */
  lemma RaggedIsNotOptimal(long: nat, short: nat, b: nat)
    requires 0 < long < b <= long + short && short % b == 0
    ensures var s := TwoLengths(long, short); Descending(s) && !LeastRemoved(s, b) && !LeastAdded(s, b)
  {
    var s, t := TwoLengths(long, short), Copies(short, 1) + Copies(long, 2);
    RaggedLast(short, long, b);
    Swapped(Copies(long, 2), Copies(short, 1));
    LongerFirst(s, long, b);
    FirstBatchCosts(s, b);
    NotLeast(s, t, b);
  }

  lemma Swapped(x: seq<nat>, y: seq<nat>)
    ensures multiset(x + y) == multiset(y + x)
  {
  }

  lemma LongerFirst(s: seq<nat>, long: nat, b: nat)
    requires long <= |s| && s == TwoLengths(long, |s| - long)
    ensures Descending(s) && (0 < long < b <= |s| ==> s[0] == 2 && s[b - 1] == 1)
  {
    assert forall i | 0 <= i < |s| :: s[i] == if i < long then 2 else 1;
  }

  lemma FirstBatchCosts(s: seq<nat>, b: nat)
    requires 0 < b <= |s| && s[0] == 2 && s[b - 1] == 1
    ensures Removed(s, b) > 0 && Added(s, b) > 0
  {
    var head := Head(s, b);
    assert head[0] == 2 && head[b - 1] == 1;
    MinIs(head);
    MaxIs(head);
    SomeRemoved(head, MinOf(head));
    SomeAdded(head, MaxOf(head));
  }

  lemma SomeRemoved(s: seq<nat>, to: nat)
    requires |s| > 0 && s[0] > to && forall i | 0 <= i < |s| :: to <= s[i]
    ensures Truncated(s, to) > 0
  {
  }

  lemma {:induction false} SomeAdded(s: seq<nat>, to: nat)
    requires |s| > 0 && s[|s| - 1] < to && forall i | 0 <= i < |s| :: s[i] <= to
    ensures Padded(s, to) > 0
  {
    if |s| > 1 {
      SomeAdded(s[1..], to);
    }
  }

  /** For which sample and batch counts the descending order is always the best one,
      whether batches are truncated or padded. */
  lemma OptimalExactly(n: nat, b: nat)
    requires b > 0
    ensures (forall s: seq<nat> | |s| == n && Descending(s) :: LeastRemoved(s, b)) <==> (n % b == 0 || n < b)
    ensures (forall s: seq<nat> | |s| == n && Descending(s) :: LeastAdded(s, b)) <==> (n % b == 0 || n < b)
  {
    if n % b == 0 || n < b {
      forall s: seq<nat> | |s| == n && Descending(s)
        ensures LeastRemoved(s, b) && LeastAdded(s, b)
      {
        DescendingIsOptimal(s, b);
      }
    } else {
      var r := n % b;
      DivModUnique(n - r, b, n / b, 0);
      RaggedIsNotOptimal(r, n - r, b);
      assert |TwoLengths(r, n - r)| == n;
    }
  }
}
