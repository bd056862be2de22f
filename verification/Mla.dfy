/** Multi-head latent attention of one sequence: the prefill form, which expands keys and values
    for every head, and the decode form, which absorbs the expansion into the query and the output
    and attends over the cached latents.

    The projections before the attention, the rotary embedding, the softmax, the indexer's choice of
    positions and the output projection are arbitrary functions. */
module Mla {
  import opened LinearAlgebra

  /** An attention score; `-inf` masks a position. */
  datatype Score = NegInf | Fin(value: real)

  function AddScores(a: Score, b: Score): Score {
    if a.NegInf? || b.NegInf? then NegInf else Fin(a.value + b.value)
  }

  predicate AnyFinite(scores: seq<Score>) {
    exists t: nat :: t < |scores| && scores[t].Fin?
  }

  function Masked(n: nat): seq<Score> {
    seq(n, _ => NegInf)
  }

  /** The layer's sizes and functions.  `kvB` has the rows of every head one after the other. */
  datatype Layer = Layer(
    heads: nat,
    nope: nat,
    rope: nat,
    vdim: nat,
    rank: nat,
    query: (Vec, nat) -> Vec,
    kvA: Vec -> Vec,
    norm: Vec -> Vec,
    rotate: (Vec, nat) -> Vec,
    kvB: Matrix,
    scale: real,
    softmax: seq<Score> -> Vec,
    pick: (seq<Vec>, nat) -> set<nat>,
    project: Matrix -> Vec)
  {
    ghost predicate Proper() {
      && vdim > 0
      && |kvB| == heads * (nope + vdim)
      && Width(kvB, rank)
      && (forall x, h :: |query(x, h)| == nope + rope)
      && (forall x :: |kvA(x)| == rank + rope)
      && (forall v :: |norm(v)| == |v|)
      && (forall v, p :: |rotate(v, p)| == |v|)
      && (forall s :: |softmax(s)| == |s|)
    }

    // ----- One token

    function QueryNope(x: Vec, h: nat): (r: Vec)
      requires Proper()
      ensures |r| == nope
    {
      query(x, h)[..nope]
    }

    function QueryPe(x: Vec, pos: nat, h: nat): (r: Vec)
      requires Proper()
      ensures |r| == rope
    {
      rotate(query(x, h)[nope..], pos)
    }

    /** What the latent cache holds of a token. */
    function Latent(x: Vec): (r: Vec)
      requires Proper()
      ensures |r| == rank
    {
      norm(kvA(x)[..rank])
    }

    /** What the rotary cache holds of a token at a position. */
    function KeyPe(x: Vec, pos: nat): (r: Vec)
      requires Proper()
      ensures |r| == rope
    {
      rotate(kvA(x)[rank..], pos)
    }

    function Latents(xs: seq<Vec>): (r: Matrix)
      requires Proper()
      ensures |r| == |xs| && Width(r, rank)
    {
      seq(|xs|, i requires 0 <= i < |xs| => Latent(xs[i]))
    }

    function KeyPes(xs: seq<Vec>, start: nat): (r: Matrix)
      requires Proper()
      ensures |r| == |xs| && Width(r, rope)
    {
      seq(|xs|, i requires 0 <= i < |xs| => KeyPe(xs[i], start + i))
    }

    // ----- The expansion matrix of a head

    lemma HeadFits(h: nat)
      requires Proper() && h < heads
      ensures h * (nope + vdim) + (nope + vdim) <= |kvB|
    {
      assert (h + 1) * (nope + vdim) <= heads * (nope + vdim);
    }

    function HeadRows(h: nat): (r: Matrix)
      requires Proper() && h < heads
      ensures |r| == nope + vdim && Width(r, rank)
    {
      HeadFits(h);
      kvB[h * (nope + vdim)..h * (nope + vdim) + (nope + vdim)]
    }

    function KeyRows(h: nat): (r: Matrix)
      requires Proper() && h < heads
      ensures |r| == nope && Width(r, rank)
    {
      HeadRows(h)[..nope]
    }

    function ValueRows(h: nat): (r: Matrix)
      requires Proper() && h < heads
      ensures |r| == vdim && Width(r, rank)
    {
      var rows := HeadRows(h);
      rows[|rows| - vdim..]
    }

    /** The rows of head `h` follow those of the heads before it: first its keys, ... */
    lemma KeyRowsAt(h: nat, i: nat)
      requires Proper() && h < heads && i < nope
      ensures h * (nope + vdim) + i < |kvB| && KeyRows(h)[i] == kvB[h * (nope + vdim) + i]
    {
      HeadFits(h);
    }

    /** ... then its values. */
    lemma ValueRowsAt(h: nat, i: nat, lo: nat)
      requires Proper() && h < heads && i < vdim && lo == h * (nope + vdim)
      ensures lo + (nope + i) < |kvB| && ValueRows(h)[i] == kvB[lo + (nope + i)]
    {
      HeadFits(h);
      SliceAt(kvB, lo, nope + vdim, nope + i);
      LastRows(HeadRows(h), i);
    }

    lemma LastRows(rows: Matrix, i: nat)
      requires |rows| == nope + vdim && i < vdim
      ensures rows[|rows| - vdim..][i] == rows[nope + i]
    {
    }

    static lemma SliceAt(m: Matrix, lo: nat, n: nat, i: nat)
      requires lo + n <= |m| && i < n
      ensures m[lo..lo + n][i] == m[lo + i]
    {
    }

    // ----- Scores

    /** The products, scaled, plus the mask. */
    function Scores(dots: Vec, mask: seq<Score>): (r: seq<Score>)
      requires |dots| == |mask|
      ensures |r| == |dots|
    {
      seq(|dots|, t requires 0 <= t < |dots| => ScaledScore(dots[t], mask[t]))
    }

    function ScaledScore(dot: real, mask: Score): Score {
      AddScores(Fin(dot * scale), mask)
    }

    function Picked(picked: set<nat>, n: nat): (r: seq<Score>)
      ensures |r| == n
    {
      seq(n, t requires 0 <= t < n => if t in picked then Fin(0.0) else NegInf)
    }

    // ----- Prefill

    /** The expanded keys and values of a token for one head. */
    function Expanded(x: Vec, h: nat): (r: Vec)
      requires Proper() && h < heads
      ensures |r| == nope + vdim
    {
      HeadFits(h);
      Apply(kvB, Latent(x))[h * (nope + vdim)..h * (nope + vdim) + (nope + vdim)]
    }

    function Key(xs: seq<Vec>, t: nat, h: nat): (r: Vec)
      requires Proper() && h < heads && t < |xs|
      ensures |r| == nope + rope
    {
      Expanded(xs[t], h)[..nope] + KeyPe(xs[t], t)
    }

    function Values(xs: seq<Vec>, h: nat): (r: Matrix)
      requires Proper() && h < heads
      ensures |r| == |xs| && Width(r, vdim)
    {
      seq(|xs|, t requires 0 <= t < |xs| => Expanded(xs[t], h)[nope..])
    }

    /** The indexer's mask plus the causal mask, for row `s`. */
    function PrefillMask(xs: seq<Vec>, s: nat): (r: seq<Score>)
      ensures |r| == |xs|
    {
      var picked := Picked(pick(xs, s), |xs|);
      seq(|xs|, t requires 0 <= t < |xs| => AddScores(picked[t], if t > s then NegInf else Fin(0.0)))
    }

    function PrefillDots(xs: seq<Vec>, s: nat, h: nat): (r: Vec)
      requires Proper() && h < heads && s < |xs|
      ensures |r| == |xs|
    {
      var q := QueryNope(xs[s], h) + QueryPe(xs[s], s, h);
      seq(|xs|, t requires 0 <= t < |xs| => Dot(q, Key(xs, t, h)))
    }

    function PrefillHead(xs: seq<Vec>, s: nat, h: nat): (r: Vec)
      requires Proper() && h < heads && s < |xs|
      ensures |r| == vdim
    {
      Combine(softmax(Scores(PrefillDots(xs, s, h), PrefillMask(xs, s))), Values(xs, h), vdim)
    }

    /** Row `s` of a prefill of the tokens `xs` from position 0. */
    function PrefillRow(xs: seq<Vec>, s: nat): Vec
      requires Proper() && s < |xs|
    {
      project(seq(heads, h requires 0 <= h < heads => PrefillHead(xs, s, h)))
    }

    function Prefill(xs: seq<Vec>): (r: seq<Vec>)
      requires Proper()
      ensures |r| == |xs|
    {
      seq(|xs|, s requires 0 <= s < |xs| => PrefillRow(xs, s))
    }

    // ----- Decode

    function DecodeDots(kv: Matrix, pe: Matrix, x: Vec, pos: nat, h: nat): (r: Vec)
      requires Proper() && h < heads && |kv| == |pe| && Width(kv, rank) && Width(pe, rope)
      ensures |r| == |kv|
    {
      var q, qPe := Combine(QueryNope(x, h), KeyRows(h), rank), QueryPe(x, pos, h);
      seq(|kv|, t requires 0 <= t < |kv| => Dot(q, kv[t]) + Dot(qPe, pe[t]))
    }

    function DecodeHead(kv: Matrix, pe: Matrix, x: Vec, pos: nat, picked: set<nat>, h: nat): (r: Vec)
      requires Proper() && h < heads && |kv| == |pe| && Width(kv, rank) && Width(pe, rope)
      ensures |r| == vdim
    {
      var scores := Scores(DecodeDots(kv, pe, x, pos, h), Picked(picked, |kv|));
      Apply(ValueRows(h), Combine(softmax(scores), kv, rank))
    }

    /** One token against the cached rows, its own included. */
    function Decode(kv: Matrix, pe: Matrix, x: Vec, pos: nat, picked: set<nat>): Vec
      requires Proper() && |kv| == |pe| && Width(kv, rank) && Width(pe, rope)
    {
      project(seq(heads, h requires 0 <= h < heads => DecodeHead(kv, pe, x, pos, picked, h)))
    }

    // ----- The two forms agree

    lemma ExpandedIsApplied(x: Vec, h: nat)
      requires Proper() && h < heads
      ensures Expanded(x, h) == Apply(HeadRows(h), Latent(x))
    {
      HeadFits(h);
      RowsApplied(x, h * (nope + vdim));
    }

    lemma RowsApplied(x: Vec, lo: nat)
      requires Proper() && lo + (nope + vdim) <= |kvB|
      ensures Apply(kvB, Latent(x))[lo..lo + (nope + vdim)] == Apply(kvB[lo..lo + (nope + vdim)], Latent(x))
    {
      ApplyRows(kvB, Latent(x), lo, lo + (nope + vdim));
    }

    lemma ExpandedIsSplit(x: Vec, h: nat)
      requires Proper() && h < heads
      ensures Expanded(x, h)[..nope] == Apply(KeyRows(h), Latent(x))
      ensures Expanded(x, h)[nope..] == Apply(ValueRows(h), Latent(x))
    {
      ExpandedIsApplied(x, h);
      var rows := HeadRows(h);
      ApplyRows(rows, Latent(x), 0, nope);
      ApplyRows(rows, Latent(x), nope, |rows|);
      assert rows[0..nope] == KeyRows(h) && rows[nope..|rows|] == ValueRows(h);
    }

    /** A query against an expanded key is the absorbed query against the latent. */
    lemma SameScore(xs: seq<Vec>, s: nat, t: nat, h: nat)
      requires Proper() && h < heads && s < |xs| && t < |xs|
      ensures Dot(QueryNope(xs[s], h) + QueryPe(xs[s], s, h), Key(xs, t, h))
              == Dot(Combine(QueryNope(xs[s], h), KeyRows(h), rank), Latent(xs[t]))
                 + Dot(QueryPe(xs[s], s, h), KeyPe(xs[t], t))
    {
      ExpandedIsSplit(xs[t], h);
      DotConcat(QueryNope(xs[s], h), QueryPe(xs[s], s, h), Apply(KeyRows(h), Latent(xs[t])), KeyPe(xs[t], t));
      Absorb(QueryNope(xs[s], h), KeyRows(h), Latent(xs[t]));
    }

    lemma SameDots(xs: seq<Vec>, s: nat, h: nat)
      requires Proper() && h < heads && s < |xs|
      ensures DecodeDots(Latents(xs), KeyPes(xs, 0), xs[s], s, h) == PrefillDots(xs, s, h)
    {
      var decode := DecodeDots(Latents(xs), KeyPes(xs, 0), xs[s], s, h);
      forall t | 0 <= t < |xs|
        ensures decode[t] == PrefillDots(xs, s, h)[t]
      {
        SameScore(xs, s, t, h);
      }
    }

    /** The causal mask hides nothing from the last row. */
    lemma LastRowIsUnmasked(xs: seq<Vec>)
      requires |xs| > 0
      ensures Picked(pick(xs, |xs| - 1), |xs|) == PrefillMask(xs, |xs| - 1)
    {
    }

    // ----- What a prefill computes

    /** A position is attended to exactly when it is not later than the row and the indexer picked it. */
    lemma PrefillMaskAt(xs: seq<Vec>, s: nat, t: nat)
      requires t < |xs|
      ensures PrefillMask(xs, s)[t] == if t <= s && t in pick(xs, s) then Fin(0.0) else NegInf
    {
    }

    /** The score of position `t` for row `s` of a head, in the layer's own functions: the query's plain
        part against the expanded latent and its rotated part against the rotated key, scaled. */
    ghost function ScoreOf(xs: seq<Vec>, s: nat, h: nat, t: nat): Score
      requires Proper() && h < heads && s < |xs| && t < |xs|
    {
      if t <= s && t in pick(xs, s) then
        Fin(DotOf(xs[s], s, xs[t], t, h) * scale)
      else NegInf
    }

    ghost function DotOf(x: Vec, s: nat, y: Vec, t: nat, h: nat): real
      requires Proper() && h < heads
    {
      PlainDot(x, y, h) + RotatedDot(x, s, y, t, h)
    }

    ghost function PlainDot(x: Vec, y: Vec, h: nat): real
      requires Proper() && h < heads
    {
      Dot(query(x, h)[..nope], Apply(KeyRows(h), norm(kvA(y)[..rank])))
    }

    ghost function RotatedDot(x: Vec, s: nat, y: Vec, t: nat, h: nat): real
      requires Proper()
    {
      Dot(rotate(query(x, h)[nope..], s), rotate(kvA(y)[rank..], t))
    }

    lemma DotIs(xs: seq<Vec>, s: nat, h: nat, t: nat)
      requires Proper() && h < heads && s < |xs| && t < |xs|
      ensures PrefillDots(xs, s, h)[t] == DotOf(xs[s], s, xs[t], t, h)
    {
      ExpandedIsSplit(xs[t], h);
      DotConcat(QueryNope(xs[s], h), QueryPe(xs[s], s, h), Apply(KeyRows(h), Latent(xs[t])), KeyPe(xs[t], t));
    }

    /** The value of position `t` for a head. */
    ghost function ValueOf(xs: seq<Vec>, h: nat, t: nat): Vec
      requires Proper() && h < heads && t < |xs|
    {
      Apply(ValueRows(h), norm(kvA(xs[t])[..rank]))
    }

    static lemma Unmasked(x: real, mask: Score)
      requires mask.Fin? ==> mask.value == 0.0
      ensures AddScores(Fin(x), mask) == if mask.NegInf? then NegInf else Fin(x)
    {
    }

    lemma ScoresAt(dots: Vec, mask: seq<Score>, t: nat, dot: real)
      requires |dots| == |mask| && t < |dots| && dots[t] == dot && (mask[t].Fin? ==> mask[t].value == 0.0)
      ensures Scores(dots, mask)[t] == if mask[t].NegInf? then NegInf else Fin(dot * scale)
    {
      assert Scores(dots, mask)[t] == ScaledScore(dots[t], mask[t]) == ScaledScore(dot, mask[t]);
      Unmasked(dot * scale, mask[t]);
    }

    lemma ScoreIs(xs: seq<Vec>, s: nat, h: nat, t: nat)
      requires Proper() && h < heads && s < |xs| && t < |xs|
      ensures Scores(PrefillDots(xs, s, h), PrefillMask(xs, s))[t] == ScoreOf(xs, s, h, t)
    {
      PrefillMaskAt(xs, s, t);
      DotIs(xs, s, h, t);
      ScoresAt(PrefillDots(xs, s, h), PrefillMask(xs, s), t, DotOf(xs[s], s, xs[t], t, h));
    }

    lemma ValueIs(xs: seq<Vec>, h: nat, t: nat)
      requires Proper() && h < heads && t < |xs|
      ensures Values(xs, h)[t] == ValueOf(xs, h, t)
    {
      ExpandedIsSplit(xs[t], h);
    }

    /** Row `s` of a prefill: for every head the values weighted by the softmax of the scores. */
    lemma RowIs(xs: seq<Vec>, s: nat, scores: seq<seq<Score>>, values: seq<Matrix>, outs: Matrix)
      requires Proper() && s < |xs| && |scores| == |values| == |outs| == heads
      requires forall h | 0 <= h < heads :: |scores[h]| == |values[h]| == |xs| && Width(values[h], vdim)
      requires forall h, t | 0 <= h < heads && 0 <= t < |xs| ::
                 scores[h][t] == ScoreOf(xs, s, h, t) && values[h][t] == ValueOf(xs, h, t)
      requires forall h | 0 <= h < heads :: outs[h] == Combine(softmax(scores[h]), values[h], vdim)
      ensures PrefillRow(xs, s) == project(outs)
    {
      forall h | 0 <= h < heads
        ensures PrefillHead(xs, s, h) == outs[h]
      {
        var own := Scores(PrefillDots(xs, s, h), PrefillMask(xs, s));
        forall t | 0 <= t < |xs|
          ensures own[t] == scores[h][t] && Values(xs, h)[t] == values[h][t]
        {
          ScoreIs(xs, s, h, t);
          ValueIs(xs, h, t);
        }
        assert own == scores[h] && Values(xs, h) == values[h];
      }
      assert seq(heads, h requires 0 <= h < heads => PrefillHead(xs, s, h)) == outs;
    }

    // ----- Causality

    /** Masked positions get no weight, unless all are masked. */
    ghost predicate WeighsOut() {
      forall scores: seq<Score>, t: nat | t < |scores| && scores[t].NegInf? && AnyFinite(scores) ::
        |softmax(scores)| == |scores| && softmax(scores)[t] == 0.0
    }

    /** Masked positions at the end change no other weight. */
    ghost predicate IgnoresMasked() {
      forall scores: seq<Score>, n: nat | AnyFinite(scores) ::
        softmax(scores + Masked(n)) == softmax(scores) + Zero(n)
    }

    ghost predicate SamePicks(xs: seq<Vec>, ys: seq<Vec>, s: nat) {
      && (forall t: nat | t <= s :: t in pick(xs, s) <==> t in pick(ys, s))
      && exists t: nat :: t <= s && t in pick(xs, s)
    }

    /** Scores at `s` do not depend on later tokens. */
    lemma SameScoreOf(xs: seq<Vec>, ys: seq<Vec>, s: nat, h: nat, t: nat)
      requires Proper() && h < heads && s < |xs| && s < |ys| && t < |xs| && t < |ys|
      requires xs[..s + 1] == ys[..s + 1] && SamePicks(xs, ys, s)
      ensures ScoreOf(xs, s, h, t) == ScoreOf(ys, s, h, t) && (t > s ==> ScoreOf(xs, s, h, t) == NegInf)
      ensures t <= s ==> ValueOf(xs, h, t) == ValueOf(ys, h, t)
    {
      assert xs[s] == xs[..s + 1][s] && ys[s] == ys[..s + 1][s];
      if t <= s {
        assert xs[t] == xs[..s + 1][t] && ys[t] == ys[..s + 1][t];
      }
    }

    lemma RowScores(xs: seq<Vec>, s: nat, h: nat) returns (scores: seq<Score>)
      requires Proper() && h < heads && s < |xs|
      ensures scores == Scores(PrefillDots(xs, s, h), PrefillMask(xs, s)) && |scores| == |xs|
      ensures forall t | 0 <= t < |xs| :: scores[t] == ScoreOf(xs, s, h, t)
      ensures (exists t: nat :: t <= s && t in pick(xs, s)) ==> AnyFinite(scores)
    {
      scores := Scores(PrefillDots(xs, s, h), PrefillMask(xs, s));
      forall t | 0 <= t < |xs|
        ensures scores[t] == ScoreOf(xs, s, h, t)
      {
        ScoreIs(xs, s, h, t);
      }
      if t: nat :| t <= s && t in pick(xs, s) {
        assert scores[t].Fin?;
      }
    }

    lemma SameAt(xs: seq<Vec>, ys: seq<Vec>, s: nat, h: nat, t: nat)
      requires Proper() && h < heads && s < |xs| && s < |ys| && t < |xs| && t < |ys|
      requires xs[..s + 1] == ys[..s + 1] && SamePicks(xs, ys, s)
      ensures ScoreOf(xs, s, h, t) == ScoreOf(ys, s, h, t)
      ensures ScoreOf(xs, s, h, t).NegInf? || Values(xs, h)[t] == Values(ys, h)[t]
    {
      SameScoreOf(xs, ys, s, h, t);
      ValueIs(xs, h, t);
      ValueIs(ys, h, t);
    }

    lemma SameScores(xs: seq<Vec>, ys: seq<Vec>, s: nat, h: nat, a: seq<Score>, b: seq<Score>)
      requires Proper() && h < heads && s < |xs| == |ys| == |a| == |b|
      requires xs[..s + 1] == ys[..s + 1] && SamePicks(xs, ys, s)
      requires forall t | 0 <= t < |xs| :: a[t] == ScoreOf(xs, s, h, t) && b[t] == ScoreOf(ys, s, h, t)
      ensures a == b
    {
      forall t | 0 <= t < |xs|
        ensures a[t] == b[t]
      {
        SameAt(xs, ys, s, h, t);
      }
    }

    lemma SameValues(xs: seq<Vec>, ys: seq<Vec>, s: nat, h: nat, a: seq<Score>, v: Matrix, w: Matrix)
      requires Proper() && h < heads && s < |xs| == |ys| == |a| && v == Values(xs, h) && w == Values(ys, h)
      requires xs[..s + 1] == ys[..s + 1] && SamePicks(xs, ys, s)
      requires forall t | 0 <= t < |xs| :: a[t] == ScoreOf(xs, s, h, t)
      ensures forall t | 0 <= t < |xs| :: a[t].NegInf? || v[t] == w[t]
    {
      forall t | 0 <= t < |xs|
        ensures a[t].NegInf? || v[t] == w[t]
      {
        SameAt(xs, ys, s, h, t);
      }
    }

    lemma CausalHead(xs: seq<Vec>, ys: seq<Vec>, s: nat, h: nat)
      requires Proper() && WeighsOut() && h < heads && s < |xs| == |ys|
      requires xs[..s + 1] == ys[..s + 1] && SamePicks(xs, ys, s)
      ensures PrefillHead(xs, s, h) == PrefillHead(ys, s, h)
    {
      var a := RowScores(xs, s, h);
      var b := RowScores(ys, s, h);
      SameScores(xs, ys, s, h, a, b);
      SameValues(xs, ys, s, h, a, Values(xs, h), Values(ys, h));
      Unweighted(a, Values(xs, h), Values(ys, h));
    }

    lemma HeadIs(xs: seq<Vec>, s: nat, h: nat, scores: seq<Score>, values: Matrix)
      requires Proper() && h < heads && s < |xs|
      requires scores == Scores(PrefillDots(xs, s, h), PrefillMask(xs, s)) && values == Values(xs, h)
      ensures |softmax(scores)| == |values| && PrefillHead(xs, s, h) == Combine(softmax(scores), values, vdim)
    {
    }

    /** Values at masked positions do not matter. */
    lemma Unweighted(scores: seq<Score>, v: Matrix, w: Matrix)
      requires WeighsOut() && AnyFinite(scores) && |softmax(scores)| == |scores| == |v| == |w|
      requires Width(v, vdim) && Width(w, vdim)
      requires forall t | 0 <= t < |v| :: scores[t].NegInf? || v[t] == w[t]
      ensures Combine(softmax(scores), v, vdim) == Combine(softmax(scores), w, vdim)
    {
      CombineIgnores(softmax(scores), v, w, vdim);
    }

    /** A row of a prefill does not depend on later tokens, for every softmax that gives masked positions
        no weight. */
    lemma Causal(xs: seq<Vec>, ys: seq<Vec>, s: nat)
      requires Proper() && WeighsOut() && s < |xs| == |ys|
      requires xs[..s + 1] == ys[..s + 1] && SamePicks(xs, ys, s)
      ensures PrefillRow(xs, s) == PrefillRow(ys, s)
    {
      forall h | 0 <= h < heads
        ensures PrefillHead(xs, s, h) == PrefillHead(ys, s, h)
      {
        CausalHead(xs, ys, s, h);
      }
      assert seq(heads, h requires 0 <= h < heads => PrefillHead(xs, s, h))
          == seq(heads, h requires 0 <= h < heads => PrefillHead(ys, s, h));
    }

    lemma PrefixHead(xs: seq<Vec>, s: nat, h: nat)
      requires Proper() && IgnoresMasked() && h < heads && s < |xs| && SamePicks(xs, xs[..s + 1], s)
      ensures PrefillHead(xs, s, h) == PrefillHead(xs[..s + 1], s, h)
    {
      var ys, n := xs[..s + 1], |xs| - (s + 1);
      assert ys[..s + 1] == xs[..s + 1];
      var a := RowScores(xs, s, h);
      var b := RowScores(ys, s, h);
      var v, w := Values(xs, h), Values(ys, h);
      PickedInPrefix(xs, ys, s);
      forall t | 0 <= t <= s
        ensures a[t] == b[t] && v[t] == w[t]
      {
        SameScoreOf(xs, ys, s, h, t);
        ValueIs(xs, h, t);
        ValueIs(ys, h, t);
      }
      forall t | s < t < |xs|
        ensures a[t].NegInf?
      {
        ScoreIs(xs, s, h, t);
      }
      assert a == b + Masked(n);
      assert v == w + v[s + 1..];
      Padded(b, w, v[s + 1..]);
      HeadIs(xs, s, h, a, v);
      HeadIs(ys, s, h, b, w);
    }

    lemma PickedInPrefix(xs: seq<Vec>, ys: seq<Vec>, s: nat)
      requires SamePicks(xs, ys, s)
      ensures exists t: nat :: t <= s && t in pick(ys, s)
    {
      var t: nat :| t <= s && t in pick(xs, s);
      assert t in pick(ys, s);
    }

    /** Masked positions at the end do not matter. */
    lemma Padded(scores: seq<Score>, v: Matrix, more: Matrix)
      requires IgnoresMasked() && AnyFinite(scores) && |softmax(scores)| == |scores| == |v|
      requires Width(v, vdim) && Width(more, vdim)
      ensures Width(v + more, vdim) && |softmax(scores + Masked(|more|))| == |v + more|
      ensures Combine(softmax(scores + Masked(|more|)), v + more, vdim) == Combine(softmax(scores), v, vdim)
    {
      CombineMore(softmax(scores), v, more, vdim);
    }

    /** Decoding token by token gives all rows of a prefill of the whole prompt, for every softmax that
        ignores masked positions and as long as the indexer picks the same without the later tokens. */
    lemma DecodeIsPrefillRow(xs: seq<Vec>, s: nat)
      requires Proper() && IgnoresMasked() && s < |xs| && SamePicks(xs, xs[..s + 1], s)
      ensures var seen := xs[..s + 1];
              Decode(Latents(seen), KeyPes(seen, 0), xs[s], s, pick(seen, s)) == PrefillRow(xs, s)
    {
      DecodeIsLastPrefillRow(xs[..s + 1]);
      forall h | 0 <= h < heads
        ensures PrefillHead(xs, s, h) == PrefillHead(xs[..s + 1], s, h)
      {
        PrefixHead(xs, s, h);
      }
      assert seq(heads, h requires 0 <= h < heads => PrefillHead(xs, s, h))
          == seq(heads, h requires 0 <= h < heads => PrefillHead(xs[..s + 1], s, h));
    }

    lemma ValuesAreApplied(xs: seq<Vec>, h: nat)
      requires Proper() && h < heads
      ensures Values(xs, h) == ApplyAll(ValueRows(h), Latents(xs), rank)
    {
      forall t | 0 <= t < |xs|
        ensures Values(xs, h)[t] == ApplyAll(ValueRows(h), Latents(xs), rank)[t]
      {
        ExpandedIsSplit(xs[t], h);
        ApplyAllAt(ValueRows(h), Latents(xs), rank, t);
      }
    }

    lemma SameHead(xs: seq<Vec>, h: nat)
      requires Proper() && h < heads && |xs| > 0
      ensures var s := |xs| - 1;
              DecodeHead(Latents(xs), KeyPes(xs, 0), xs[s], s, pick(xs, s), h) == PrefillHead(xs, s, h)
    {
      var s := |xs| - 1;
      SameDots(xs, s, h);
      LastRowIsUnmasked(xs);
      ValuesAreApplied(xs, h);
      CombineApplied(softmax(Scores(PrefillDots(xs, s, h), PrefillMask(xs, s))), ValueRows(h), Latents(xs), rank);
    }

    /** Decoding the last token over caches that hold all the tokens gives the last row of a prefill. */
    lemma DecodeIsLastPrefillRow(xs: seq<Vec>)
      requires Proper() && |xs| > 0
      ensures var s := |xs| - 1;
              Decode(Latents(xs), KeyPes(xs, 0), xs[s], s, pick(xs, s)) == PrefillRow(xs, s)
    {
      var s := |xs| - 1;
      forall h | 0 <= h < heads
        ensures DecodeHead(Latents(xs), KeyPes(xs, 0), xs[s], s, pick(xs, s), h) == PrefillHead(xs, s, h)
      {
        SameHead(xs, h);
      }
      assert seq(heads, h requires 0 <= h < heads => DecodeHead(Latents(xs), KeyPes(xs, 0), xs[s], s, pick(xs, s), h))
          == seq(heads, h requires 0 <= h < heads => PrefillHead(xs, s, h));
    }
  }

  /** The layer with its caches.  `history` is what the indexer's own cache was computed from. */
  class Attention {
    const layer: Layer
    const kvCache: array<Vec>
    const peCache: array<Vec>
    var history: seq<Vec>

    ghost predicate Valid()
      reads this, kvCache, peCache
    {
      && layer.Proper()
      && kvCache != peCache
      && |history| <= kvCache.Length == peCache.Length
      && kvCache[..|history|] == layer.Latents(history)
      && peCache[..|history|] == layer.KeyPes(history, 0)
    }

    constructor (layer: Layer, maxSeqLen: nat)
      requires layer.Proper()
      ensures Valid() && fresh(kvCache) && fresh(peCache)
      ensures history == [] && this.layer == layer && kvCache.Length == maxSeqLen
    {
      this.layer := layer;
      kvCache := new Vec[maxSeqLen](_ => Zero(layer.rank));
      peCache := new Vec[maxSeqLen](_ => Zero(layer.rope));
      history := [];
      new;
    }

    /** Write the rows of the new tokens, in place. */
    method Store(xs: seq<Vec>, startPos: nat)
      requires Valid() && startPos <= |history| && startPos + |xs| <= kvCache.Length
      modifies this`history, kvCache, peCache
      ensures Valid() && history == old(history)[..startPos] + xs
    {
      var endPos := startPos + |xs|;
      var kv, pe := layer.Latents(xs), layer.KeyPes(xs, startPos);
      forall i | startPos <= i < endPos {
        kvCache[i] := kv[i - startPos];
      }
      forall i | startPos <= i < endPos {
        peCache[i] := pe[i - startPos];
      }
      history := history[..startPos] + xs;
      assert kvCache[..endPos] == layer.Latents(history);
      assert peCache[..endPos] == layer.KeyPes(history, 0);
    }

    /** One call of the layer: several tokens are a prefill from position 0, one token is decoded
        at `startPos`, rewriting the caches from there on.  Every decoded token gets the last row
        of a prefill of everything before it and itself. */
    method Forward(xs: seq<Vec>, startPos: nat) returns (outs: seq<Vec>)
      requires Valid() && 0 < |xs| && startPos <= |history| && startPos + |xs| <= kvCache.Length
      requires |xs| > 1 ==> startPos == 0
      modifies this`history, kvCache, peCache
      ensures Valid() && history == old(history)[..startPos] + xs
      ensures |xs| > 1 ==> outs == layer.Prefill(xs)
      ensures |xs| == 1 ==> outs == [layer.PrefillRow(history, startPos)]
    {
      Store(xs, startPos);
      if |xs| > 1 {
        outs := layer.Prefill(xs);
      } else {
        var endPos := startPos + 1;
        var picked := layer.pick(history, startPos);
        var out := layer.Decode(kvCache[..endPos], peCache[..endPos], xs[0], startPos, picked);
        layer.DecodeIsLastPrefillRow(history);
        outs := [out];
      }
    }
  }
}
