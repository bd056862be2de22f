/** The fused-observer protocol as a state machine over one fusion group.

    A group is a list of weight observers that share a global scale.  Observing
    any member makes every member hold statistics; a member that has computed
    its parameters asks for deletion, and the last one to ask deletes the
    statistics of the whole group. */
module FusionProtocol {
  import opened Prelude

  /** What the protocol reads of a member's statistics: the least and greatest value. */
  datatype Stats = Stats(lo: real, hi: real)

  datatype Group = Group(stats: seq<Option<Stats>>, asked: seq<bool>)
  {
    ghost predicate Sized(n: nat) {
      |stats| == n && |asked| == n
    }

    /** Every member holds statistics. */
    ghost predicate Present() {
      forall j | 0 <= j < |stats| :: stats[j].Some?
    }

    /** No member holds statistics. */
    ghost predicate Absent() {
      forall j | 0 <= j < |stats| :: stats[j].None?
    }

    /** Statistics are all there with some member still to ask, or all gone with no request pending. */
    ghost predicate Consistent() {
      && |stats| == |asked| > 0
      && (Present() || Absent())
      && (Present() ==> exists j :: 0 <= j < |asked| && !asked[j])
      && (Absent() ==> forall j | 0 <= j < |asked| :: !asked[j])
    }
  }

  function Fresh(n: nat): Group {
    Group(seq(n, _ => None), seq(n, _ => false))
  }

  /** Members without statistics are observed on their own weights, whose statistics are `weights`. */
  function FillIn(g: Group, weights: seq<Stats>): Group
    requires |g.stats| == |weights|
  {
    g.(stats := seq(|g.stats|, j requires 0 <= j < |g.stats| =>
         if g.stats[j].Some? then g.stats[j] else Some(weights[j])))
  }

  /** Member `i` sees a value with statistics `seen` (None: an empty tensor). */
  function Observe(g: Group, weights: seq<Stats>, i: nat, seen: Option<Stats>): Group
    requires i < |g.stats| == |weights|
  {
    if seen.None? || g.stats[i].Some? then g
    else FillIn(g.(stats := g.stats[i := seen]), weights)
  }

  /** Member `i` asks for deletion; the last to ask deletes for all. */
  function Ask(g: Group, i: nat): Group
    requires i < |g.stats| == |g.asked|
  {
    if forall j | 0 <= j < |g.asked| :: j == i || g.asked[j] then Fresh(|g.stats|)
    else g.(asked := g.asked[i := true])
  }

  function Max(x: real, y: real): real {
    if x < y then y else x
  }

  /** The largest absolute value over all the members' ranges. */
  function AbsMax(all: seq<Stats>): real
    requires |all| > 0
  {
    var first := Max(-all[0].lo, all[0].hi);
    if |all| == 1 then first else Max(first, AbsMax(all[1..]))
  }

  ghost predicate IsAbsMax(r: real, all: seq<Stats>) {
    && (exists j :: 0 <= j < |all| && (r == -all[j].lo || r == all[j].hi))
    && forall j | 0 <= j < |all| :: -all[j].lo <= r && all[j].hi <= r
  }

  lemma {:induction false} AbsMaxIs(all: seq<Stats>)
    requires |all| > 0
    ensures IsAbsMax(AbsMax(all), all)
  {
    if |all| > 1 {
      AbsMaxIs(all[1..]);
      var rest := all[1..];
      assert forall j | 0 < j < |all| :: all[j] == rest[j - 1];
      var k :| 0 <= k < |rest| && (AbsMax(rest) == -rest[k].lo || AbsMax(rest) == rest[k].hi);
      assert all[k + 1] == rest[k];
    }
  }

  /** The order in which the members are collected does not matter. */
  lemma AbsMaxUnordered(r: real, some: seq<Stats>, all: seq<Stats>)
    requires IsAbsMax(r, some) && |all| > 0
    requires forall s :: s in some <==> s in all
    ensures r == AbsMax(all)
  {
    AbsMaxIs(all);
    var m := AbsMax(all);
    var j :| 0 <= j < |some| && (r == -some[j].lo || r == some[j].hi);
    assert some[j] in all;
    var k :| 0 <= k < |all| && (m == -all[k].lo || m == all[k].hi);
    assert all[k] in some;
  }

  function Values(g: Group): seq<Stats>
    requires g.Present()
  {
    seq(|g.stats|, j requires 0 <= j < |g.stats| => g.stats[j].value)
  }

  // ----- Runs

  datatype Op = Observing(member: nat, seen: Option<Stats>) | GettingQParams(member: nat)

  /** One call.  `get_qparams` on a member without statistics is an assertion error. */
  function Step(g: Group, weights: seq<Stats>, op: Op): Group
    requires op.member < |g.stats| == |g.asked| == |weights|
  {
    match op
    case Observing(i, seen) => Observe(g, weights, i, seen)
    case GettingQParams(i) => if g.stats[i].None? then g else Ask(g, i)
  }

  ghost predicate ValidOps(weights: seq<Stats>, ops: seq<Op>) {
    |weights| > 0 && forall t | 0 <= t < |ops| :: ops[t].member < |weights|
  }

  function After(weights: seq<Stats>, ops: seq<Op>): (g: Group)
    requires ValidOps(weights, ops)
    ensures g.Sized(|weights|)
  {
    if |ops| == 0 then Fresh(|weights|)
    else Step(After(weights, ops[..|ops| - 1]), weights, ops[|ops| - 1])
  }

  /** Between any two calls of any run the group is consistent. */
  lemma {:induction false} AllOrNothing(weights: seq<Stats>, ops: seq<Op>)
    requires ValidOps(weights, ops)
    ensures After(weights, ops).Consistent()
  {
    if |ops| > 0 {
      AllOrNothing(weights, ops[..|ops| - 1]);
      StepKeeps(After(weights, ops[..|ops| - 1]), weights, ops[|ops| - 1]);
    } else {
      assert Fresh(|weights|).stats[0].None?;
    }
  }

  lemma StepKeeps(g: Group, weights: seq<Stats>, op: Op)
    requires g.Consistent() && op.member < |g.stats| == |weights|
    ensures Step(g, weights, op).Consistent()
  {
    var g' := Step(g, weights, op);
    assert g'.stats[0].Some? || g'.stats[0].None?;
    if op.GettingQParams? && g.Present() && g' != Fresh(|g.stats|) {
      var j :| 0 <= j < |g.asked| && j != op.member && !g.asked[j];
      assert !g'.asked[j];
    }
    if op.Observing? {
      assert g.Present() ==> g' == g;
      assert g.Absent() ==> !g'.asked[0];
    }
  }

  function Prefix(weights: seq<Stats>, ops: seq<Op>, t: nat): Group
    requires ValidOps(weights, ops) && t <= |ops|
  {
    After(weights, ops[..t])
  }

  lemma PrefixStep(weights: seq<Stats>, ops: seq<Op>, t: nat)
    requires ValidOps(weights, ops) && t < |ops|
    ensures Prefix(weights, ops, t).Sized(|weights|)
    ensures Prefix(weights, ops, t).Consistent() && Prefix(weights, ops, t + 1).Consistent()
    ensures Prefix(weights, ops, t + 1) == Step(Prefix(weights, ops, t), weights, ops[t])
  {
    assert ops[..t + 1][..t] == ops[..t];
    AllOrNothing(weights, ops[..t]);
    AllOrNothing(weights, ops[..t + 1]);
  }

  /** The calls t, ..., u - 1 fall in one round: statistics are there before each of them. */
  ghost predicate SameRound(weights: seq<Stats>, ops: seq<Op>, t: nat, u: nat)
    requires ValidOps(weights, ops) && u <= |ops|
  {
    forall v: nat | t <= v < u :: Prefix(weights, ops, v).Present()
  }

  /** Member `j` got its parameters at call `t`, in the round that call `u` belongs to. */
  ghost predicate ConsumedAt(weights: seq<Stats>, ops: seq<Op>, j: nat, t: nat, u: nat)
    requires ValidOps(weights, ops) && u <= |ops|
  {
    t < u && ops[t] == GettingQParams(j) && SameRound(weights, ops, t, u)
  }

  /** A pending request comes from a `get_qparams` of the current round. */
  lemma {:induction false} RequestsAreConsumptions(weights: seq<Stats>, ops: seq<Op>, u: nat, j: nat) returns (t: nat)
    requires ValidOps(weights, ops) && u <= |ops| && j < |weights|
    requires Prefix(weights, ops, u).asked[j]
    ensures ConsumedAt(weights, ops, j, t, u)
    decreases u
  {
    assert Prefix(weights, ops, u) != Fresh(|weights|);
    PrefixStep(weights, ops, u - 1);
    var before := Prefix(weights, ops, u - 1);
    if before.asked[j] {
      t := RequestsAreConsumptions(weights, ops, u - 1, j);
    } else {
      t := u - 1;
      assert before.stats[j].Some?;
    }
  }

  /** Statistics are never deleted before every member has consumed them. */
  lemma DeletedOnlyWhenConsumed(weights: seq<Stats>, ops: seq<Op>, u: nat, j: nat) returns (t: nat)
    requires ValidOps(weights, ops) && u < |ops| && j < |weights|
    requires !Prefix(weights, ops, u).Absent() && Prefix(weights, ops, u + 1).Absent()
    ensures ConsumedAt(weights, ops, j, t, u + 1)
  {
    PrefixStep(weights, ops, u);
    var before, op := Prefix(weights, ops, u), ops[u];
    assert before.stats[0].Some? ==> before.Present();
    if op.member == j {
      t := u;
    } else {
      assert before.asked[j];
      t := RequestsAreConsumptions(weights, ops, u, j);
    }
  }

  /** Member `j` asks for its parameters in one of the calls t, ..., u - 1. */
  ghost predicate AskedWithin(ops: seq<Op>, j: nat, t: nat, u: nat)
    requires u <= |ops|
  {
    exists v: nat :: t <= v < u && ops[v] == GettingQParams(j)
  }

  /** Once every member has asked within a round, the statistics are gone. */
  lemma ConsumedByAllIsDeleted(weights: seq<Stats>, ops: seq<Op>, t: nat, u: nat)
    requires ValidOps(weights, ops) && t <= u <= |ops|
    requires SameRound(weights, ops, t, u)
    requires forall j: nat | j < |weights| :: AskedWithin(ops, j, t, u)
    ensures Prefix(weights, ops, u).Absent()
  {
    AllOrNothing(weights, ops[..u]);
    var end := Prefix(weights, ops, u);
    if end.Present() {
      forall j: nat | j < |weights|
        ensures end.asked[j]
      {
        assert AskedWithin(ops, j, t, u);
        var v: nat :| t <= v < u && ops[v] == GettingQParams(j);
        RequestStays(weights, ops, v, u, j);
      }
      assert false;
    }
  }

  lemma {:induction false} RequestStays(weights: seq<Stats>, ops: seq<Op>, v: nat, u: nat, j: nat)
    requires ValidOps(weights, ops) && v < u <= |ops| && j < |weights|
    requires SameRound(weights, ops, v, u) && Prefix(weights, ops, u).Present()
    requires ops[v] == GettingQParams(j)
    ensures Prefix(weights, ops, u).asked[j]
    decreases u
  {
    PrefixStep(weights, ops, u - 1);
    var before := Prefix(weights, ops, u - 1);
    assert Prefix(weights, ops, u).stats[0].Some?;
    assert Prefix(weights, ops, u) != Fresh(|weights|);
    if v < u - 1 {
      RequestStays(weights, ops, v, u - 1, j);
    }
  }

  /** Within a round the members' statistics do not change, so all get the same global scale. */
  lemma {:induction false} SameRoundSameScale(weights: seq<Stats>, ops: seq<Op>, t: nat, u: nat)
    requires ValidOps(weights, ops) && t <= u < |ops|
    requires SameRound(weights, ops, t, u + 1)
    ensures Prefix(weights, ops, t).stats == Prefix(weights, ops, u).stats
    ensures AbsMax(Values(Prefix(weights, ops, t))) == AbsMax(Values(Prefix(weights, ops, u)))
    decreases u
  {
    assert Prefix(weights, ops, t).Present() && Prefix(weights, ops, u).Present();
    PrefixStep(weights, ops, u);
    PrefixStep(weights, ops, t);
    if t < u {
      SameRoundSameScale(weights, ops, t, u - 1);
      PrefixStep(weights, ops, u - 1);
      assert Prefix(weights, ops, u).stats[0].Some?;
    }
    assert Values(Prefix(weights, ops, t)) == Values(Prefix(weights, ops, u));
  }
}
