/** Grouping tensor names into sets that match every target once. */
module NameSets {
  import opened Prelude
  type Name(==,!new)

  type Matcher = (Name, Name) -> bool
  type MatchSet = map<Name, Option<Name>>

  datatype Failure = MatchedTwice(target: Name, first: Name, second: Name)

  /** The names among the first `k` that match the target, in order. */
  function Matching(match_: Matcher, names: seq<Name>, target: Name, k: nat): (m: seq<Name>)
    requires k <= |names|
  {
    if k == 0 then []
    else
      var before := Matching(match_, names, target, k - 1);
      if match_(names[k - 1], target) then before + [names[k - 1]] else before
  }

  function Hits(match_: Matcher, names: seq<Name>, target: Name, k: nat): nat
    requires k <= |names|
  {
    |Matching(match_, names, target, k)|
  }

  /** A target with the fewest matches among the first `k` names. */
  function Laggard(match_: Matcher, names: seq<Name>, targets: seq<Name>, k: nat): (t: Name)
    requires k <= |names| && |targets| > 0
    ensures t in targets
    ensures forall q | 0 <= q < |targets| :: Hits(match_, names, t, k) <= Hits(match_, names, targets[q], k)
  {
    if |targets| == 1 then targets[0]
    else
      var rest := Laggard(match_, names, targets[1..], k);
      assert forall q | 0 < q < |targets| :: targets[q] == targets[1..][q - 1];
      if Hits(match_, names, targets[0], k) < Hits(match_, names, rest, k) then targets[0] else rest
  }

  /** How many sets the first `k` names complete: the fewest matches of any target. */
  function Completed(match_: Matcher, names: seq<Name>, targets: seq<Name>, k: nat): nat
    requires k <= |names| && |targets| > 0
  {
    Hits(match_, names, Laggard(match_, names, targets, k), k)
  }

  lemma CompletedIsLeast(match_: Matcher, names: seq<Name>, targets: seq<Name>, k: nat, t: Name)
    requires k <= |names| && t in targets
    ensures Completed(match_, names, targets, k) <= Hits(match_, names, t, k)
  {
    var q :| 0 <= q < |targets| && targets[q] == t;
  }

  /** How often a target is listed. */
  function Listed(targets: seq<Name>, t: Name): nat {
    multiset(targets)[t]
  }

  /** Name `k` matches a target that the set under construction already has, or that is listed twice. */
  ghost predicate Clash(match_: Matcher, names: seq<Name>, targets: seq<Name>, k: nat, t: Name)
    requires k < |names| && |targets| > 0
  {
    && t in targets && match_(names[k], t)
    && (Hits(match_, names, t, k) > Completed(match_, names, targets, k) || Listed(targets, t) > 1)
  }

  ghost predicate ClashAt(match_: Matcher, names: seq<Name>, targets: seq<Name>, k: nat)
    requires k < |names| && |targets| > 0
  {
    exists t :: Clash(match_, names, targets, k, t)
  }

  function Keys(targets: seq<Name>): set<Name> {
    set t | t in targets
  }

  /** `sets` are complete sets: the i-th maps every target to the i-th name that matches it.
      `pending` maps every target to its next match, if there is one. */
  ghost predicate Grouped(match_: Matcher, names: seq<Name>, targets: seq<Name>, k: nat,
                          sets: seq<MatchSet>, pending: MatchSet)
    requires k <= |names| && |targets| > 0
  {
    && |sets| == Completed(match_, names, targets, k)
    && (forall i | 0 <= i < |sets| :: sets[i].Keys == Keys(targets))
    && pending.Keys == Keys(targets)
    && forall t | t in targets :: Column(match_, names, k, sets, pending, t)
  }

  /** The sets and the pending match hold exactly the names that match the target, in order. */
  ghost predicate Column(match_: Matcher, names: seq<Name>, k: nat, sets: seq<MatchSet>, pending: MatchSet, t: Name)
    requires k <= |names|
  {
    var m, c := Matching(match_, names, t, k), |sets|;
    && c <= |m| <= c + 1
    && (forall i | 0 <= i < c :: t in sets[i] && sets[i][t] == Some(m[i]))
    && t in pending && pending[t] == if |m| > c then Some(m[c]) else None
  }

  /** Every target with its first match that no complete set holds. */
  function Pending(match_: Matcher, names: seq<Name>, targets: seq<Name>, k: nat): MatchSet
    requires k <= |names| && |targets| > 0
  {
    var c := Completed(match_, names, targets, k);
    map t | t in targets ::
      if Hits(match_, names, t, k) > c then Some(Matching(match_, names, t, k)[c]) else None
  }

  lemma PendingIs(match_: Matcher, names: seq<Name>, targets: seq<Name>, k: nat, sets: seq<MatchSet>, pending: MatchSet)
    requires k <= |names| && |targets| > 0 && Grouped(match_, names, targets, k, sets, pending)
    ensures pending == Pending(match_, names, targets, k)
  {
    forall t | t in targets
      ensures pending[t] == Pending(match_, names, targets, k)[t]
    {
      assert Column(match_, names, k, sets, pending, t);
    }
  }

  // ----- The search

  function Blank(targets: seq<Name>): MatchSet {
    map t | t in targets :: None
  }

  predicate Found(m: MatchSet, t: Name) {
    t in m && m[t].Some?
  }

  /** Try the first `p` targets on a name. */
  function TryTargets(match_: Matcher, name: Name, targets: seq<Name>, p: nat, matches: MatchSet)
    : Result<MatchSet, Failure>
    requires p <= |targets|
  {
    if p == 0 then Ok(matches)
    else
      match TryTargets(match_, name, targets, p - 1, matches)
      case Err(e) => Err(e)
      case Ok(m) =>
        var t := targets[p - 1];
        if !match_(name, t) then Ok(m)
        else if Found(m, t) then Err(MatchedTwice(t, m[t].value, name))
        else Ok(m[t := Some(name)])
  }

  predicate AllFound(targets: seq<Name>, m: MatchSet) {
    forall t | t in targets :: Found(m, t)
  }

  type Progress = (seq<MatchSet>, MatchSet)

  /** One name: try it on all targets, then close the set if it is complete. */
  function TakeName(match_: Matcher, name: Name, targets: seq<Name>, sets: seq<MatchSet>, matches: MatchSet)
    : Result<Progress, Failure>
  {
    match TryTargets(match_, name, targets, |targets|, matches)
    case Err(e) => Err(e)
    case Ok(m) => Ok(if AllFound(targets, m) then (sets + [m], Blank(targets)) else (sets, m))
  }

  function Run(match_: Matcher, names: seq<Name>, targets: seq<Name>, k: nat): Result<Progress, Failure>
    requires k <= |names|
  {
    if k == 0 then Ok(([], Blank(targets)))
    else
      match Run(match_, names, targets, k - 1)
      case Err(e) => Err(e)
      case Ok((sets, matches)) => TakeName(match_, names[k - 1], targets, sets, matches)
  }

  function Leftover(m: MatchSet): Option<MatchSet> {
    if exists t | t in m :: m[t].Some? then Some(m) else None
  }

  method MatchNamesSetEager(match_: Matcher, names: seq<Name>, targets: seq<Name>)
    returns (r: Result<(seq<MatchSet>, Option<MatchSet>), Failure>)
    ensures r == match Run(match_, names, targets, |names|)
                 case Err(e) => Err(e)
                 case Ok((sets, matches)) => Ok((sets, Leftover(matches)))
    ensures r.Ok? && |targets| > 0 ==> Accounted(match_, names, targets, r.value.0, r.value.1)
    ensures r.Err? && |targets| > 0 ==> MatchesTwice(match_, names, targets, r.error)
  {
    if |targets| > 0 {
      ResultIs(match_, names, targets);
    }
    var sets: seq<MatchSet> := [];
    var matches := Blank(targets);
    for k := 0 to |names|
      invariant Run(match_, names, targets, k) == Ok((sets, matches))
    {
      ghost var before := matches;
      for p := 0 to |targets|
        invariant TryTargets(match_, names[k], targets, p, before) == Ok(matches)
      {
        var target := targets[p];
        if match_(names[k], target) {
          if Found(matches, target) {
            var e := MatchedTwice(target, matches[target].value, names[k]);
            FailureStays(match_, names, targets, k, p + 1, before, e);
            return Err(e);
          }
          matches := matches[target := Some(names[k])];
        }
      }
      if AllFound(targets, matches) {
        sets := sets + [matches];
        matches := Blank(targets);
      }
    }
    return Ok((sets, Leftover(matches)));
  }

  lemma {:induction false} FailureStays(match_: Matcher, names: seq<Name>, targets: seq<Name>, k: nat, p: nat,
                                        matches: MatchSet, e: Failure)
    requires k < |names| && p <= |targets|
    requires Run(match_, names, targets, k).Ok? && Run(match_, names, targets, k).value.1 == matches
    requires TryTargets(match_, names[k], targets, p, matches) == Err(e)
    ensures Run(match_, names, targets, |names|) == Err(e)
  {
    FailedTry(match_, names[k], targets, p, |targets|, matches, e);
    FailedRun(match_, names, targets, k + 1, |names|, e);
  }

  lemma {:induction false} FailedTry(match_: Matcher, name: Name, targets: seq<Name>, p: nat, n: nat,
                                     matches: MatchSet, e: Failure)
    requires p <= n <= |targets| && TryTargets(match_, name, targets, p, matches) == Err(e)
    ensures TryTargets(match_, name, targets, n, matches) == Err(e)
  {
    if p < n {
      FailedTry(match_, name, targets, p, n - 1, matches, e);
    }
  }

  lemma {:induction false} FailedRun(match_: Matcher, names: seq<Name>, targets: seq<Name>, k: nat, n: nat, e: Failure)
    requires k <= n <= |names| && Run(match_, names, targets, k) == Err(e)
    ensures Run(match_, names, targets, n) == Err(e)
  {
    if k < n {
      FailedRun(match_, names, targets, k, n - 1, e);
    }
  }

  /** With no targets every name completes a set with nothing in it. */
  lemma {:induction false} NoTargets(match_: Matcher, names: seq<Name>, k: nat)
    requires k <= |names|
    ensures var r := Run(match_, names, [], k);
            r.Ok? && |r.value.0| == k && (forall i | 0 <= i < k :: r.value.0[i] == map[]) && r.value.1 == map[]
  {
    if k > 0 {
      NoTargets(match_, names, k - 1);
    }
  }

  // ----- Trying all targets on one name

  /** The target is listed before position `p`. */
  ghost predicate Seen(targets: seq<Name>, p: nat, t: Name)
    requires p <= |targets|
  {
    exists q :: 0 <= q < p && targets[q] == t
  }

  /** All targets tried: the matching ones have the name, or one of them was not free. */
  lemma {:induction false} TryTargetsIs(match_: Matcher, name: Name, targets: seq<Name>, p: nat, matches: MatchSet)
    requires p <= |targets| && matches.Keys == Keys(targets)
    ensures match TryTargets(match_, name, targets, p, matches)
            case Ok(m) => Placed(match_, name, targets, p, matches, m) && Unclashed(match_, name, targets, p, matches)
            case Err(e) => exists q: nat :: q < p && match_(name, targets[q]) && !Free(targets, q, matches)
  {
    if p > 0 {
      TryTargetsIs(match_, name, targets, p - 1, matches);
      var r := TryTargets(match_, name, targets, p - 1, matches);
      if r.Ok? {
        NextTarget(match_, name, targets, p - 1, matches, r.value);
      }
    }
  }

  /** What trying one more target does. */
  lemma NextTarget(match_: Matcher, name: Name, targets: seq<Name>, p: nat, matches: MatchSet, matches': MatchSet)
    requires p < |targets| && matches.Keys == Keys(targets)
    requires Placed(match_, name, targets, p, matches, matches') && Unclashed(match_, name, targets, p, matches)
    ensures targets[p] in matches && matches.Keys == matches'.Keys
    ensures !match_(name, targets[p]) ==>
              && Placed(match_, name, targets, p + 1, matches, matches')
              && Unclashed(match_, name, targets, p + 1, matches)
    ensures match_(name, targets[p]) ==>
              if matches'[targets[p]].Some? then !Free(targets, p, matches)
              else && Placed(match_, name, targets, p + 1, matches, matches'[targets[p] := Some(name)])
                   && Unclashed(match_, name, targets, p + 1, matches)
  {
    assert targets[p] in Keys(targets);
    SeenNext(targets, p);
  }

  lemma SeenNext(targets: seq<Name>, p: nat)
    requires p < |targets|
    ensures forall t {:trigger Seen(targets, p + 1, t)} ::
              Seen(targets, p + 1, t) <==> Seen(targets, p, t) || t == targets[p]
  {
    forall t
      ensures Seen(targets, p + 1, t) <==> Seen(targets, p, t) || t == targets[p]
    {
      if Seen(targets, p, t) {
        var q :| 0 <= q < p && targets[q] == t;
      }
      if t == targets[p] {
        assert 0 <= p < p + 1 && targets[p] == t;
      }
    }
  }

  /** The first `p` targets that match the name were free and are not repeated. */
  ghost predicate Unclashed(match_: Matcher, name: Name, targets: seq<Name>, p: nat, matches: MatchSet)
    requires p <= |targets| && matches.Keys == Keys(targets)
  {
    forall q: nat | q < p && match_(name, targets[q]) :: Free(targets, q, matches)
  }

  ghost predicate Free(targets: seq<Name>, q: nat, matches: MatchSet)
    requires q < |targets| && matches.Keys == Keys(targets)
  {
    targets[q] in matches && matches[targets[q]].None? && !Seen(targets, q, targets[q])
  }

  /** The first `p` targets that match the name now have it. */
  ghost predicate Placed(match_: Matcher, name: Name, targets: seq<Name>, p: nat, matches: MatchSet, matches': MatchSet)
    requires p <= |targets|
  {
    && matches'.Keys == matches.Keys
    && forall t | t in matches ::
         matches'[t] == if match_(name, t) && Seen(targets, p, t) then Some(name) else matches[t]
  }

  // ----- What the search has found

  lemma ListedTwice(targets: seq<Name>, p: nat, t: Name)
    requires p < |targets| && targets[p] == t && Seen(targets, p, t)
    ensures Listed(targets, t) > 1
  {
    var q :| 0 <= q < p && targets[q] == t;
    assert targets == targets[..p] + ([targets[p]] + targets[p + 1..]);
    assert multiset(targets) == multiset(targets[..p]) + (multiset{t} + multiset(targets[p + 1..]));
    assert targets[..p][q] == t && t in multiset(targets[..p]);
  }

  /** A target listed more than once is met again at a later position. */
  lemma {:induction false} MetAgain(targets: seq<Name>, t: Name) returns (p: nat)
    requires Listed(targets, t) > 1
    ensures p < |targets| && targets[p] == t && Seen(targets, p, t)
  {
    p := |targets| - 1;
    var init := targets[..p];
    assert targets == init + [targets[p]];
    assert multiset(targets) == multiset(init) + multiset{targets[p]};
    if targets[p] == t {
      assert t in multiset(init);
      var q :| 0 <= q < |init| && init[q] == t;
      assert targets[q] == t;
    } else {
      p := MetAgain(init, t);
      var q :| 0 <= q < p && init[q] == t;
      assert targets[q] == t;
    }
  }

  lemma ClashFound(match_: Matcher, names: seq<Name>, targets: seq<Name>, k: nat, sets: seq<MatchSet>,
                   matches: MatchSet, p: nat)
    requires k < |names| && p < |targets| && match_(names[k], targets[p])
    requires Grouped(match_, names, targets, k, sets, matches)
    requires !Free(targets, p, matches)
    ensures ClashAt(match_, names, targets, k)
  {
    assert targets[p] in targets && Column(match_, names, k, sets, matches, targets[p]);
    if Seen(targets, p, targets[p]) {
      ListedTwice(targets, p, targets[p]);
    }
    assert Clash(match_, names, targets, k, targets[p]);
  }

  lemma NoClash(match_: Matcher, names: seq<Name>, targets: seq<Name>, k: nat, sets: seq<MatchSet>, matches: MatchSet)
    requires k < |names| && |targets| > 0 && Grouped(match_, names, targets, k, sets, matches)
    requires Unclashed(match_, names[k], targets, |targets|, matches)
    ensures !ClashAt(match_, names, targets, k)
  {
    forall t
      ensures !Clash(match_, names, targets, k, t)
    {
      if t in targets && match_(names[k], t) {
        var q: nat :| q < |targets| && targets[q] == t;
        assert Column(match_, names, k, sets, matches, t) && Free(targets, q, matches);
        if Listed(targets, t) > 1 {
          var p := MetAgain(targets, t);
          assert false;
        }
      }
    }
  }

  lemma NothingYet(match_: Matcher, names: seq<Name>, targets: seq<Name>)
    requires |targets| > 0
    ensures Correct(match_, names, targets, 0, Ok(([], Blank(targets))))
  {
    assert forall u | u in targets :: Column(match_, names, 0, [], Blank(targets), u);
  }

  /** What a target's column becomes with one more name. */
  lemma NextColumn(match_: Matcher, names: seq<Name>, targets: seq<Name>, k: nat, sets: seq<MatchSet>,
                   matches: MatchSet, matches': MatchSet, t: Name)
    requires k < |names| && |targets| > 0 && t in targets && |sets| == Completed(match_, names, targets, k)
    requires Column(match_, names, k, sets, matches, t) && !Clash(match_, names, targets, k, t)
    requires t in matches' && matches'[t] == if match_(names[k], t) then Some(names[k]) else matches[t]
    ensures Hits(match_, names, t, k + 1) == |sets| + (if matches'[t].Some? then 1 else 0)
    ensures Column(match_, names, k + 1, sets, matches', t)
  {
  }

  lemma FullColumn(match_: Matcher, names: seq<Name>, k: nat, sets: seq<MatchSet>, matches: MatchSet,
                   none: MatchSet, t: Name)
    requires k <= |names| && Column(match_, names, k, sets, matches, t) && matches[t].Some?
    requires t in none && none[t] == None
    ensures Column(match_, names, k, sets + [matches], none, t)
  {
  }

  lemma FullColumns(match_: Matcher, names: seq<Name>, targets: seq<Name>, k: nat,
                    sets: seq<MatchSet>, matches: MatchSet)
    requires k <= |names| && AllFound(targets, matches)
    requires forall t | t in targets :: Column(match_, names, k, sets, matches, t)
    ensures forall t | t in targets :: Column(match_, names, k, sets + [matches], Blank(targets), t)
  {
    forall t | t in targets
      ensures Column(match_, names, k, sets + [matches], Blank(targets), t)
    {
      assert Found(matches, t);
      FullColumn(match_, names, k, sets, matches, Blank(targets), t);
    }
  }

  lemma SameKeys(sets: seq<MatchSet>, m: MatchSet, keys: set<Name>)
    requires (forall i | 0 <= i < |sets| :: sets[i].Keys == keys) && m.Keys == keys
    ensures forall i | 0 <= i < |sets + [m]| :: (sets + [m])[i].Keys == keys
  {
  }

  /** One more name that completes a set. */
  lemma NextComplete(match_: Matcher, names: seq<Name>, targets: seq<Name>, k: nat,
                     sets: seq<MatchSet>, matches: MatchSet, matches': MatchSet)
    requires k < |names| && |targets| > 0 && Grouped(match_, names, targets, k, sets, matches)
    requires !ClashAt(match_, names, targets, k) && Placed(match_, names[k], targets, |targets|, matches, matches')
    requires AllFound(targets, matches')
    ensures Grouped(match_, names, targets, k + 1, sets + [matches'], Blank(targets))
  {
    NextColumns(match_, names, targets, k, sets, matches, matches');
    NextCount(match_, names, targets, k, |sets|, matches');
    FullColumns(match_, names, targets, k + 1, sets, matches');
    SameKeys(sets, matches', Keys(targets));
  }

  /** One more name that leaves the set under construction. */
  lemma NextPending(match_: Matcher, names: seq<Name>, targets: seq<Name>, k: nat,
                    sets: seq<MatchSet>, matches: MatchSet, matches': MatchSet)
    requires k < |names| && |targets| > 0 && Grouped(match_, names, targets, k, sets, matches)
    requires !ClashAt(match_, names, targets, k) && Placed(match_, names[k], targets, |targets|, matches, matches')
    requires !AllFound(targets, matches')
    ensures Grouped(match_, names, targets, k + 1, sets, matches')
  {
    NextColumns(match_, names, targets, k, sets, matches, matches');
    NextCount(match_, names, targets, k, |sets|, matches');
  }

  lemma NextCount(match_: Matcher, names: seq<Name>, targets: seq<Name>, k: nat, c: nat, matches': MatchSet)
    requires k < |names| && |targets| > 0 && matches'.Keys == Keys(targets)
    requires forall t | t in targets :: Hits(match_, names, t, k + 1) == c + (if matches'[t].Some? then 1 else 0)
    ensures Completed(match_, names, targets, k + 1) == c + (if AllFound(targets, matches') then 1 else 0)
  {
    if !AllFound(targets, matches') {
      var v :| v in targets && matches'[v].None?;
      CompletedIsLeast(match_, names, targets, k + 1, v);
    }
  }

  lemma NextColumns(match_: Matcher, names: seq<Name>, targets: seq<Name>, k: nat,
                    sets: seq<MatchSet>, matches: MatchSet, matches': MatchSet)
    requires k < |names| && |targets| > 0 && Grouped(match_, names, targets, k, sets, matches)
    requires !ClashAt(match_, names, targets, k) && Placed(match_, names[k], targets, |targets|, matches, matches')
    ensures forall t | t in targets :: Column(match_, names, k + 1, sets, matches', t)
    ensures forall t | t in targets :: Hits(match_, names, t, k + 1) == |sets| + (if matches'[t].Some? then 1 else 0)
  {
    forall t | t in targets
      ensures Column(match_, names, k + 1, sets, matches', t)
      ensures Hits(match_, names, t, k + 1) == |sets| + (if matches'[t].Some? then 1 else 0)
    {
      assert Column(match_, names, k, sets, matches, t) && !Clash(match_, names, targets, k, t);
      assert Seen(targets, |targets|, t);
      NextColumn(match_, names, targets, k, sets, matches, matches', t);
    }
  }

  /** One of the first `k` names clashes. */
  ghost predicate Clashed(match_: Matcher, names: seq<Name>, targets: seq<Name>, k: nat)
    requires k <= |names| && |targets| > 0
  {
    exists j: nat :: j < k && ClashAt(match_, names, targets, j)
  }

  lemma ClashedNext(match_: Matcher, names: seq<Name>, targets: seq<Name>, k: nat)
    requires k < |names| && |targets| > 0
    ensures Clashed(match_, names, targets, k + 1)
            <==> Clashed(match_, names, targets, k) || ClashAt(match_, names, targets, k)
  {
  }

  ghost predicate Correct(match_: Matcher, names: seq<Name>, targets: seq<Name>, k: nat, r: Result<Progress, Failure>)
    requires k <= |names| && |targets| > 0
  {
    && (r.Err? <==> Clashed(match_, names, targets, k))
    && (r.Ok? ==> Grouped(match_, names, targets, k, r.value.0, r.value.1))
  }

  /** Main result: after `k` names without a clash the sets are the closed form, and a clash ends the search. */
  lemma {:induction false} RunIs(match_: Matcher, names: seq<Name>, targets: seq<Name>, k: nat)
    requires k <= |names| && |targets| > 0
    ensures Correct(match_, names, targets, k, Run(match_, names, targets, k))
  {
    if k == 0 {
      NothingYet(match_, names, targets);
    } else {
      RunIs(match_, names, targets, k - 1);
      NextIsCorrect(match_, names, targets, k - 1, Run(match_, names, targets, k - 1));
    }
  }

  lemma NextIsCorrect(match_: Matcher, names: seq<Name>, targets: seq<Name>, k: nat, r: Result<Progress, Failure>)
    requires k < |names| && |targets| > 0 && Correct(match_, names, targets, k, r)
    ensures Correct(match_, names, targets, k + 1,
                    match r
                    case Err(e) => r
                    case Ok((sets, matches)) => TakeName(match_, names[k], targets, sets, matches))
  {
    ClashedNext(match_, names, targets, k);
    if r.Ok? {
      TakeNameIs(match_, names, targets, k, r.value.0, r.value.1);
    }
  }

  lemma TakeNameIs(match_: Matcher, names: seq<Name>, targets: seq<Name>, k: nat,
                   sets: seq<MatchSet>, matches: MatchSet)
    requires k < |names| && |targets| > 0 && Grouped(match_, names, targets, k, sets, matches)
    ensures var r := TakeName(match_, names[k], targets, sets, matches);
            && (r.Err? <==> ClashAt(match_, names, targets, k))
            && (r.Ok? ==> Grouped(match_, names, targets, k + 1, r.value.0, r.value.1))
  {
    TryTargetsIs(match_, names[k], targets, |targets|, matches);
    match TryTargets(match_, names[k], targets, |targets|, matches) {
      case Err(e) =>
        var q: nat :| q < |targets| && match_(names[k], targets[q]) && !Free(targets, q, matches);
        ClashFound(match_, names, targets, k, sets, matches, q);
      case Ok(m) =>
        NoClash(match_, names, targets, k, sets, matches);
        if AllFound(targets, m) {
          NextComplete(match_, names, targets, k, sets, matches, m);
        } else {
          NextPending(match_, names, targets, k, sets, matches, m);
        }
    }
  }

  /** The search fails exactly when some name clashes; otherwise it returns the closed form. */
  lemma RunExactly(match_: Matcher, names: seq<Name>, targets: seq<Name>)
    requires |targets| > 0
    ensures Run(match_, names, targets, |names|).Err? <==> Clashed(match_, names, targets, |names|)
    ensures Run(match_, names, targets, |names|).Ok? ==>
              var (sets, matches) := Run(match_, names, targets, |names|).value;
              && Grouped(match_, names, targets, |names|, sets, matches)
              && matches == Pending(match_, names, targets, |names|)
  {
    RunIs(match_, names, targets, |names|);
    var r := Run(match_, names, targets, |names|);
    if r.Ok? {
      PendingIs(match_, names, targets, |names|, r.value.0, r.value.1);
    }
  }

  /** Every name that matches a target is in one place, in order: in the sets first, and then left
      over; what is left over holds some name. */
  ghost predicate Accounted(match_: Matcher, names: seq<Name>, targets: seq<Name>, sets: seq<MatchSet>,
                            left: Option<MatchSet>)
  {
    && (forall t | t in targets ::
          var m := Matching(match_, names, t, |names|);
          && |m| == |sets| + (if LeftOver(left, t) then 1 else 0)
          && (forall i | 0 <= i < |sets| :: t in sets[i] && sets[i][t] == Some(m[i]))
          && (LeftOver(left, t) ==> left.value[t] == Some(m[|sets|])))
    && (left.Some? ==> exists t :: t in targets && LeftOver(left, t))
  }

  predicate LeftOver(left: Option<MatchSet>, t: Name) {
    left.Some? && t in left.value && left.value[t].Some?
  }

  /** The names of a failure both match its target, and the first is not listed after the second. */
  ghost predicate MatchesTwice(match_: Matcher, names: seq<Name>, targets: seq<Name>, e: Failure) {
    && e.target in targets && match_(e.first, e.target) && match_(e.second, e.target)
    && exists j: nat, k: nat :: j <= k < |names| && names[j] == e.first && names[k] == e.second
  }

  lemma LeftoverAccounts(match_: Matcher, names: seq<Name>, targets: seq<Name>, sets: seq<MatchSet>, matches: MatchSet)
    requires |targets| > 0 && Grouped(match_, names, targets, |names|, sets, matches)
    ensures Accounted(match_, names, targets, sets, Leftover(matches))
  {
    forall t | t in targets
      ensures Column(match_, names, |names|, sets, matches, t)
      ensures LeftOver(Leftover(matches), t) <==> matches[t].Some?
    {
    }
    if t :| t in matches && matches[t].Some? {
      assert t in Keys(targets) && LeftOver(Leftover(matches), t);
    }
  }

  lemma {:induction false} MatchingAre(match_: Matcher, names: seq<Name>, t: Name, k: nat, i: nat)
    requires k <= |names| && i < |Matching(match_, names, t, k)|
    ensures match_(Matching(match_, names, t, k)[i], t)
    ensures exists j: nat :: j < k && names[j] == Matching(match_, names, t, k)[i]
  {
    if i < |Matching(match_, names, t, k - 1)| {
      MatchingAre(match_, names, t, k - 1, i);
    }
  }

  lemma {:induction false} TryFails(match_: Matcher, name: Name, targets: seq<Name>, p: nat, matches: MatchSet)
    requires p <= |targets|
    ensures var r := TryTargets(match_, name, targets, p, matches);
            && (r.Ok? ==> forall t | t in r.value && r.value[t].Some? ::
                  (r.value[t] == Some(name) && match_(name, t)) || (t in matches && r.value[t] == matches[t]))
            && (r.Err? ==> var e := r.error;
                  && e.target in targets && match_(name, e.target) && e.second == name
                  && ((e.first == name) || (e.target in matches && matches[e.target] == Some(e.first))))
  {
    if p > 0 {
      TryFails(match_, name, targets, p - 1, matches);
    }
  }

  lemma {:induction false} RunFails(match_: Matcher, names: seq<Name>, targets: seq<Name>, k: nat)
    requires k <= |names| && |targets| > 0 && Run(match_, names, targets, k).Err?
    ensures MatchesTwice(match_, names, targets, Run(match_, names, targets, k).error)
  {
    var r := Run(match_, names, targets, k - 1);
    if r.Err? {
      RunFails(match_, names, targets, k - 1);
    } else {
      RunIs(match_, names, targets, k - 1);
      TryFails(match_, names[k - 1], targets, |targets|, r.value.1);
      FirstMatched(match_, names, targets, k - 1, r.value.0, r.value.1, Run(match_, names, targets, k).error);
    }
  }

  lemma FirstMatched(match_: Matcher, names: seq<Name>, targets: seq<Name>, k: nat, sets: seq<MatchSet>,
                     matches: MatchSet, e: Failure)
    requires k < |names| && |targets| > 0 && Grouped(match_, names, targets, k, sets, matches)
    requires e.target in targets && match_(names[k], e.target) && e.second == names[k]
    requires e.first == names[k] || (e.target in matches && matches[e.target] == Some(e.first))
    ensures MatchesTwice(match_, names, targets, e)
  {
    if e.first != names[k] {
      assert Column(match_, names, k, sets, matches, e.target);
      MatchingAre(match_, names, e.target, k, |sets|);
    }
  }

  lemma ResultIs(match_: Matcher, names: seq<Name>, targets: seq<Name>)
    requires |targets| > 0
    ensures var r := Run(match_, names, targets, |names|);
            && (r.Ok? ==> Accounted(match_, names, targets, r.value.0, Leftover(r.value.1)))
            && (r.Err? ==> MatchesTwice(match_, names, targets, r.error))
  {
    RunIs(match_, names, targets, |names|);
    var r := Run(match_, names, targets, |names|);
    if r.Ok? {
      LeftoverAccounts(match_, names, targets, r.value.0, r.value.1);
    } else {
      RunFails(match_, names, targets, |names|);
    }
  }

  // ----- The failure, in closed form

  /** Match counts that give every listing of a target its own count. */
  function Weight(match_: Matcher, names: seq<Name>, targets: seq<Name>, t: Name, k: nat): nat
    requires k <= |names|
  {
    Hits(match_, names, t, k) * Listed(targets, t)
  }

  /** After name `k` the target's count is two ahead of the sets completed before that name. */
  ghost predicate TwoAhead(match_: Matcher, names: seq<Name>, targets: seq<Name>, k: nat, t: Name) {
    && k < |names| && t in targets
    && Weight(match_, names, targets, t, k + 1) >= Completed(match_, names, targets, k) + 2
  }

  /** The search fails exactly when, at some name, a target's count runs two ahead of the sets
      completed before that name. */
  lemma FailsExactly(match_: Matcher, names: seq<Name>, targets: seq<Name>)
    requires |targets| > 0
    ensures Run(match_, names, targets, |names|).Err? <==> exists k: nat, t :: TwoAhead(match_, names, targets, k, t)
  {
    RunIs(match_, names, targets, |names|);
    ClashedIsTwoAhead(match_, names, targets);
  }

  lemma ClashedIsTwoAhead(match_: Matcher, names: seq<Name>, targets: seq<Name>)
    requires |targets| > 0
    ensures Clashed(match_, names, targets, |names|) <==> exists k: nat, t :: TwoAhead(match_, names, targets, k, t)
  {
    if k: nat :| k < |names| && ClashAt(match_, names, targets, k) {
      var t :| Clash(match_, names, targets, k, t);
      ClashIsTwoAhead(match_, names, targets, k, t);
    }
    if k: nat, t :| TwoAhead(match_, names, targets, k, t) {
      var j := ClashBefore(match_, names, targets, k, t);
    }
  }

  lemma ClashIsTwoAhead(match_: Matcher, names: seq<Name>, targets: seq<Name>, k: nat, t: Name)
    requires k < |names| && |targets| > 0 && Clash(match_, names, targets, k, t)
    ensures TwoAhead(match_, names, targets, k, t)
  {
    assert t in multiset(targets);
    CompletedIsLeast(match_, names, targets, k, t);
    HeavyClash(Hits(match_, names, t, k), Listed(targets, t), Completed(match_, names, targets, k));
  }

  lemma HeavyClash(hits: nat, listed: nat, done: nat)
    requires hits >= done && listed >= 1 && (hits > done || listed > 1)
    ensures (hits + 1) * listed >= done + 2
  {
    assert (hits + 1) * listed >= hits + 1;
    if listed > 1 {
      assert (hits + 1) * listed == (hits + 1) + (hits + 1) * (listed - 1);
      assert (hits + 1) * (listed - 1) >= 1;
    }
  }

  lemma WeightBounds(hits: nat, listed: nat)
    ensures listed == 1 ==> hits * listed == hits
    ensures hits == 0 ==> hits * listed == 0
  {
  }

  lemma {:induction false} ClashBefore(match_: Matcher, names: seq<Name>, targets: seq<Name>, k: nat, t: Name)
    returns (j: nat)
    requires TwoAhead(match_, names, targets, k, t)
    ensures j <= k && ClashAt(match_, names, targets, j)
  {
    j := k;
    assert t in multiset(targets);
    var hits, before := Hits(match_, names, t, k + 1), Hits(match_, names, t, k);
    WeightBounds(hits, Listed(targets, t));
    WeightBounds(before, Listed(targets, t));
    if Listed(targets, t) > 1 {
      j := FirstHit(match_, names, targets, k, t);
    } else if match_(names[k], t) {
      assert Clash(match_, names, targets, k, t);
    } else {
      assert Hits(match_, names, t, 0) == 0;
      CompletedGrows(match_, names, targets, k - 1);
      j := ClashBefore(match_, names, targets, k - 1, t);
    }
  }

  lemma {:induction false} FirstHit(match_: Matcher, names: seq<Name>, targets: seq<Name>, k: nat, t: Name)
    returns (j: nat)
    requires k < |names| && |targets| > 0 && t in targets && Listed(targets, t) > 1
    requires Hits(match_, names, t, k + 1) > 0
    ensures j <= k && ClashAt(match_, names, targets, j)
  {
    j := k;
    if match_(names[k], t) {
      assert Clash(match_, names, targets, k, t);
    } else {
      assert Hits(match_, names, t, 0) == 0;
      j := FirstHit(match_, names, targets, k - 1, t);
    }
  }

  lemma CompletedGrows(match_: Matcher, names: seq<Name>, targets: seq<Name>, k: nat)
    requires k < |names| && |targets| > 0
    ensures Completed(match_, names, targets, k) <= Completed(match_, names, targets, k + 1)
  {
    CompletedIsLeast(match_, names, targets, k, Laggard(match_, names, targets, k + 1));
  }
}
