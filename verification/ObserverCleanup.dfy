/** The statistics clean-up that follows the broadcast of quantisation parameters:
    every listed observer that still holds statistics asks for their deletion. */
module ObserverCleanup {
  import opened Prelude
  import opened FusionProtocol
  import opened FusedObservers

  /** Every observer and handler belongs to one group only, its owner. */
  ghost predicate Separate(groups: seq<Members>, owner: map<object, nat>) {
    && (forall x, j | 0 <= x < |groups| && 0 <= j < |groups[x].os| ::
         groups[x].os[j] in owner && owner[groups[x].os[j]] == x)
    && (forall x, j | 0 <= x < |groups| && 0 <= j < |groups[x].hs| ::
         groups[x].hs[j] in owner && owner[groups[x].hs[j]] == x)
  }

  /** Each group is in the given, consistent protocol state. */
  ghost predicate World(groups: seq<Members>, gs: seq<Group>, owner: map<object, nat>)
    reads owner.Keys
  {
    && |groups| == |gs| && Separate(groups, owner)
    && forall x | 0 <= x < |groups| :: groups[x].At(gs[x]) && gs[x].Consistent()
  }

  // ----- The protocol side

  /** Where a listed observer sits: member `i` of group `x`. */
  datatype Place = Nowhere | At(x: nat, i: nat)

  ghost predicate Fits(p: Place, gs: seq<Group>) {
    p.At? ==> p.x < |gs| && p.i < |gs[p.x].stats| == |gs[p.x].asked|
  }

  /** A listed observer that holds statistics asks for their deletion. */
  ghost function CleanStep(gs: seq<Group>, p: Place): seq<Group>
    requires Fits(p, gs)
  {
    if p.Nowhere? || gs[p.x].stats[p.i].None? then gs else gs[p.x := Ask(gs[p.x], p.i)]
  }

  ghost predicate AllFit(places: seq<Place>, gs: seq<Group>) {
    && (forall x | 0 <= x < |gs| :: gs[x].Consistent())
    && forall k | 0 <= k < |places| :: Fits(places[k], gs)
  }

  ghost function Cleaned(gs: seq<Group>, places: seq<Place>): (next: seq<Group>)
    requires AllFit(places, gs)
    ensures |next| == |gs| && forall x | 0 <= x < |gs| :: next[x].Consistent() && |next[x].stats| == |gs[x].stats|
  {
    if |places| == 0 then gs
    else
      var before := Cleaned(gs, places[..|places| - 1]);
      var last := places[|places| - 1];
      assert Fits(last, gs);
      assert last.At? ==> before[last.x].Consistent();
      StepConsistent(before, last);
      CleanStep(before, last)
  }

  lemma StepConsistent(gs: seq<Group>, p: Place)
    requires Fits(p, gs) && forall x | 0 <= x < |gs| :: gs[x].Consistent()
    ensures forall x | 0 <= x < |gs| :: CleanStep(gs, p)[x].Consistent()
    ensures p.At? && gs[p.x].stats[p.i].Some? ==> gs[p.x].Present() && (|gs[p.x].stats| == 1 ==> !gs[p.x].asked[p.i])
  {
    if p.At? && gs[p.x].stats[p.i].Some? {
      ConsistentMember(gs[p.x], p.i);
      StepKeeps(gs[p.x], Values(gs[p.x]), GettingQParams(p.i));
    }
  }

  /** A member that has been listed has asked, or its statistics are gone. */
  lemma {:induction false} ListedHaveAsked(gs: seq<Group>, places: seq<Place>, k: nat)
    requires AllFit(places, gs) && k < |places| && places[k].At?
    ensures var p := places[k]; var g := Cleaned(gs, places)[p.x];
            Fits(p, gs) && (g.stats[p.i].None? || g.asked[p.i])
  {
    var n := |places| - 1;
    assert Fits(places[k], gs) && Fits(places[n], gs);
    var before := Cleaned(gs, places[..n]);
    if k < n {
      ListedHaveAsked(gs, places[..n], k);
    }
    var p, q := places[k], places[n];
    assert q.At? ==> before[q.x].Consistent();
    assert before[p.x].Consistent();
  }

  /** When every member of a group is listed, the group ends without statistics or requests. */
  lemma CleanedAway(gs: seq<Group>, places: seq<Place>, x: nat)
    requires AllFit(places, gs) && x < |gs|
    requires forall i: nat | i < |gs[x].stats| :: At(x, i) in places
    ensures Cleaned(gs, places)[x] == Fresh(|gs[x].stats|)
  {
    var g := Cleaned(gs, places)[x];
    assert g.Consistent();
    forall i: nat | i < |gs[x].stats|
      ensures g.stats[i].None? || g.asked[i]
    {
      var k :| 0 <= k < |places| && places[k] == At(x, i);
      ListedHaveAsked(gs, places, k);
    }
  }

  // ----- The loop

  /** `list` are the listed modules' observers, null for a module without one; `places` says
      where each sits. */
  method CleanUp(list: seq<Observer?>, ghost places: seq<Place>, ghost groups: seq<Members>, ghost gs: seq<Group>,
                 ghost owner: map<object, nat>)
    requires World(groups, gs, owner) && AllFit(places, gs) && Located(list, places, groups)
    modifies owner.Keys
    ensures World(groups, Cleaned(gs, places), owner)
    ensures forall x | 0 <= x < |gs| && (forall i: nat | i < |gs[x].stats| :: At(x, i) in places) ::
              groups[x].At(Fresh(|gs[x].stats|))
  {
    assert places[..0] == [];
    for k := 0 to |list|
      invariant World(groups, Cleaned(gs, places[..k]), owner)
    {
      ghost var now := Cleaned(gs, places[..k]);
      assert places[..k + 1][..k] == places[..k] && Fits(places[k], gs);
      assert places[k].At? ==> now[places[k].x].Consistent();
      if list[k] != null {
        CleanOne(list[k], groups, now, owner, places[k]);
      }
    }
    assert places[..|places|] == places;
    ListedGroupsAreGone(places, groups, gs, owner);
  }

  lemma ListedGroupsAreGone(places: seq<Place>, groups: seq<Members>, gs: seq<Group>, owner: map<object, nat>)
    requires AllFit(places, gs) && World(groups, Cleaned(gs, places), owner)
    ensures forall x | 0 <= x < |gs| && (forall i: nat | i < |gs[x].stats| :: At(x, i) in places) ::
              groups[x].At(Fresh(|gs[x].stats|))
  {
    forall x | 0 <= x < |gs| && (forall i: nat | i < |gs[x].stats| :: At(x, i) in places)
      ensures groups[x].At(Fresh(|gs[x].stats|))
    {
      CleanedAway(gs, places, x);
    }
  }

  ghost predicate Located(list: seq<Observer?>, places: seq<Place>, groups: seq<Members>) {
    && |list| == |places|
    && forall k | 0 <= k < |list| ::
         match places[k]
         case Nowhere => list[k] == null
         case At(x, i) => x < |groups| && i < |groups[x].os| && list[k] == groups[x].os[i]
  }

  method CleanOne(obs: Observer, ghost groups: seq<Members>, ghost gs: seq<Group>, ghost owner: map<object, nat>,
                  ghost p: Place)
    requires World(groups, gs, owner) && Fits(p, gs) && p.At? && groups[p.x].os[p.i] == obs
    modifies groups[p.x].os`stats, groups[p.x].hs`deletionCalled
    ensures World(groups, CleanStep(gs, p), owner)
  {
    StepConsistent(gs, p);
    if obs.stats.Some? {
      obs.DeleteStatistics(true, groups[p.x], gs[p.x], p.i);
    }
  }
}
