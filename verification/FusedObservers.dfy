/** The observer and fusion-handler objects, each method proved to perform the
    corresponding step of FusionProtocol on the group it belongs to.

    The ghost parameters name the group: `m` its members, `g` the protocol state
    they are in, `weights` what observing their own weights yields, and `i` the
    position of the receiver. */
module FusedObservers {
  import opened Prelude
  import opened FusionProtocol

  /** A module whose weight may have to be observed lazily. */
  class Linear {
    const weight: seq<real>

    constructor (weight: seq<real>)
      ensures this.weight == weight
    {
      this.weight := weight;
    }
  }

  class FusionHandler {
    var observer: Observer?
    var linear: Linear?             // weak reference: null once collected
    var group: seq<FusionHandler>   // the other members
    var deletionCalled: bool

    constructor ()
      ensures observer == null && linear == null && group == [] && !deletionCalled
    {
      observer, linear, group, deletionCalled := null, null, [], false;
    }

    /** Statistics of every member, this one's first; members without any are observed on their weights. */
    method GetFusedStatistics(ghost m: Members, ghost g: Group, ghost weights: seq<Stats>, ghost i: nat)
      returns (all: seq<Stats>)
      requires m.Is(g, weights)
      requires i < |m.hs| && m.hs[i] == this && g.stats[i].Some?
      modifies m.os`stats
      ensures m.Is(FillIn(g, weights), weights)
      ensures |all| > 0 && forall s :: s in all <==> Some(s) in FillIn(g, weights).stats
      decreases Missing(g), 3
    {
      var handlers := [this] + group;
      ghost var order := SelfFirst(|m.hs|, i);
      assert InOrder(handlers, m.hs, order);
      ObserveMissing(handlers, m, g, weights, order);
      all := Collect(handlers, m, FillIn(g, weights), weights, order);
    }

    /** Cooperative deletion: the last member to ask deletes the statistics of all. */
    method MaybeDeleteStatistics(ghost m: Members, ghost g: Group, ghost i: nat)
      requires m.At(g) && i < |m.hs| && m.hs[i] == this
      requires |m.os| == 1 ==> !g.asked[i]
      modifies m.os`stats, m.hs`deletionCalled
      ensures m.At(Ask(g, i))
    {
      if |group| == 0 {
        observer.DropStatistics();
        return;
      }
      deletionCalled := true;
      OthersAre(m, g, i);
      if forall h | h in group :: h.deletionCalled {
        ResetGroup(m, i);
      }
    }

    /** Clear the requests and the statistics of all members. */
    method ResetGroup(ghost m: Members, ghost i: nat)
      requires m.Linked() && i < |m.hs| && m.hs[i] == this
      modifies m.os`stats, m.hs`deletionCalled
      ensures m.At(Fresh(|m.os|))
    {
      deletionCalled := false;
      ResetOthers(group, m, i);
      observer.DropStatistics();
    }
  }

  /** Clear the request and the statistics of the other members. */
  method ResetOthers(group: seq<FusionHandler>, ghost m: Members, ghost i: nat)
    requires m.Linked() && i < |m.hs| && group == m.hs[i].group
    modifies m.os`stats, m.hs`deletionCalled
    ensures forall j | 0 <= j < |m.os| && j != i :: m.os[j].stats.None? && !m.hs[j].deletionCalled
    ensures m.hs[i].deletionCalled == old(m.hs[i].deletionCalled)
  {
    for k := 0 to |group|
      invariant forall x | 0 <= x < |m.os| && x != i && (if x < i then x else x - 1) < k ::
                  m.os[x].stats.None? && !m.hs[x].deletionCalled
      invariant m.hs[i].deletionCalled == old(m.hs[i].deletionCalled)
    {
      ghost var x := if k < i then k else k + 1;
      assert group[k] == m.hs[x] && m.hs[x].observer == m.os[x];
      group[k].deletionCalled := false;
      group[k].observer.DropStatistics();
    }
  }

  /** Observe the weights of the handlers whose observers hold nothing. */
  method ObserveMissing(handlers: seq<FusionHandler>, ghost m: Members, ghost g: Group, ghost weights: seq<Stats>,
                        ghost order: seq<nat>)
    requires m.Is(g, weights) && InOrder(handlers, m.hs, order)
    requires |m.os| == 1 ==> g.Present()
    modifies m.os`stats
    ensures m.Is(FillIn(g, weights), weights)
    decreases Missing(g), 2
  {
    ghost var now, full, filled := g, FillIn(g, weights), false;
    assert forall j | 0 <= j < |full.stats| :: full.stats[j].Some?;
    assert Missing(full) <= Missing(g) && FillIn(full, weights) == full;
    for k := 0 to |handlers|
      invariant m.Is(now, weights) && now == if filled then full else g
      invariant !filled ==> forall j | 0 <= j < k :: g.stats[order[j]].Some?
    {
      ghost var at := order[k];
      ObserveWeight(handlers[k], m, now, weights, at);
      if now.stats[at].None? {
        now, filled := full, true;
      }
    }
    AlreadyFull(g, weights, order);
  }

  /** Run the observer on its module's weight if it holds no statistics. */
  method ObserveWeight(handler: FusionHandler, ghost m: Members, ghost g: Group,
                       ghost weights: seq<Stats>, ghost i: nat)
    requires m.Is(g, weights) && i < |m.hs| && m.hs[i] == handler
    requires |m.os| == 1 ==> g.stats[i].Some?
    modifies m.os`stats
    ensures m.Is(if g.stats[i].Some? then g else FillIn(g, weights), weights)
    decreases Missing(g), 1
  {
    var obs := handler.observer;
    if obs.stats.None? {
      ObservingOwnWeight(g, weights, i);
      obs.Forward(handler.linear.weight, m, g, weights, i);
    }
  }

  /** The statistics of the given handlers' observers, in order. */
  method Collect(handlers: seq<FusionHandler>, ghost m: Members, ghost g: Group,
                 ghost weights: seq<Stats>, ghost order: seq<nat>)
    returns (all: seq<Stats>)
    requires m.Is(g, weights) && g.Present() && InOrder(handlers, m.hs, order)
    ensures |all| == |handlers| && forall s :: s in all <==> Some(s) in g.stats
  {
    all := [];
    for k := 0 to |handlers|
      invariant |all| == k
      invariant forall j | 0 <= j < k :: g.stats[order[j]] == Some(all[j])
    {
      all := all + [handlers[k].observer.stats.value];
    }
    SameStats(g, all, order);
  }

  method LargestAbsolute(all: seq<Stats>) returns (absmax: real)
    requires |all| > 0
    ensures IsAbsMax(absmax, all)
  {
    absmax := all[0].hi;
    for k := 0 to |all|
      invariant absmax == all[0].hi || exists j :: 0 <= j < k && (absmax == -all[j].lo || absmax == all[j].hi)
      invariant all[0].hi <= absmax && forall j | 0 <= j < k :: -all[j].lo <= absmax && all[j].hi <= absmax
    {
      absmax := Max(absmax, -all[k].lo);
      absmax := Max(absmax, all[k].hi);
    }
  }

  class Observer {
    var handler: FusionHandler
    const measure: seq<real> -> Stats   // statistics of a value seen with none held yet
    var stats: Option<Stats>

    constructor (measure: seq<real> -> Stats)
      ensures fresh(handler) && handler.observer == this
      ensures handler.linear == null && handler.group == [] && !handler.deletionCalled
      ensures this.measure == measure && stats == None
    {
      this.measure := measure;
      stats := None;
      handler := new FusionHandler();
      new;
      handler.observer := this;
    }

    /** Observe a value: nothing happens if it is empty or statistics are held already. */
    method Forward(observed: seq<real>, ghost m: Members, ghost g: Group, ghost weights: seq<Stats>, ghost i: nat)
      requires m.Is(g, weights) && i < |m.os| && m.os[i] == this
      modifies m.os`stats
      ensures m.Is(Observe(g, weights, i, if |observed| == 0 then None else Some(measure(observed))), weights)
      decreases Missing(g), 0
    {
      if |observed| == 0 {
        return;
      }
      if stats.Some? {
        return;
      }
      assert i in Missing(g);
      stats := Some(measure(observed));
      var _ := handler.GetFusedStatistics(m, g.(stats := g.stats[i := stats]), weights, i);
    }

    /** The largest absolute value over the whole group, which determines the global scale. */
    method GetGlobalScale(ghost m: Members, ghost g: Group, ghost weights: seq<Stats>, ghost i: nat)
      returns (absmax: real)
      requires m.Is(g, weights) && i < |m.os| && m.os[i] == this && stats.Some?
      modifies m.os`stats
      ensures m.Is(FillIn(g, weights), weights) && absmax == AbsMax(Values(FillIn(g, weights)))
    {
      var all := handler.GetFusedStatistics(m, g, weights, i);
      absmax := LargestAbsolute(all);
      ScaleIs(FillIn(g, weights), all, absmax);
    }

    /** The parameters of this member; an assertion error when it holds no statistics. */
    method GetQParams(ghost m: Members, ghost g: Group, ghost weights: seq<Stats>, ghost i: nat)
      returns (scale: Result<real, string>)
      requires m.Is(g, weights) && i < |m.os| && m.os[i] == this
      requires g.Consistent()
      modifies m.os`stats, m.hs`deletionCalled
      ensures scale.Err? <==> g.stats[i].None?
      ensures scale.Ok? ==> g.Present() && scale.value == AbsMax(Values(g))
      ensures m.At(Step(g, weights, GettingQParams(i)))
    {
      ConsistentMember(g, i);
      if stats.None? {
        return Err("No statistics available. Call observer(value) first.");
      }
      var absmax := GetGlobalScale(m, g, weights, i);
      PresentIsFull(g, weights);
      DeleteStatistics(true, m, g, i);
      return Ok(absmax);
    }

    method DropStatistics()
      modifies this`stats
      ensures stats == None
    {
      stats := None;
    }

    method DeleteStatistics(checkFused: bool, ghost m: Members, ghost g: Group, ghost i: nat)
      requires m.At(g) && i < |m.os| && m.os[i] == this
      requires |m.os| == 1 ==> !g.asked[i]
      modifies m.os`stats, m.hs`deletionCalled
      ensures m.At(if checkFused then Ask(g, i) else g.(stats := g.stats[i := None]))
    {
      if checkFused {
        handler.MaybeDeleteStatistics(m, g, i);
      } else {
        DropStatistics();
      }
    }
  }

  // ----- What the group looks like

  /** `group` lists the handlers other than the i-th, in order. */
  ghost predicate IsOthers(group: seq<FusionHandler>, hs: seq<FusionHandler>, i: nat) {
    |group| == |hs| - 1 && forall k | 0 <= k < |group| :: group[k] == hs[if k < i then k else k + 1]
  }

  /** A fusion group: its observers and their handlers, position by position. */
  datatype Members = Members(os: seq<Observer>, hs: seq<FusionHandler>)
  {
    /** The members know each other, and nobody else. */
    ghost predicate Linked()
      reads os`handler, hs`observer, hs`group
    {
      && |os| == |hs| > 0
      && (forall j, k | 0 <= j < k < |os| :: os[j] != os[k])
      && forall j | 0 <= j < |os| :: os[j].handler == hs[j] && hs[j].observer == os[j] && IsOthers(hs[j].group, hs, j)
    }

    /** The group is in protocol state `g`, and its weights have statistics `weights`. */
    ghost predicate Is(g: Group, weights: seq<Stats>)
      reads os`handler, os`stats, hs`observer, hs`group, hs`deletionCalled, hs`linear
    {
      At(g) && Weighs(weights)
    }

    ghost predicate At(g: Group)
      reads os`handler, os`stats, hs`observer, hs`group, hs`deletionCalled
    {
      Linked() && Represents(g)
    }

    ghost predicate Represents(g: Group)
      reads os`stats, hs`deletionCalled
    {
      && |g.stats| == |g.asked| == |os| == |hs|
      && forall j | 0 <= j < |os| :: g.stats[j] == os[j].stats && g.asked[j] == hs[j].deletionCalled
    }

    /** In a fused group every member's module is alive, with a non-empty weight of these statistics;
        an observer that is not fused has no module. */
    ghost predicate Weighs(weights: seq<Stats>)
      reads hs`linear
    {
      && |weights| == |os| == |hs|
      && (|os| > 1 ==> forall j | 0 <= j < |os| ::
            hs[j].linear != null && |hs[j].linear.weight| > 0 && weights[j] == os[j].measure(hs[j].linear.weight))
    }
  }

  /** `order` says which member each handler is; every member is there. */
  ghost predicate InOrder(handlers: seq<FusionHandler>, hs: seq<FusionHandler>, order: seq<nat>) {
    && |handlers| == |order| == |hs|
    && (forall k | 0 <= k < |order| :: order[k] < |hs| && handlers[k] == hs[order[k]])
    && forall j: nat | j < |hs| :: Contains(order, j)
  }

  ghost predicate Contains(order: seq<nat>, j: nat) {
    exists k :: 0 <= k < |order| && order[k] == j
  }

  /** Position `i` first, then the others in order. */
  ghost function SelfFirst(n: nat, i: nat): (order: seq<nat>)
    requires i < n
    ensures |order| == n && (forall k | 0 <= k < n :: order[k] == if k == 0 then i else if k <= i then k - 1 else k)
    ensures forall j: nat | j < n :: Contains(order, j)
  {
    var order: seq<nat> := seq(n, k => if k == 0 then i else if k <= i then k - 1 else k);
    forall j: nat | j < n
      ensures Contains(order, j)
    {
      assert order[if j == i then 0 else if j < i then j + 1 else j] == j;
    }
    order
  }

  ghost function Missing(g: Group): set<nat> {
    set j: nat | j < |g.stats| && g.stats[j].None?
  }

  lemma AlreadyFull(g: Group, weights: seq<Stats>, order: seq<nat>)
    requires |g.stats| == |weights| && (forall j: nat | j < |g.stats| :: Contains(order, j))
    requires forall k | 0 <= k < |order| :: order[k] < |g.stats|
    ensures (forall k | 0 <= k < |order| :: g.stats[order[k]].Some?) ==> FillIn(g, weights) == g
  {
    if forall k | 0 <= k < |order| :: g.stats[order[k]].Some? {
      forall j: nat | j < |g.stats|
        ensures g.stats[j].Some?
      {
        assert Contains(order, j);
        var k :| 0 <= k < |order| && order[k] == j;
      }
      assert FillIn(g, weights).stats == g.stats;
    }
  }

  lemma OthersAre(m: Members, g: Group, i: nat)
    requires m.Linked() && |g.asked| == |m.hs| && i < |m.hs|
    requires forall j | 0 <= j < |m.hs| && j != i :: g.asked[j] == m.hs[j].deletionCalled
    ensures (forall h | h in m.hs[i].group :: h.deletionCalled) <==>
            forall j | 0 <= j < |g.asked| :: j == i || g.asked[j]
  {
    var group := m.hs[i].group;
    assert forall j | 0 <= j < |m.hs| && j != i :: m.hs[j] == group[if j < i then j else j - 1];
    assert forall k | 0 <= k < |group| :: group[k] == m.hs[if k < i then k else k + 1];
  }

  lemma SameStats(g: Group, all: seq<Stats>, order: seq<nat>)
    requires |all| == |order| && (forall j: nat | j < |g.stats| :: Contains(order, j))
    requires forall k | 0 <= k < |order| :: order[k] < |g.stats| && g.stats[order[k]] == Some(all[k])
    ensures forall s :: s in all <==> Some(s) in g.stats
  {
    forall s | Some(s) in g.stats
      ensures s in all
    {
      var j: nat :| j < |g.stats| && g.stats[j] == Some(s);
      assert Contains(order, j);
      var k :| 0 <= k < |order| && order[k] == j;
      assert all[k] == s;
    }
  }

  lemma ValuesAre(g: Group)
    requires g.Present()
    ensures forall s :: s in Values(g) <==> Some(s) in g.stats
  {
    assert forall j | 0 <= j < |g.stats| :: Some(Values(g)[j]) == g.stats[j];
  }

  lemma ObservingOwnWeight(g: Group, weights: seq<Stats>, i: nat)
    requires i < |g.stats| == |weights| && g.stats[i].None?
    ensures Observe(g, weights, i, Some(weights[i])) == FillIn(g, weights)
  {
    assert FillIn(g.(stats := g.stats[i := Some(weights[i])]), weights).stats == FillIn(g, weights).stats;
  }

  lemma ScaleIs(g: Group, all: seq<Stats>, absmax: real)
    requires |g.stats| > 0 && g.Present() && |all| > 0 && IsAbsMax(absmax, all)
    requires forall s :: s in all <==> Some(s) in g.stats
    ensures absmax == AbsMax(Values(g))
  {
    ValuesAre(g);
    AbsMaxUnordered(absmax, all, Values(g));
  }

  lemma ConsistentMember(g: Group, i: nat)
    requires g.Consistent() && i < |g.stats|
    ensures g.stats[i].Some? ==> g.Present()
    ensures |g.stats| == 1 && g.Present() ==> !g.asked[i]
  {
  }

  lemma PresentIsFull(g: Group, weights: seq<Stats>)
    requires g.Present() && |g.stats| == |weights|
    ensures FillIn(g, weights) == g
  {
  }

  // ----- Linking and cleaning up

  /** Link the observers with each other; each handler remembers its module. */
  method Fuse(os: seq<Observer>, linears: seq<Linear>, ghost hs: seq<FusionHandler>)
    requires |os| == |linears| == |hs| > 0
    requires forall j, k | 0 <= j < k < |os| :: os[j] != os[k]
    requires forall j | 0 <= j < |os| :: os[j].handler == hs[j] && hs[j].observer == os[j]
    modifies hs`linear, hs`group
    ensures Members(os, hs).Linked()
    ensures forall j | 0 <= j < |os| :: hs[j].linear == linears[j]
  {
    var handlers: seq<FusionHandler> := [];
    for k := 0 to |os|
      invariant handlers == hs[..k]
      invariant forall j | 0 <= j < k :: hs[j].linear == linears[j]
    {
      assert forall j | 0 <= j < k :: hs[j] != hs[k];
      os[k].handler.linear := linears[k];
      handlers := handlers + [os[k].handler];
    }
    assert handlers == hs;
    for k := 0 to |handlers|
      invariant forall j | 0 <= j < |os| :: hs[j].linear == linears[j]
      invariant forall j | 0 <= j < k :: IsOthers(hs[j].group, hs, j)
    {
      assert forall j | 0 <= j < k :: hs[j] != hs[k];
      handlers[k].group := handlers[..k] + handlers[k + 1..];
    }
  }
}
