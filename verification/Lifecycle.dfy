/** The modifier and lifecycle objects; every method performs the corresponding step of
    LifecycleMachine. */
module Lifecycle {
  import opened Prelude
  import opened LifecycleMachine

  lemma ThroughOne(a: Hook, conduct: Conduct)
    ensures Through([a], conduct) == Call([a], conduct.raises == Some(a), conduct.reports)
  {
    assert Through([], conduct) == Call([], false, conduct.reports);
  }

  lemma ThroughTwo(a: Hook, b: Hook, conduct: Conduct)
    ensures Through([a, b], conduct) == if conduct.raises == Some(a) then Call([a], true, conduct.reports)
                                        else Call([a, b], conduct.raises == Some(b), conduct.reports)
  {
    assert [a, b][1..] == [b];
    ThroughOne(b, conduct);
  }

  lemma ThroughThree(a: Hook, b: Hook, c: Hook, conduct: Conduct)
    ensures Through([a, b, c], conduct) ==
            if conduct.raises == Some(a) then Call([a], true, conduct.reports)
            else if conduct.raises == Some(b) then Call([a, b], true, conduct.reports)
            else Call([a, b, c], conduct.raises == Some(c), conduct.reports)
  {
    assert [a, b, c][1..] == [b, c];
    ThroughTwo(b, c, conduct);
  }

  class Modifier {
    const start: Option<real>
    const end: Option<real>
    var initialized: bool
    var finalized: bool
    var started: bool
    var ended: bool
    ghost var log: seq<Call>

    ghost predicate Is(m: Mod)
      reads this
    {
      m == Mod(start, end, initialized, finalized, started, ended, log)
    }

    constructor (start: Option<real>, end: Option<real>)
      ensures Is(Mod(start, end, false, false, false, false, []))
    {
      this.start, this.end := start, end;
      initialized, finalized, started, ended := false, false, false, false;
      log := [];
    }

    predicate ShouldStartAt(event: Event)
      requires event.stepsPerEpoch != Some(0)
      reads this
    {
      if start.None? then false
      else
        AlwaysAnIndex(event);
        var current := CurrentIndex(event).value;
        start.value <= current && (end.None? || current < end.value)
    }

    predicate ShouldEndAt(event: Event)
      requires event.stepsPerEpoch != Some(0)
      reads this
    {
      AlwaysAnIndex(event);
      var current := CurrentIndex(event).value;
      end.Some? && current >= end.value
    }

    /** The last of the hooks called so far in the call under way, which began when the log was
        `before`; false: it raises. */
    method Invoke(hook: Hook, conduct: Conduct, ghost before: seq<Call>, ghost called: seq<Hook>) returns (ok: bool)
      requires |called| > 0 && called[|called| - 1] == hook
      modifies this`log
      ensures ok == (conduct.raises != Some(hook))
      ensures log == before + [Call(called, !ok, conduct.reports)]
    {
      ok := conduct.raises != Some(hook);
      log := before + [Call(called, !ok, conduct.reports)];
    }

    /** False: the modifier refuses, or a hook raises and what follows it is not done. */
    method InitializeModifier(conduct: Conduct, ghost m: Mod) returns (ok: bool)
      requires Is(m)
      modifies this
      ensures Is(Apply(m, DoInitialize, conduct).0) && ok == Apply(m, DoInitialize, conduct).1
    {
      if initialized {
        return false;
      }
      if finalized {
        return false;
      }
      ThroughOne(OnInitialize, conduct);
      ThroughTwo(OnInitialize, OnStart, conduct);
      ok := Invoke(OnInitialize, conduct, m.log, [OnInitialize]);
      if !ok {
        return;
      }
      initialized := conduct.reports;
      var fakeStart := Event(BatchStart, None, 0);
      if ShouldStartAt(fakeStart) {
        ok := Invoke(OnStart, conduct, m.log, [OnInitialize, OnStart]);
        if !ok {
          return;
        }
        started := true;
      }
    }

    method FinalizeModifier(conduct: Conduct, ghost m: Mod) returns (ok: bool)
      requires Is(m)
      modifies this
      ensures Is(Apply(m, DoFinalize, conduct).0) && ok == Apply(m, DoFinalize, conduct).1
    {
      if finalized {
        return false;
      }
      if !initialized {
        return false;
      }
      ThroughOne(OnFinalize, conduct);
      ok := Invoke(OnFinalize, conduct, m.log, [OnFinalize]);
      if !ok {
        return;
      }
      finalized := conduct.reports;
    }

    /** An event without steps per epoch, as the lifecycle creates them. */
    method UpdateEvent(event: Event, conduct: Conduct, ghost m: Mod) returns (ok: bool)
      requires Is(m) && event.stepsPerEpoch == None && event.globalStep == 0
      modifies this
      ensures Is(Apply(m, DoEvent(event.type_), conduct).0) && ok == Apply(m, DoEvent(event.type_), conduct).1
    {
      if !initialized {
        return false;
      }
      if finalized {
        return false;
      }
      CalibrationCalls(m, event.type_, conduct);
      ok := Invoke(OnEvent, conduct, m.log, [OnEvent]);
      if !ok {
        return;
      }
      if CalibrationHook(event.type_).Some? {
        ok := UpdateInCalibration(event, conduct, m);
      } else {
        ok := UpdateInTraining(event, conduct, m);
      }
    }

    /** The calibration part of an update: the catch-all hook has returned. */
    method UpdateInCalibration(event: Event, conduct: Conduct, ghost m: Mod) returns (ok: bool)
      requires !Refuses(m, DoEvent(event.type_)) && CalibrationHook(event.type_).Some?
      requires conduct.raises != Some(OnEvent) && Is(Logged(m, Call([OnEvent], false, conduct.reports)))
      modifies this
      ensures Is(Apply(m, DoEvent(event.type_), conduct).0) && ok == Apply(m, DoEvent(event.type_), conduct).1
    {
      CalibrationCalls(m, event.type_, conduct);
      if event.type_ == CalibrationStart {
        ok := Invoke(OnCalibrationStart, conduct, m.log, [OnEvent, OnCalibrationStart]);
        if ok {
          started := true;
        }
        return;
      }
      if event.type_ == SequentialEpochEnd {
        ok := Invoke(OnSequentialEpochEnd, conduct, m.log, [OnEvent, OnSequentialEpochEnd]);
        return;
      }
      ok := Invoke(OnCalibrationEnd, conduct, m.log, [OnEvent, OnCalibrationEnd]);
      if ok {
        ended := true;
      }
    }

    /** The training part of an update: the catch-all hook has returned. */
    method UpdateInTraining(event: Event, conduct: Conduct, ghost m: Mod) returns (ok: bool)
      requires event.stepsPerEpoch == None && event.globalStep == 0 && !Refuses(m, DoEvent(event.type_))
      requires CalibrationHook(event.type_).None?
      requires conduct.raises != Some(OnEvent) && Is(Logged(m, Call([OnEvent], false, conduct.reports)))
      modifies this
      ensures Is(Apply(m, DoEvent(event.type_), conduct).0) && ok == Apply(m, DoEvent(event.type_), conduct).1
    {
      EventCalls(m, event.type_, conduct);
      if event.type_ == BatchStart && !started && ShouldStartAt(event) {
        ok := Invoke(OnStart, conduct, m.log, [OnEvent, OnStart]);
        if ok {
          started := true;
          ok := Invoke(OnUpdate, conduct, m.log, [OnEvent, OnStart, OnUpdate]);
        }
      } else if event.type_ == BatchEnd && !ended && ShouldEndAt(event) {
        ok := Invoke(OnEnd, conduct, m.log, [OnEvent, OnEnd]);
        if ok {
          ended := true;
          ok := Invoke(OnUpdate, conduct, m.log, [OnEvent, OnEnd, OnUpdate]);
        }
      } else if started && !ended {
        ok := Invoke(OnUpdate, conduct, m.log, [OnEvent, OnUpdate]);
      } else {
        ok := true;
      }
    }
  }

  /** The hook of a calibration event. */
  function CalibrationHook(t: EventType): Option<Hook> {
    match t
    case CalibrationStart => Some(OnCalibrationStart)
    case SequentialEpochEnd => Some(OnSequentialEpochEnd)
    case CalibrationEnd => Some(OnCalibrationEnd)
    case _ => None
  }

  /** What an event leaves when the catch-all hook raises, and what a calibration event leaves. */
  lemma CalibrationCalls(m: Mod, t: EventType, conduct: Conduct)
    requires !Refuses(m, DoEvent(t))
    ensures conduct.raises == Some(OnEvent) ==>
              Apply(m, DoEvent(t), conduct) == (Logged(m, Call([OnEvent], true, conduct.reports)), false)
    ensures conduct.raises != Some(OnEvent) && CalibrationHook(t).Some? ==>
              var h := CalibrationHook(t).value;
              var call := Call([OnEvent, h], conduct.raises == Some(h), conduct.reports);
              Apply(m, DoEvent(t), conduct) ==
              (if call.raised then Logged(m, call) else Flagged(m, h, call), !call.raised)
  {
    EventCalls(m, t, conduct);
  }

  /** What an event calls and leaves, hook by hook. */
  lemma EventCalls(m: Mod, t: EventType, conduct: Conduct)
    requires !Refuses(m, DoEvent(t))
    ensures var hooks := EventHooks(m, t);
            && 1 <= |hooks| <= 3 && hooks[0] == OnEvent && (|hooks| == 3 ==> hooks[2] == OnUpdate)
            && Apply(m, DoEvent(t), conduct) ==
               if conduct.raises == Some(OnEvent) then (Logged(m, Call([OnEvent], true, conduct.reports)), false)
               else if |hooks| == 1 then (Logged(m, Call([OnEvent], false, conduct.reports)), true)
               else if conduct.raises == Some(hooks[1])
               then (Logged(m, Call([OnEvent, hooks[1]], true, conduct.reports)), false)
               else if |hooks| == 2
               then (Flagged(m, hooks[1], Call([OnEvent, hooks[1]], false, conduct.reports)), true)
               else (Flagged(m, hooks[1], Call(hooks, conduct.raises == Some(OnUpdate), conduct.reports)),
                     conduct.raises != Some(OnUpdate))
  {
    var hooks := EventHooks(m, t);
    if |hooks| == 1 {
      ThroughOne(OnEvent, conduct);
      LeavesOne(m, conduct.raises == Some(OnEvent), conduct.reports);
    } else if |hooks| == 2 {
      ThroughTwo(OnEvent, hooks[1], conduct);
      LeavesOne(m, true, conduct.reports);
      LeavesTwo(m, hooks[1], conduct.raises == Some(hooks[1]), conduct.reports);
    } else {
      ThroughThree(OnEvent, hooks[1], OnUpdate, conduct);
      LeavesOne(m, true, conduct.reports);
      LeavesTwo(m, hooks[1], true, conduct.reports);
      LeavesThree(m, hooks[1], conduct.raises == Some(OnUpdate), conduct.reports);
    }
  }

  lemma LeavesOne(m: Mod, raised: bool, reports: bool)
    ensures var call := Call([OnEvent], raised, reports); After(m, call) == Logged(m, call)
  {
  }

  lemma LeavesTwo(m: Mod, h: Hook, raised: bool, reports: bool)
    requires h != OnInitialize && h != OnFinalize && h != OnEvent
    ensures var call := Call([OnEvent, h], raised, reports);
            After(m, call) == if raised then Logged(m, call) else Flagged(m, h, call)
  {
    var call := Call([OnEvent, h], raised, reports);
    assert call.hooks[1] == h && forall g: Hook | g in call.hooks :: g == OnEvent || g == h;
  }

  lemma LeavesThree(m: Mod, h: Hook, raised: bool, reports: bool)
    requires h == OnStart || h == OnEnd
    ensures var call := Call([OnEvent, h, OnUpdate], raised, reports); After(m, call) == Flagged(m, h, call)
  {
    var call := Call([OnEvent, h, OnUpdate], raised, reports);
    assert call.hooks[1] == h && forall g: Hook | g in call.hooks :: g == OnEvent || g == h || g == OnUpdate;
  }

  function Logged(m: Mod, call: Call): Mod {
    m.(log := m.log + [call])
  }

  /** The hook returned, and its flag is set. */
  function Flagged(m: Mod, hook: Hook, call: Call): Mod {
    Logged(m, call).(started := m.started || hook == OnStart || hook == OnCalibrationStart,
                     ended := m.ended || hook == OnEnd || hook == OnCalibrationEnd)
  }

  /** The modifiers of the pool are in the given states. */
  ghost predicate PoolIs(pool: seq<Modifier>, mods: seq<Mod>)
    reads pool
  {
    && |pool| == |mods| && (forall i, j | 0 <= i < j < |pool| :: pool[i] != pool[j])
    && forall i | 0 <= i < |pool| :: pool[i].Is(mods[i])
  }

  /** The recipe lists modifiers of the pool by position. */
  ghost predicate Lists(recipe: seq<Modifier>, places: seq<nat>, pool: seq<Modifier>) {
    |recipe| == |places| && forall k | 0 <= k < |recipe| :: places[k] < |pool| && recipe[k] == pool[places[k]]
  }

  lemma {:induction false} StopsAtFailure(mods: seq<Mod>, recipe: seq<nat>, r: Request, conducts: Conducts,
                                           k: nat, n: nat)
    requires k <= n <= |recipe| && Within(recipe, mods)
    requires !ApplyAll(mods, recipe, r, conducts, k).1
    ensures ApplyAll(mods, recipe, r, conducts, n) == ApplyAll(mods, recipe, r, conducts, k)
  {
    if k < n {
      StopsAtFailure(mods, recipe, r, conducts, k, n - 1);
    }
  }

  method SendOne(modifier: Modifier, r: Request, conduct: Conduct,
                 ghost pool: seq<Modifier>, ghost mods: seq<Mod>, ghost i: nat)
    returns (ok: bool)
    requires PoolIs(pool, mods) && i < |pool| && pool[i] == modifier
    modifies modifier
    ensures PoolIs(pool, mods[i := Apply(mods[i], r, conduct).0]) && ok == Apply(mods[i], r, conduct).1
  {
    match r {
      case DoInitialize => ok := modifier.InitializeModifier(conduct, mods[i]);
      case DoEvent(t) => ok := modifier.UpdateEvent(Event(t, None, 0), conduct, mods[i]);
      case DoFinalize => ok := modifier.FinalizeModifier(conduct, mods[i]);
    }
  }

  /** The loop over the recipe that initialization, events and finalization share. */
  method SendAll(recipe: seq<Modifier>, r: Request, conducts: Conducts,
                 ghost places: seq<nat>, ghost pool: seq<Modifier>, ghost mods: seq<Mod>)
    returns (ok: bool)
    requires PoolIs(pool, mods) && Lists(recipe, places, pool)
    modifies pool
    ensures PoolIs(pool, ApplyAll(mods, places, r, conducts, |places|).0)
    ensures ok == ApplyAll(mods, places, r, conducts, |places|).1
  {
    ghost var now := mods;
    for k := 0 to |recipe|
      invariant ApplyAll(mods, places, r, conducts, k) == (now, true) && PoolIs(pool, now)
    {
      ghost var i := places[k];
      ok := SendOne(recipe[k], r, conducts(k), pool, now, i);
      now := now[i := Apply(now[i], r, conducts(k)).0];
      if !ok {
        StopsAtFailure(mods, places, r, conducts, k + 1, |places|);
        return false;
      }
    }
    return true;
  }

  /** Finalize the active modifiers, ignoring exceptions. */
  method FinalizeAllActive(recipe: seq<Modifier>, conducts: Conducts,
                           ghost places: seq<nat>, ghost pool: seq<Modifier>, ghost mods: seq<Mod>)
    requires PoolIs(pool, mods) && Lists(recipe, places, pool)
    modifies pool
    ensures PoolIs(pool, FinalizeActive(mods, places, conducts, |places|))
  {
    ghost var now := mods;
    for k := 0 to |recipe|
      invariant FinalizeActive(mods, places, conducts, k) == now && PoolIs(pool, now)
    {
      var modifier := recipe[k];
      ghost var i := places[k];
      if modifier.initialized && !modifier.finalized {
        var _ := SendOne(modifier, DoFinalize, conducts(k), pool, now, i);
        now := now[i := Apply(now[i], DoFinalize, conducts(k)).0];
      }
    }
  }

  class CompressionLifecycle {
    var recipe: seq<Modifier>
    var initialized: bool
    var finalized: bool
    var lastEventType: EventType
    var globalStep: int

    ghost predicate Is(w: World, pool: seq<Modifier>)
      reads this, pool
    {
      && PoolIs(pool, w.mods) && Lists(recipe, w.recipe, pool)
      && w.initialized == initialized && w.finalized == finalized
      && w.last == lastEventType && w.globalStep == globalStep
    }

    constructor (ghost pool: seq<Modifier>, ghost mods: seq<Mod>)
      requires PoolIs(pool, mods)
      ensures Is(World(mods, [], false, false, BatchEnd, 0), pool)
    {
      recipe := [];
      initialized, finalized, lastEventType, globalStep := false, false, BatchEnd, 0;
    }

    method InitializeLifecycle(recipe: seq<Modifier>, conducts: Conducts,
                               ghost places: seq<nat>, ghost w: World, ghost pool: seq<Modifier>)
      returns (ok: bool)
      requires ValidWorld(w) && Is(w, pool) && Lists(recipe, places, pool)
      modifies this, pool
      ensures Is(Step(w, Initialize_(places, conducts)).0, pool) && ok == Step(w, Initialize_(places, conducts)).1
    {
      if initialized {
        return true;
      }
      this.recipe := recipe;
      ok := SendAll(recipe, DoInitialize, conducts, places, pool, w.mods);
      if ok {
        initialized := true;
      }
    }

    method ValidateEventOrder(t: EventType) returns (valid: bool)
      requires Rank(lastEventType).Some?
      modifies this`lastEventType
      ensures valid == InOrder(old(lastEventType), t)
      ensures lastEventType == if valid && Rank(t).Some? then t else old(lastEventType)
    {
      if Rank(t).None? {
        return true;
      }
      if t == BatchStart {
        valid := lastEventType != BatchStart;
      } else {
        valid := Rank(lastEventType).value <= Rank(t).value;
      }
      if valid {
        lastEventType := t;
      }
    }

    method HandleEvent(t: EventType, hasLoss: bool, step: Option<int>, conducts: Conducts,
                       ghost w: World, ghost pool: seq<Modifier>)
      returns (ok: bool)
      requires ValidWorld(w) && Is(w, pool)
      modifies this, pool
      ensures Is(Step(w, Event_(t, hasLoss, step, conducts)).0, pool)
      ensures ok == Step(w, Event_(t, hasLoss, step, conducts)).1
    {
      if !initialized {
        return false;
      }
      if finalized {
        return false;
      }
      if t == Initialize || t == Finalize {
        return false;
      }
      var valid := ValidateEventOrder(t);
      if !valid {
        return false;
      }
      if t == LossCalculated && !hasLoss {
        return false;
      }
      if step.Some? {
        globalStep := step.value;
      }
      ok := SendAll(recipe, DoEvent(t), conducts, w.recipe, pool, w.mods);
    }

    method FinalizeLifecycle(conducts: Conducts, ghost w: World, ghost pool: seq<Modifier>) returns (ok: bool)
      requires ValidWorld(w) && Is(w, pool)
      modifies this, pool
      ensures Is(Step(w, Finalize_(conducts)).0, pool) && ok == Step(w, Finalize_(conducts)).1
    {
      if !initialized {
        return false;
      }
      if finalized {
        return false;
      }
      ok := SendAll(recipe, DoFinalize, conducts, w.recipe, pool, w.mods);
      if ok {
        finalized := true;
      }
    }

    /** Finalize the active modifiers, ignoring exceptions, and start over. */
    method ResetLifecycle(conducts: Conducts, ghost w: World, ghost pool: seq<Modifier>)
      requires ValidWorld(w) && Is(w, pool)
      modifies this, pool
      ensures Is(Step(w, Reset_(conducts)).0, pool)
    {
      FinalizeAllActive(recipe, conducts, w.recipe, pool, w.mods);
      recipe := [];
      initialized, finalized, lastEventType, globalStep := false, false, BatchEnd, 0;
    }
  }
}
