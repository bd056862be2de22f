/** The compression lifecycle as a state machine: events are checked for order, then
    handed to every modifier of the recipe, which calls its hooks. */
module LifecycleMachine {
  import opened Prelude

  datatype EventType =
    | Initialize | Finalize
    | BatchStart | LossCalculated | BatchEnd
    | CalibrationStart | SequentialEpochEnd | CalibrationEnd
    | OptimPreStep | OptimPostStep

  // ----- Events

  datatype Event = Event(type_: EventType, stepsPerEpoch: Option<nat>, globalStep: int)

  /** The index of an event; None when there are too many steps per epoch. */
  function CurrentIndex(e: Event): Option<real>
    requires e.stepsPerEpoch != Some(0)
  {
    match e.stepsPerEpoch
    case None => Some(e.globalStep as real)
    case Some(steps) =>
      var full, epoch := e.globalStep as real / steps as real, e.globalStep / steps;
      if full - epoch as real > 1.0 then None else Some(full)
  }

  /** The guard against too many steps per epoch never fires: the index is the number of steps, in
      epochs if there are any. */
  lemma AlwaysAnIndex(e: Event)
    requires e.stepsPerEpoch != Some(0)
    ensures CurrentIndex(e).Some?
    ensures e.stepsPerEpoch.None? ==> CurrentIndex(e).value == e.globalStep as real
    ensures e.stepsPerEpoch.Some? ==> CurrentIndex(e).value * e.stepsPerEpoch.value as real == e.globalStep as real
  {
    if e.stepsPerEpoch.Some? {
      var n, q := e.stepsPerEpoch.value, e.globalStep / e.stepsPerEpoch.value;
      assert e.globalStep == n * q + e.globalStep % n;
      assert e.globalStep < n * q + n;
      NextQuotient(e.globalStep as real, n as real, q as real);
    }
  }

  lemma NextQuotient(s: real, n: real, q: real)
    requires n > 0.0 && s < n * q + n
    ensures s / n <= q + 1.0
  {
    var x := s / n - q;
    assert (x + q) * n == s;
    assert (x + q) * n == n * x + n * q;
    MoreThanOne(n, x);
  }

  lemma MoreThanOne(n: real, x: real)
    requires n > 0.0
    ensures x > 1.0 ==> n * x > n
  {
  }

  // ----- One modifier

  datatype Hook =
    | OnInitialize | OnFinalize | OnEvent | OnStart | OnUpdate | OnEnd
    | OnCalibrationStart | OnSequentialEpochEnd | OnCalibrationEnd

  /** How a modifier's own code behaves in one call on it: the hook that raises, if any, and what
      on_initialize or on_finalize reports when it returns. */
  datatype Conduct = Conduct(raises: Option<Hook>, reports: bool)

  /** One call on a modifier: the hooks called, in order, and whether the last of them raised. */
  datatype Call = Call(hooks: seq<Hook>, raised: bool, reports: bool)

  /** A modifier: its settings, its flags and the calls that got to its hooks so far. */
  datatype Mod = Mod(start: Option<real>, end: Option<real>,
                     initialized: bool, finalized: bool, started: bool, ended: bool, log: seq<Call>)

  predicate ShouldStart(m: Mod, index: real) {
    m.start.Some? && m.start.value <= index && (m.end.None? || index < m.end.value)
  }

  predicate ShouldEnd(m: Mod, index: real) {
    m.end.Some? && index >= m.end.value
  }

  datatype Request = DoInitialize | DoEvent(type_: EventType) | DoFinalize

  /** The index of the events the lifecycle creates: they carry no step. */
  const INDEX := 0.0

  /** The modifier raises before any hook is called. */
  predicate Refuses(m: Mod, r: Request) {
    match r
    case DoInitialize => m.initialized || m.finalized
    case _ => !m.initialized || m.finalized
  }

  /** The hooks a call gets to unless one of them raises, in order. */
  function Hooks(m: Mod, r: Request): seq<Hook> {
    match r
    case DoInitialize => if ShouldStart(m, INDEX) then [OnInitialize, OnStart] else [OnInitialize]
    case DoFinalize => [OnFinalize]
    case DoEvent(t) => EventHooks(m, t)
  }

  function EventHooks(m: Mod, t: EventType): seq<Hook> {
    if t == CalibrationStart then [OnEvent, OnCalibrationStart]
    else if t == SequentialEpochEnd then [OnEvent, OnSequentialEpochEnd]
    else if t == CalibrationEnd then [OnEvent, OnCalibrationEnd]
    else if t == BatchStart && !m.started && ShouldStart(m, INDEX) then [OnEvent, OnStart, OnUpdate]
    else if t == BatchEnd && !m.ended && ShouldEnd(m, INDEX) then [OnEvent, OnEnd, OnUpdate]
    else if m.started && !m.ended then [OnEvent, OnUpdate]
    else [OnEvent]
  }

  /** The hooks are called in order, up to the one that raises. */
  function Through(hooks: seq<Hook>, conduct: Conduct): Call {
    if |hooks| == 0 then Call([], false, conduct.reports)
    else if conduct.raises == Some(hooks[0]) then Call([hooks[0]], true, conduct.reports)
    else
      var rest := Through(hooks[1..], conduct);
      rest.(hooks := [hooks[0]] + rest.hooks)
  }

  /** The hook was called and did not raise. */
  predicate Returned(c: Call, h: Hook) {
    h in c.hooks && !Raised(c, h)
  }

  predicate Raised(c: Call, h: Hook) {
    c.raised && |c.hooks| > 0 && c.hooks[|c.hooks| - 1] == h
  }

  predicate Initializes(c: Call) {
    Returned(c, OnInitialize) && c.reports
  }

  predicate Finalizes(c: Call) {
    Returned(c, OnFinalize) && c.reports
  }

  predicate Starts(c: Call) {
    Returned(c, OnStart) || Returned(c, OnCalibrationStart)
  }

  predicate Ends(c: Call) {
    Returned(c, OnEnd) || Returned(c, OnCalibrationEnd)
  }

  /** A call on a modifier: its new state and whether the call returned normally. */
  function Apply(m: Mod, r: Request, conduct: Conduct): (Mod, bool) {
    if Refuses(m, r) then (m, false)
    else
      var call := Through(Hooks(m, r), conduct);
      (After(m, call), !call.raised)
  }

  /** A hook that raised leaves its flag as it was. */
  function After(m: Mod, call: Call): Mod {
    m.(initialized := m.initialized || Initializes(call), finalized := m.finalized || Finalizes(call),
       started := m.started || Starts(call), ended := m.ended || Ends(call), log := m.log + [call])
  }

  // ----- The lifecycle

  /** All modifiers there are, and the lifecycle with its recipe (positions of modifiers). */
  datatype World = World(mods: seq<Mod>, recipe: seq<nat>, initialized: bool, finalized: bool,
                         last: EventType, globalStep: int)

  /** How the modifiers behave in one call on the lifecycle, by position in the recipe. */
  type Conducts = nat -> Conduct

  ghost predicate Within(recipe: seq<nat>, mods: seq<Mod>) {
    forall j | 0 <= j < |recipe| :: recipe[j] < |mods|
  }

  /** The request goes to the first `k` modifiers of the recipe, in order, until one raises. */
  function ApplyAll(mods: seq<Mod>, recipe: seq<nat>, r: Request, conducts: Conducts, k: nat): (res: (seq<Mod>, bool))
    requires k <= |recipe| && Within(recipe, mods)
    ensures |res.0| == |mods|
  {
    if k == 0 then (mods, true)
    else
      var (before, ok) := ApplyAll(mods, recipe, r, conducts, k - 1);
      if !ok then (before, false)
      else
        var (m, ok') := Apply(before[recipe[k - 1]], r, conducts(k - 1));
        (before[recipe[k - 1] := m], ok')
  }

  /** Finalize the first `k` modifiers that are active, ignoring exceptions. */
  function FinalizeActive(mods: seq<Mod>, recipe: seq<nat>, conducts: Conducts, k: nat): (res: seq<Mod>)
    requires k <= |recipe| && Within(recipe, mods)
    ensures |res| == |mods|
  {
    if k == 0 then mods
    else
      var before := FinalizeActive(mods, recipe, conducts, k - 1);
      var m := before[recipe[k - 1]];
      if !m.initialized || m.finalized then before
      else before[recipe[k - 1] := Apply(m, DoFinalize, conducts(k - 1)).0]
  }

  /** The position of an event type in the batch order; None for unhandled types. */
  function Rank(t: EventType): Option<nat> {
    match t
    case BatchStart => Some(0)
    case LossCalculated => Some(1)
    case OptimPreStep => Some(2)
    case OptimPostStep => Some(3)
    case BatchEnd => Some(4)
    case _ => None
  }

  predicate InOrder(last: EventType, t: EventType)
    requires Rank(last).Some?
  {
    if Rank(t).None? then true
    else if t == BatchStart then last != BatchStart
    else Rank(last).value <= Rank(t).value
  }

  const BATCH: seq<EventType> := [BatchStart, LossCalculated, OptimPreStep, OptimPostStep, BatchEnd]

  /** In a batch every event may follow an earlier one and none a later one; only a batch start may
      follow all events but itself, and the events outside a batch may come at any time. */
  lemma OrderIs(i: nat, j: nat, t: EventType)
    requires i < |BATCH| && j < |BATCH|
    ensures Rank(BATCH[i]).Some? && (Rank(t).Some? <==> t in BATCH)
    ensures InOrder(BATCH[i], BATCH[j]) <==> if j == 0 then i != 0 else i <= j
    ensures t !in BATCH ==> InOrder(BATCH[i], t)
  {
    assert BATCH[0] == BatchStart && BATCH[1] == LossCalculated && BATCH[2] == OptimPreStep;
    assert BATCH[3] == OptimPostStep && BATCH[4] == BatchEnd;
  }

  datatype Op =
    | Initialize_(recipe: seq<nat>, conducts: Conducts)
    | Event_(type_: EventType, hasLoss: bool, step: Option<int>, conducts: Conducts)
    | Finalize_(conducts: Conducts)
    | Reset_(conducts: Conducts)

  ghost predicate ValidWorld(w: World) {
    Rank(w.last).Some? && Within(w.recipe, w.mods)
  }

  ghost predicate ValidOp(w: World, op: Op) {
    op.Initialize_? ==> Within(op.recipe, w.mods)
  }

  /** The event passes the lifecycle's own checks up to and including the order check. */
  predicate Passes(w: World, op: Op)
    requires Rank(w.last).Some?
  {
    && op.Event_? && w.initialized && !w.finalized
    && op.type_ != Initialize && op.type_ != Finalize && InOrder(w.last, op.type_)
  }

  predicate Lossless(op: Op) {
    op.Event_? && op.type_ == LossCalculated && !op.hasLoss
  }

  /** One call on the lifecycle: the new state and whether the call returned normally. */
  function Step(w: World, op: Op): (res: (World, bool))
    requires ValidWorld(w) && ValidOp(w, op)
    ensures ValidWorld(res.0) && |res.0.mods| == |w.mods|
  {
    match op
    case Initialize_(recipe, conducts) =>
      if w.initialized then (w, true)
      else
        var (mods, ok) := ApplyAll(w.mods, recipe, DoInitialize, conducts, |recipe|);
        (w.(recipe := recipe, mods := mods, initialized := ok), ok)
    case Event_(t, _, step, conducts) =>
      if !Passes(w, op) then (w, false)
      else
        var checked := if Rank(t).Some? then w.(last := t) else w;
        if Lossless(op) then (checked, false)
        else
          var (mods, ok) := ApplyAll(w.mods, w.recipe, DoEvent(t), conducts, |w.recipe|);
          (checked.(mods := mods, globalStep := if step.Some? then step.value else w.globalStep), ok)
    case Finalize_(conducts) =>
      if !w.initialized || w.finalized then (w, false)
      else
        var (mods, ok) := ApplyAll(w.mods, w.recipe, DoFinalize, conducts, |w.recipe|);
        (w.(mods := mods, finalized := ok), ok)
    case Reset_(conducts) =>
      (World(FinalizeActive(w.mods, w.recipe, conducts, |w.recipe|), [], false, false, BatchEnd, 0), true)
  }

  /** A fresh lifecycle among modifiers on which nothing has been called. */
  ghost predicate Start(w: World) {
    && w.recipe == [] && !w.initialized && !w.finalized && w.last == BatchEnd
    && forall i | 0 <= i < |w.mods| :: Untouched(w.mods[i])
  }

  predicate Untouched(m: Mod) {
    !m.initialized && !m.finalized && !m.started && !m.ended && m.log == []
  }

  ghost predicate Run(worlds: seq<World>, ops: seq<Op>) {
    && |worlds| == |ops| + 1 && Start(worlds[0])
    && (forall k | 0 <= k < |worlds| :: ValidWorld(worlds[k]) && |worlds[k].mods| == |worlds[0].mods|)
    && forall k | 0 <= k < |ops| :: ValidOp(worlds[k], ops[k]) && worlds[k + 1] == Step(worlds[k], ops[k]).0
  }

  // ----- What holds of every modifier

  /** What a call may contain: on_start only in initialize, on_start and on_end only when due. */
  ghost predicate Proper(m: Mod, call: Call) {
    && (OnStart in call.hooks ==> call.hooks == [OnInitialize, OnStart] && ShouldStart(m, INDEX))
    && (OnEnd in call.hooks ==> ShouldEnd(m, INDEX))
  }

  /** How a call may follow an earlier one: nothing after a finalization that reports success, no
      initialization after one that does, no on_end and no on_update once an ending hook returned. */
  ghost predicate Follows(before: Call, after: Call) {
    && !Finalizes(before)
    && (Initializes(before) ==> OnInitialize !in after.hooks)
    && (Ends(before) ==> OnEnd !in after.hooks && OnUpdate !in after.hooks)
  }

  /** Call `j` is an initialization or comes after one that reported success. */
  ghost predicate Prepared(log: seq<Call>, j: nat)
    requires j < |log|
  {
    OnInitialize in log[j].hooks || exists i :: 0 <= i < j && Initializes(log[i])
  }

  /** The flags say exactly which hooks have returned. */
  ghost predicate FlagsReflect(m: Mod) {
    && (m.initialized <==> exists i :: 0 <= i < |m.log| && Initializes(m.log[i]))
    && (m.finalized <==> exists i :: 0 <= i < |m.log| && Finalizes(m.log[i]))
    && (m.started <==> exists i :: 0 <= i < |m.log| && Starts(m.log[i]))
    && (m.ended <==> exists i :: 0 <= i < |m.log| && Ends(m.log[i]))
  }

  ghost predicate Sound(m: Mod) {
    && FlagsReflect(m)
    && (forall i | 0 <= i < |m.log| :: Proper(m, m.log[i]) && Prepared(m.log, i))
    && (forall i, j | 0 <= i < j < |m.log| :: Follows(m.log[i], m.log[j]))
  }

  /** The modifier has started if it should. */
  ghost predicate Ready(m: Mod) {
    ShouldStart(m, INDEX) ==> m.started
  }

  ghost predicate SameSettings(m: Mod, m': Mod) {
    m.start == m'.start && m.end == m'.end
  }

  /** All modifiers are sound, and an initialized lifecycle has started those of its recipe. */
  ghost predicate SoundWorld(w: World)
    requires ValidWorld(w)
  {
    && (forall i | 0 <= i < |w.mods| :: Sound(w.mods[i]))
    && (w.initialized ==> forall j | 0 <= j < |w.recipe| :: Ready(w.mods[w.recipe[j]]))
  }

  lemma {:induction false} ThroughIs(hooks: seq<Hook>, conduct: Conduct)
    ensures var c := Through(hooks, conduct);
            && c.hooks <= hooks && c.reports == conduct.reports
            && (c.raised <==> conduct.raises.Some? && conduct.raises.value in hooks)
            && (!c.raised ==> c.hooks == hooks)
            && (c.raised ==> |c.hooks| > 0 && Raised(c, conduct.raises.value))
  {
    if |hooks| > 0 {
      ThroughIs(hooks[1..], conduct);
      var rest := Through(hooks[1..], conduct);
      assert forall h | h in hooks :: h == hooks[0] || h in hooks[1..];
      if conduct.raises != Some(hooks[0]) && rest.raised {
        assert ([hooks[0]] + rest.hooks)[|rest.hooks|] == rest.hooks[|rest.hooks| - 1];
      }
    }
  }

  /** The call that a request makes on a sound modifier fits in with the earlier ones. */
  lemma CallFits(m: Mod, r: Request, conduct: Conduct)
    requires Sound(m) && !Refuses(m, r) && (r.DoEvent? ==> Ready(m))
    ensures var call := Through(Hooks(m, r), conduct);
            && Proper(m, call) && (OnInitialize in call.hooks || m.initialized)
            && forall i | 0 <= i < |m.log| :: Follows(m.log[i], call)
  {
    var hooks := Hooks(m, r);
    var call := Through(hooks, conduct);
    ThroughIs(hooks, conduct);
    if r.DoInitialize? && |call.hooks| == 1 {
      assert call.hooks == [OnInitialize];
    }
    assert forall h | h in call.hooks :: h in hooks;
    assert |call.hooks| > 0 && call.hooks[0] == hooks[0];
    HooksAllowed(m, r);
    forall i | 0 <= i < |m.log|
      ensures Follows(m.log[i], call)
    {
      assert Finalizes(m.log[i]) ==> m.finalized;
      assert Initializes(m.log[i]) ==> m.initialized;
      assert Ends(m.log[i]) ==> m.ended;
    }
  }

  /** What the flags rule out. */
  lemma HooksAllowed(m: Mod, r: Request)
    requires !Refuses(m, r) && (r.DoEvent? ==> Ready(m))
    ensures var hooks := Hooks(m, r);
            && (OnStart in hooks ==> r.DoInitialize? && ShouldStart(m, INDEX))
            && (OnInitialize in hooks <==> r.DoInitialize?)
            && (OnEnd in hooks ==> ShouldEnd(m, INDEX))
            && (m.ended ==> OnEnd !in hooks && OnUpdate !in hooks)
  {
  }

  lemma LogGrows(m: Mod, call: Call)
    requires Sound(m) && Proper(m, call) && (OnInitialize in call.hooks || m.initialized)
    requires forall i | 0 <= i < |m.log| :: Follows(m.log[i], call)
    ensures Sound(After(m, call))
  {
    var m' := After(m, call);
    var n := |m.log|;
    assert m'.log[n] == call && forall i | 0 <= i < n :: m'.log[i] == m.log[i];
    FlagsGrow(m, call);
    forall i | 0 <= i < |m'.log|
      ensures Proper(m', m'.log[i]) && Prepared(m'.log, i)
    {
      if i < n {
        assert Proper(m, m.log[i]) && Prepared(m.log, i);
      }
    }
    forall i, j | 0 <= i < j < |m'.log|
      ensures Follows(m'.log[i], m'.log[j])
    {
      if j < n {
        assert Follows(m.log[i], m.log[j]);
      }
    }
  }

  lemma FlagsGrow(m: Mod, call: Call)
    requires FlagsReflect(m)
    ensures FlagsReflect(After(m, call))
  {
    var log, log' := m.log, After(m, call).log;
    assert log'[|log|] == call && forall i | 0 <= i < |log| :: log'[i] == log[i];
  }

  lemma ApplyIsSound(m: Mod, r: Request, conduct: Conduct)
    requires Sound(m) && (r.DoEvent? ==> Ready(m))
    ensures Sound(Apply(m, r, conduct).0) && SameSettings(m, Apply(m, r, conduct).0)
    ensures m.started ==> Apply(m, r, conduct).0.started
  {
    if !Refuses(m, r) {
      CallFits(m, r, conduct);
      LogGrows(m, Through(Hooks(m, r), conduct));
    }
  }

  /** A request leaves all modifiers sound and unstarts none. */
  lemma {:induction false} ApplyAllIsSound(mods: seq<Mod>, recipe: seq<nat>, r: Request, conducts: Conducts, k: nat)
    requires k <= |recipe| && Within(recipe, mods) && forall i | 0 <= i < |mods| :: Sound(mods[i])
    requires r.DoEvent? ==> forall j | 0 <= j < |recipe| :: Ready(mods[recipe[j]])
    ensures forall i | 0 <= i < |mods| :: Sound(ApplyAll(mods, recipe, r, conducts, k).0[i])
    ensures forall i | 0 <= i < |mods| :: Moved(mods[i], ApplyAll(mods, recipe, r, conducts, k).0[i])
  {
    if k > 0 {
      ApplyAllIsSound(mods, recipe, r, conducts, k - 1);
      var (before, ok) := ApplyAll(mods, recipe, r, conducts, k - 1);
      var i := recipe[k - 1];
      if ok {
        assert Moved(mods[i], before[i]);
        ApplyIsSound(before[i], r, conducts(k - 1));
      }
    }
  }

  lemma ApplyStarts(m: Mod, conduct: Conduct)
    ensures Apply(m, DoInitialize, conduct).1 ==> Ready(Apply(m, DoInitialize, conduct).0)
  {
    ThroughIs(Hooks(m, DoInitialize), conduct);
  }

  /** An initialization that returns has started all modifiers that should start. */
  lemma {:induction false} ApplyAllStarts(mods: seq<Mod>, recipe: seq<nat>, conducts: Conducts, k: nat)
    requires k <= |recipe| && Within(recipe, mods)
    ensures var (mods', ok) := ApplyAll(mods, recipe, DoInitialize, conducts, k);
            ok ==> forall j | 0 <= j < k :: Ready(mods'[recipe[j]])
  {
    if k > 0 {
      ApplyAllStarts(mods, recipe, conducts, k - 1);
      var (before, ok) := ApplyAll(mods, recipe, DoInitialize, conducts, k - 1);
      if ok {
        ApplyStarts(before[recipe[k - 1]], conducts(k - 1));
      }
    }
  }

  ghost predicate Moved(m: Mod, m': Mod) {
    SameSettings(m, m') && (m.started ==> m'.started)
  }

  lemma {:induction false} FinalizeActiveIsSound(mods: seq<Mod>, recipe: seq<nat>, conducts: Conducts, k: nat)
    requires k <= |recipe| && Within(recipe, mods) && forall i | 0 <= i < |mods| :: Sound(mods[i])
    ensures forall i | 0 <= i < |mods| :: Sound(FinalizeActive(mods, recipe, conducts, k)[i])
    ensures forall i | 0 <= i < |mods| :: SameSettings(mods[i], FinalizeActive(mods, recipe, conducts, k)[i])
  {
    if k > 0 {
      FinalizeActiveIsSound(mods, recipe, conducts, k - 1);
      ApplyIsSound(FinalizeActive(mods, recipe, conducts, k - 1)[recipe[k - 1]], DoFinalize, conducts(k - 1));
    }
  }

  lemma StepIsSound(w: World, op: Op)
    requires ValidWorld(w) && ValidOp(w, op) && SoundWorld(w)
    ensures SoundWorld(Step(w, op).0)
    ensures forall i | 0 <= i < |w.mods| :: SameSettings(w.mods[i], Step(w, op).0.mods[i])
  {
    match op {
      case Initialize_(recipe, conducts) =>
        if !w.initialized {
          ApplyAllIsSound(w.mods, recipe, DoInitialize, conducts, |recipe|);
          ApplyAllStarts(w.mods, recipe, conducts, |recipe|);
        }
      case Event_(t, _, _, conducts) =>
        if Passes(w, op) {
          ApplyAllIsSound(w.mods, w.recipe, DoEvent(t), conducts, |w.recipe|);
        }
      case Finalize_(conducts) => ApplyAllIsSound(w.mods, w.recipe, DoFinalize, conducts, |w.recipe|);
      case Reset_(conducts) => FinalizeActiveIsSound(w.mods, w.recipe, conducts, |w.recipe|);
    }
  }

  /** A reset always returns, whatever the finalizations do, and leaves a lifecycle as it was created:
      the next initialization goes ahead, and a batch may start or end. */
  lemma ResetStartsOver(w: World, conducts: Conducts, recipe: seq<nat>, next: Conducts)
    requires ValidWorld(w) && Within(recipe, w.mods)
    ensures var (w', ok) := Step(w, Reset_(conducts));
            && ok && w'.recipe == [] && !w'.initialized && !w'.finalized && w'.globalStep == 0
            && (InOrder(w'.last, BatchStart) && InOrder(w'.last, BatchEnd) && !InOrder(w'.last, LossCalculated))
            && Step(w', Initialize_(recipe, next)).0.recipe == recipe
  {
  }

  /** In every run, whichever hooks raise and whatever they report: on_start is only called from
      initialize; once an ending hook has returned neither on_end nor on_update is called again;
      no initialization follows a successful one, nothing follows a successful finalization, and
      everything else comes after a successful initialization. */
  lemma HooksInEveryRun(worlds: seq<World>, ops: seq<Op>, k: nat, i: nat)
    requires Run(worlds, ops) && k < |worlds| && i < |worlds[0].mods|
    ensures Sound(worlds[k].mods[i]) && SameSettings(worlds[0].mods[i], worlds[k].mods[i])
  {
    AllSound(worlds, ops, k);
  }

  lemma {:induction false} AllSound(worlds: seq<World>, ops: seq<Op>, k: nat)
    requires Run(worlds, ops) && k < |worlds|
    ensures SoundWorld(worlds[k])
    ensures forall i | 0 <= i < |worlds[0].mods| :: SameSettings(worlds[0].mods[i], worlds[k].mods[i])
  {
    if k == 0 {
      assert forall i | 0 <= i < |worlds[0].mods| :: Untouched(worlds[0].mods[i]);
    } else {
      AllSound(worlds, ops, k - 1);
      StepIsSound(worlds[k - 1], ops[k - 1]);
    }
  }

  // ----- How often on_start and on_end are called

  /** How often the hook was called. */
  function Times(log: seq<Call>, h: Hook): nat {
    if |log| == 0 then 0 else Times(log[..|log| - 1], h) + (if h in log[|log| - 1].hooks then 1 else 0)
  }

  ghost predicate CalledAgain(log: seq<Call>, h: Hook, i: nat, j: nat) {
    i < j < |log| && h in log[i].hooks && h in log[j].hooks
  }

  lemma {:induction false} TimesIs(log: seq<Call>, h: Hook)
    ensures Times(log, h) == 0 <==> forall i | 0 <= i < |log| :: h !in log[i].hooks
    ensures Times(log, h) > 1 <==> exists i: nat, j: nat :: CalledAgain(log, h, i, j)
  {
    if |log| > 0 {
      var n := |log| - 1;
      var front := log[..n];
      TimesIs(front, h);
      assert forall i | 0 <= i < n :: log[i] == front[i];
      assert forall i: nat, j: nat :: CalledAgain(front, h, i, j) <==> j < n && CalledAgain(log, h, i, j);
      assert forall i: nat | i < n :: CalledAgain(log, h, i, n) <==> h in log[i].hooks && h in log[n].hooks;
    }
  }

  /** on_end is called more than once exactly when a call of it raised and it was called again. */
  lemma EndsAgainExactly(m: Mod)
    requires Sound(m)
    ensures Times(m.log, OnEnd) > 1 <==>
            exists i: nat, j: nat :: CalledAgain(m.log, OnEnd, i, j) && Raised(m.log[i], OnEnd)
  {
    TimesIs(m.log, OnEnd);
    forall i: nat, j: nat | CalledAgain(m.log, OnEnd, i, j)
      ensures Raised(m.log[i], OnEnd)
    {
      assert Follows(m.log[i], m.log[j]);
    }
  }

  /** on_start is called more than once exactly when an initialization that called it reported
      failure and it was called again. */
  lemma StartsAgainExactly(m: Mod)
    requires Sound(m)
    ensures Times(m.log, OnStart) > 1 <==>
            exists i: nat, j: nat :: CalledAgain(m.log, OnStart, i, j) && !m.log[i].reports
  {
    TimesIs(m.log, OnStart);
    forall i: nat, j: nat | CalledAgain(m.log, OnStart, i, j)
      ensures !m.log[i].reports
    {
      assert Follows(m.log[i], m.log[j]) && Proper(m, m.log[i]) && Proper(m, m.log[j]);
    }
  }

  /** A modifier with the given settings, alone in a fresh world. */
  function Fresh(m: Mod): World {
    World([Mod(m.start, m.end, false, false, false, false, [])], [], false, false, BatchEnd, 0)
  }

  /** on_start is called at most once in every run exactly for the modifiers that do not start at
      index 0, which have no start, start later, or end before: any other may report failure and be
      initialized again. */
  lemma StartsExactly(m: Mod)
    ensures (forall worlds: seq<World>, ops: seq<Op> | Run(worlds, ops) && worlds[0] == Fresh(m) ::
               Times(worlds[|ops|].mods[0].log, OnStart) <= 1)
            <==> m.start.None? || m.start.value > 0.0 || (m.end.Some? && m.end.value <= 0.0)
  {
    if ShouldStart(m, INDEX) {
      var worlds, ops := StartsTwice(m);
    } else {
      forall worlds: seq<World>, ops: seq<Op> | Run(worlds, ops) && worlds[0] == Fresh(m)
        ensures Times(worlds[|ops|].mods[0].log, OnStart) <= 1
      {
        HooksInEveryRun(worlds, ops, |ops|, 0);
        TimesIs(worlds[|ops|].mods[0].log, OnStart);
      }
    }
  }

  /** on_end is called at most once in every run exactly for the modifiers that do not end at
      index 0: the on_end of any other may raise, and the next batch end calls it again. */
  lemma EndsExactly(m: Mod)
    ensures (forall worlds: seq<World>, ops: seq<Op> | Run(worlds, ops) && worlds[0] == Fresh(m) ::
               Times(worlds[|ops|].mods[0].log, OnEnd) <= 1)
            <==> m.end.None? || m.end.value > 0.0
  {
    if ShouldEnd(m, INDEX) {
      var worlds, ops := EndsTwice(m);
    } else {
      forall worlds: seq<World>, ops: seq<Op> | Run(worlds, ops) && worlds[0] == Fresh(m)
        ensures Times(worlds[|ops|].mods[0].log, OnEnd) <= 1
      {
        HooksInEveryRun(worlds, ops, |ops|, 0);
        TimesIs(worlds[|ops|].mods[0].log, OnEnd);
      }
    }
  }

  /** No modifier raises, and all report the same. */
  function Calm(reports: bool): Conducts {
    _ => Conduct(None, reports)
  }

  /** In every modifier, the hook raises where it is called. */
  function Raising(h: Hook): Conducts {
    _ => Conduct(Some(h), true)
  }

  /** A request to a recipe of one modifier. */
  lemma OneModifier(m: Mod, r: Request, conducts: Conducts)
    ensures ApplyAll([m], [0], r, conducts, 1) == ([Apply(m, r, conducts(0)).0], Apply(m, r, conducts(0)).1)
  {
    assert ApplyAll([m], [0], r, conducts, 0) == ([m], true);
    assert [m][0 := Apply(m, r, conducts(0)).0] == [Apply(m, r, conducts(0)).0];
  }

  lemma TwoCalls(log: seq<Call>, a: Call, b: Call, h: Hook)
    requires Times(log, h) == 0 && h in a.hooks && h in b.hooks
    ensures Times(log + [a] + [b], h) == 2
  {
    assert (log + [a])[..|log|] == log && (log + [a] + [b])[..|log| + 1] == log + [a];
  }

  /** Initialize, reset, initialize: when on_initialize reports failure, on_start is called twice. */
  lemma StartsTwice(m: Mod) returns (worlds: seq<World>, ops: seq<Op>)
    requires ShouldStart(m, INDEX)
    ensures Run(worlds, ops) && worlds[0] == Fresh(m) && Times(worlds[|ops|].mods[0].log, OnStart) == 2
  {
    var w0 := Fresh(m);
    var init, reset := Initialize_([0], Calm(false)), Reset_(Calm(false));
    var w1 := FailsToInitialize(w0, m, []);
    var w2 := Step(w1, reset).0;
    assert FinalizeActive(w1.mods, w1.recipe, reset.conducts, 0) == w1.mods;
    var w3 := FailsToInitialize(w2, m, w1.mods[0].log);
    ops, worlds := [init, reset, init], [w0, w1, w2, w3];
    var call := Call([OnInitialize, OnStart], false, false);
    TwoCalls([], call, call, OnStart);
    assert Run(worlds, ops);
  }

  lemma FailsToInitialize(w: World, m: Mod, log: seq<Call>) returns (w': World)
    requires ShouldStart(m, INDEX) && !w.initialized && |w.mods| == 1 && Rank(w.last).Some? && w.recipe == []
    requires SameSettings(m, w.mods[0]) && w.mods[0].log == log
    requires !w.mods[0].initialized && !w.mods[0].finalized
    ensures w' == Step(w, Initialize_([0], Calm(false))).0 && w'.recipe == [0] && w'.last == w.last
    ensures |w'.mods| == 1 && SameSettings(m, w'.mods[0]) && !w'.mods[0].initialized && !w'.mods[0].finalized
    ensures w'.mods[0].log == log + [Call([OnInitialize, OnStart], false, false)]
  {
    w' := Step(w, Initialize_([0], Calm(false))).0;
    assert w.mods == [w.mods[0]];
    OneModifier(w.mods[0], DoInitialize, Calm(false));
    ThroughIs([OnInitialize, OnStart], Conduct(None, false));
  }

  /** A modifier that has to end at once is initialized without a start. */
  lemma InitializesOnly(m: Mod) returns (w': World)
    requires ShouldEnd(m, INDEX)
    ensures w' == Step(Fresh(m), Initialize_([0], Calm(true))).0 && Ending(w') && SameSettings(m, w'.mods[0])
    ensures Times(w'.mods[0].log, OnEnd) == 0
  {
    w' := Step(Fresh(m), Initialize_([0], Calm(true))).0;
    OneModifier(Fresh(m).mods[0], DoInitialize, Calm(true));
    ThroughIs([OnInitialize], Conduct(None, true));
    TimesIs(w'.mods[0].log, OnEnd);
  }

  /** An open lifecycle whose one modifier has to end and has not ended. */
  ghost predicate Ending(w: World) {
    && |w.mods| == 1 && w.recipe == [0] && w.initialized && !w.finalized && w.last == BatchEnd
    && var m := w.mods[0]; m.initialized && !m.finalized && !m.ended && ShouldEnd(m, INDEX)
  }

  /** A batch end calls on_end; the modifier has not ended if it raises. */
  lemma BatchEndCalls(w: World, conducts: Conducts) returns (w': World, call: Call)
    requires Ending(w) && conducts(0).raises in {None, Some(OnEnd)}
    ensures w' == Step(w, Event_(BatchEnd, false, None, conducts)).0
    ensures |w'.mods| == 1 && w'.mods[0].log == w.mods[0].log + [call] && OnEnd in call.hooks
    ensures SameSettings(w.mods[0], w'.mods[0]) && (conducts(0).raises.Some? ==> Ending(w'))
  {
    w' := Step(w, Event_(BatchEnd, false, None, conducts)).0;
    call := Through([OnEvent, OnEnd, OnUpdate], conducts(0));
    assert w.mods == [w.mods[0]];
    OneModifier(w.mods[0], DoEvent(BatchEnd), conducts);
    ThroughIs([OnEvent, OnEnd, OnUpdate], conducts(0));
    if conducts(0).raises.None? {
      assert call.hooks == [OnEvent, OnEnd, OnUpdate];
    } else {
      assert call.hooks[|call.hooks| - 1] == OnEnd;
    }
  }

  /** Two batch ends: when on_end raises in the first, the second calls it again. */
  lemma EndsTwice(m: Mod) returns (worlds: seq<World>, ops: seq<Op>)
    requires ShouldEnd(m, INDEX)
    ensures Run(worlds, ops) && worlds[0] == Fresh(m) && Times(worlds[|ops|].mods[0].log, OnEnd) == 2
  {
    var w0 := Fresh(m);
    var w1 := InitializesOnly(m);
    var w2, a := BatchEndCalls(w1, Raising(OnEnd));
    var w3, b := BatchEndCalls(w2, Calm(true));
    ops := [Initialize_([0], Calm(true)), Event_(BatchEnd, false, None, Raising(OnEnd)),
            Event_(BatchEnd, false, None, Calm(true))];
    worlds := [w0, w1, w2, w3];
    assert Run(worlds, ops);
    TwoCalls(w1.mods[0].log, a, b, OnEnd);
  }

  // ----- The order of batch events

  /** Call `k` is a batch event that passes the lifecycle's own checks, the order check included. */
  ghost predicate Validated(worlds: seq<World>, ops: seq<Op>, k: nat)
    requires Run(worlds, ops) && k < |ops|
  {
    Passes(worlds[k], ops[k]) && Rank(ops[k].type_).Some?
  }

  /** Call `k` is a batch event that returned normally. */
  ghost predicate AcceptedBatchEvent(worlds: seq<World>, ops: seq<Op>, k: nat)
    requires Run(worlds, ops) && k < |ops|
  {
    ops[k].Event_? && Rank(ops[k].type_).Some? && Step(worlds[k], ops[k]).1
  }

  /** Call `k` passed the order check, and raised. */
  ghost predicate Rejected(worlds: seq<World>, ops: seq<Op>, k: nat)
    requires Run(worlds, ops) && k < |ops|
  {
    Validated(worlds, ops, k) && !AcceptedBatchEvent(worlds, ops, k)
  }

  /** No reset among the calls i, ..., j - 1. */
  ghost predicate NoReset(ops: seq<Op>, i: nat, j: nat)
    requires j <= |ops|
  {
    forall k | i <= k < j :: !ops[k].Reset_?
  }

  /** A modifier takes an event: it does not refuse it, and none of the hooks it gets to raises. */
  predicate Answers(m: Mod, t: EventType, conduct: Conduct) {
    !Refuses(m, DoEvent(t)) && (conduct.raises.Some? ==> conduct.raises.value !in EventHooks(m, t))
  }

  lemma AnswersExactly(m: Mod, t: EventType, conduct: Conduct)
    ensures Apply(m, DoEvent(t), conduct).1 <==> Answers(m, t, conduct)
  {
    ThroughIs(EventHooks(m, t), conduct);
  }

  /** The modifier at position `j` of the recipe takes the event, as those before it leave it. */
  ghost predicate Takes(mods: seq<Mod>, recipe: seq<nat>, t: EventType, conducts: Conducts, j: nat)
    requires j < |recipe| && Within(recipe, mods)
  {
    Answers(ApplyAll(mods, recipe, DoEvent(t), conducts, j).0[recipe[j]], t, conducts(j))
  }

  lemma {:induction false} TakenByAll(mods: seq<Mod>, recipe: seq<nat>, t: EventType, conducts: Conducts, k: nat)
    requires k <= |recipe| && Within(recipe, mods)
    ensures ApplyAll(mods, recipe, DoEvent(t), conducts, k).1 <==>
            forall j | 0 <= j < k :: Takes(mods, recipe, t, conducts, j)
  {
    if k > 0 {
      TakenByAll(mods, recipe, t, conducts, k - 1);
      var m := ApplyAll(mods, recipe, DoEvent(t), conducts, k - 1).0[recipe[k - 1]];
      AnswersExactly(m, t, conducts(k - 1));
      assert Takes(mods, recipe, t, conducts, k - 1) <==> Answers(m, t, conducts(k - 1));
    }
  }

  /** An event is accepted exactly when it passes the lifecycle's checks, is not a loss event
      without a loss, and every modifier takes it; and passing alone makes it the last event. */
  lemma AcceptedExactly(w: World, op: Op)
    requires ValidWorld(w) && ValidOp(w, op) && op.Event_?
    ensures Step(w, op).1 <==>
            (&& Passes(w, op) && !Lossless(op)
             && forall j | 0 <= j < |w.recipe| :: Takes(w.mods, w.recipe, op.type_, op.conducts, j))
    ensures Step(w, op).0.last == if Passes(w, op) && Rank(op.type_).Some? then op.type_ else w.last
  {
    TakenByAll(w.mods, w.recipe, op.type_, op.conducts, |w.recipe|);
  }

  /** The latest batch event before call `j` that passed the checks; a batch end stands for none
      since the last reset. */
  ghost function Latest(worlds: seq<World>, ops: seq<Op>, j: nat): EventType
    requires Run(worlds, ops) && j <= |ops|
  {
    if j == 0 || ops[j - 1].Reset_? then BatchEnd
    else if Validated(worlds, ops, j - 1) then ops[j - 1].type_
    else Latest(worlds, ops, j - 1)
  }

  /** In every run a batch event passes exactly when the lifecycle is open and the event is in
      order after the latest one that passed, whether or not that one was accepted. */
  lemma {:induction false} PassesExactly(worlds: seq<World>, ops: seq<Op>, j: nat)
    requires Run(worlds, ops) && j <= |ops|
    ensures Rank(Latest(worlds, ops, j)).Some? && worlds[j].last == Latest(worlds, ops, j)
    ensures j < |ops| && ops[j].Event_? && Rank(ops[j].type_).Some? ==>
              (Validated(worlds, ops, j) <==>
               worlds[j].initialized && !worlds[j].finalized && InOrder(Latest(worlds, ops, j), ops[j].type_))
  {
    if j > 0 {
      PassesExactly(worlds, ops, j - 1);
      if ops[j - 1].Event_? {
        AcceptedExactly(worlds[j - 1], ops[j - 1]);
      }
    }
  }

  lemma AcceptedIsValidated(worlds: seq<World>, ops: seq<Op>, k: nat)
    requires Run(worlds, ops) && k < |ops| && AcceptedBatchEvent(worlds, ops, k)
    ensures Validated(worlds, ops, k) && !Rejected(worlds, ops, k)
  {
    AcceptedExactly(worlds[k], ops[k]);
  }

  /** Events that passed come in the fixed order up to the next batch start that passed. */
  lemma {:induction false} BatchEventsInOrder(worlds: seq<World>, ops: seq<Op>, i: nat, j: nat)
    requires Run(worlds, ops) && i < j < |ops| && NoReset(ops, i, j)
    requires Validated(worlds, ops, i) && Validated(worlds, ops, j)
    requires forall k | i < k <= j :: !(Validated(worlds, ops, k) && ops[k].type_ == BatchStart)
    ensures Rank(ops[i].type_).value <= Rank(ops[j].type_).value
  {
    LastMovesForward(worlds, ops, i, j);
  }

  lemma {:induction false} LastMovesForward(worlds: seq<World>, ops: seq<Op>, i: nat, j: nat)
    requires Run(worlds, ops) && i < j <= |ops| && NoReset(ops, i, j) && Validated(worlds, ops, i)
    requires forall k | i < k < j :: !(Validated(worlds, ops, k) && ops[k].type_ == BatchStart)
    ensures Rank(ops[i].type_).value <= Rank(worlds[j].last).value
    decreases j
  {
    var w, op := worlds[j - 1], ops[j - 1];
    if op.Event_? {
      AcceptedExactly(w, op);
    }
    if i < j - 1 {
      LastMovesForward(worlds, ops, i, j - 1);
      assert !(Validated(worlds, ops, j - 1) && op.type_ == BatchStart);
    }
  }

  /** Between two batch starts that passed, another batch event passed. */
  lemma {:induction false} StartsAreApart(worlds: seq<World>, ops: seq<Op>, i: nat, j: nat) returns (k: nat)
    requires Run(worlds, ops) && i < j < |ops| && NoReset(ops, i, j)
    requires Validated(worlds, ops, i) && ops[i].type_ == BatchStart
    requires Validated(worlds, ops, j) && ops[j].type_ == BatchStart
    ensures i < k < j && Validated(worlds, ops, k) && ops[k].type_ != BatchStart
  {
    PassesExactly(worlds, ops, j);
    k := j - 1;
    while k > i && !(Validated(worlds, ops, k) && ops[k].type_ != BatchStart)
      invariant i <= k < j && Latest(worlds, ops, k + 1) == Latest(worlds, ops, j) != BatchStart
    {
      assert !ops[k].Reset_?;
      k := k - 1;
    }
    assert !ops[i].Reset_?;
  }

  // ----- The order of accepted events

  /** Two accepted batch starts have no accepted batch event between them exactly when every event
      between them that passed the order check was rejected, and there is such an event. */
  lemma AdjacentStartsExactly(worlds: seq<World>, ops: seq<Op>, i: nat, j: nat)
    requires Run(worlds, ops) && i < j < |ops| && NoReset(ops, i, j)
    requires AcceptedBatchEvent(worlds, ops, i) && ops[i].type_ == BatchStart
    requires AcceptedBatchEvent(worlds, ops, j) && ops[j].type_ == BatchStart
    ensures (forall k | i < k < j :: !AcceptedBatchEvent(worlds, ops, k)) <==>
            (&& (exists k :: i < k < j && Rejected(worlds, ops, k) && ops[k].type_ != BatchStart)
             && (forall k | i < k < j && Validated(worlds, ops, k) :: Rejected(worlds, ops, k)))
  {
    AcceptedIsValidated(worlds, ops, i);
    AcceptedIsValidated(worlds, ops, j);
    var n := StartsAreApart(worlds, ops, i, j);
    forall k | i < k < j && AcceptedBatchEvent(worlds, ops, k)
      ensures Validated(worlds, ops, k) && !Rejected(worlds, ops, k)
    {
      AcceptedIsValidated(worlds, ops, k);
    }
  }

  /** Accepted batch events with no accepted batch start after the first are out of order only
      when a batch start between them was rejected. */
  lemma OutOfOrder(worlds: seq<World>, ops: seq<Op>, i: nat, j: nat)
    requires Run(worlds, ops) && i < j < |ops| && NoReset(ops, i, j)
    requires AcceptedBatchEvent(worlds, ops, i) && AcceptedBatchEvent(worlds, ops, j)
    requires forall k | i < k <= j :: !(AcceptedBatchEvent(worlds, ops, k) && ops[k].type_ == BatchStart)
    requires Rank(ops[i].type_).value > Rank(ops[j].type_).value
    ensures exists k :: i < k < j && Rejected(worlds, ops, k) && ops[k].type_ == BatchStart
  {
    AcceptedIsValidated(worlds, ops, i);
    AcceptedIsValidated(worlds, ops, j);
    if forall k | i < k <= j :: !(Validated(worlds, ops, k) && ops[k].type_ == BatchStart) {
      BatchEventsInOrder(worlds, ops, i, j);
    }
  }

  /** An event that is out of order gets in order by another event exactly when that one passes and
      is a batch start (for a second batch start: any other batch event), accepted or not. */
  lemma UnlocksExactly(w: World, op: Op, t: EventType)
    requires ValidWorld(w) && ValidOp(w, op) && op.Event_? && Rank(t).Some? && !InOrder(w.last, t)
    ensures InOrder(Step(w, op).0.last, t) <==>
            Passes(w, op) && Rank(op.type_).Some? && (t == BatchStart <==> op.type_ != BatchStart)
  {
    AcceptedExactly(w, op);
  }

  /** After an accepted batch start a second one is rejected; but a loss event without a loss,
      though itself rejected, lets it through. */
  lemma LosslessUnlocksStart(w: World, conducts: Conducts, step: Option<int>)
    requires ValidWorld(w) && w.initialized && !w.finalized && w.last == BatchStart
    requires forall j | 0 <= j < |w.recipe| :: Takes(w.mods, w.recipe, BatchStart, conducts, j)
    ensures !Step(w, Event_(BatchStart, false, step, conducts)).1
    ensures var (w', ok) := Step(w, Event_(LossCalculated, false, step, conducts));
            !ok && Step(w', Event_(BatchStart, false, step, conducts)).1
  {
    var (w', ok) := Step(w, Event_(LossCalculated, false, step, conducts));
    AcceptedExactly(w', Event_(BatchStart, false, step, conducts));
  }

  /** An open lifecycle whose recipe is one modifier that takes events. */
  ghost predicate Open(w: World) {
    && w.initialized && !w.finalized && w.recipe == [0] && |w.mods| == 1 && Rank(w.last).Some?
    && w.mods[0].initialized && !w.mods[0].finalized
  }

  lemma SendsOne(w: World, t: EventType, raises: bool) returns (op: Op, w': World)
    requires Open(w) && Rank(t).Some? && InOrder(w.last, t)
    ensures op.Event_? && op.type_ == t && op.hasLoss && Passes(w, op)
    ensures ValidWorld(w) && Step(w, op) == (w', !raises) && Open(w') && w'.last == t
  {
    op := Event_(t, true, None, if raises then Raising(OnEvent) else Calm(true));
    w' := Step(w, op).0;
    assert w.mods == [w.mods[0]];
    OneModifier(w.mods[0], DoEvent(t), op.conducts);
    ThroughIs(EventHooks(w.mods[0], t), op.conducts(0));
    assert EventHooks(w.mods[0], t)[0] == OnEvent;
  }

  /** A run goes on with an event in order to one modifier: accepted unless on_event raises. */
  lemma Sends(worlds: seq<World>, ops: seq<Op>, t: EventType, raises: bool)
    returns (worlds': seq<World>, ops': seq<Op>)
    requires Run(worlds, ops) && Open(worlds[|ops|]) && Rank(t).Some? && InOrder(worlds[|ops|].last, t)
    ensures Run(worlds', ops') && |ops'| == |ops| + 1
    ensures (forall k | 0 <= k < |worlds| :: worlds'[k] == worlds[k])
    ensures (forall k | 0 <= k < |ops| :: ops'[k] == ops[k])
    ensures Open(worlds'[|ops'|]) && worlds'[|ops'|].last == t
    ensures ops'[|ops|].Event_? && ops'[|ops|].type_ == t && ops'[|ops|].hasLoss
    ensures if raises then Rejected(worlds', ops', |ops|) else AcceptedBatchEvent(worlds', ops', |ops|)
  {
    var op, w' := SendsOne(worlds[|ops|], t, raises);
    worlds', ops' := worlds + [w'], ops + [op];
    assert Run(worlds', ops');
  }

  lemma Opens(m: Mod) returns (worlds: seq<World>, ops: seq<Op>)
    ensures Run(worlds, ops) && worlds[0] == Fresh(m) && |ops| == 1
    ensures Open(worlds[1]) && worlds[1].last == BatchEnd
  {
    var init := Initialize_([0], Calm(true));
    worlds, ops := [Fresh(m), Step(Fresh(m), init).0], [init];
    OneModifier(Fresh(m).mods[0], DoInitialize, Calm(true));
    ThroughIs(Hooks(Fresh(m).mods[0], DoInitialize), Conduct(None, true));
  }

  lemma StartsBatch(m: Mod) returns (worlds: seq<World>, ops: seq<Op>)
    ensures Run(worlds, ops) && worlds[0] == Fresh(m) && |ops| == 2
    ensures AcceptedBatchEvent(worlds, ops, 1) && ops[1].type_ == BatchStart
    ensures Open(worlds[2]) && worlds[2].last == BatchStart
  {
    worlds, ops := Opens(m);
    worlds, ops := Sends(worlds, ops, BatchStart, false);
  }

  /** Two adjacent accepted batch starts: a loss event with a loss between them was rejected because
      a hook raised. */
  lemma RaisingHookUnlocksStart(m: Mod) returns (worlds: seq<World>, ops: seq<Op>)
    ensures Run(worlds, ops) && worlds[0] == Fresh(m) && |ops| == 4
    ensures AcceptedBatchEvent(worlds, ops, 1) && ops[1].type_ == BatchStart
    ensures Rejected(worlds, ops, 2) && ops[2].type_ == LossCalculated && ops[2].hasLoss
    ensures AcceptedBatchEvent(worlds, ops, 3) && ops[3].type_ == BatchStart
  {
    worlds, ops := StartsBatch(m);
    worlds, ops := Sends(worlds, ops, LossCalculated, true);
    worlds, ops := Sends(worlds, ops, BatchStart, false);
  }

  /** A post-step event and later a loss event, both accepted, with no accepted batch start between
      them: the one between them was rejected because a hook raised. */
  lemma RaisingHookBreaksOrder(m: Mod) returns (worlds: seq<World>, ops: seq<Op>)
    ensures Run(worlds, ops) && worlds[0] == Fresh(m) && |ops| == 5
    ensures AcceptedBatchEvent(worlds, ops, 2) && ops[2].type_ == OptimPostStep
    ensures Rejected(worlds, ops, 3) && ops[3].type_ == BatchStart
    ensures AcceptedBatchEvent(worlds, ops, 4) && ops[4].type_ == LossCalculated
  {
    worlds, ops := StartsBatch(m);
    worlds, ops := Sends(worlds, ops, OptimPostStep, false);
    worlds, ops := Sends(worlds, ops, BatchStart, true);
    worlds, ops := Sends(worlds, ops, LossCalculated, false);
  }
}
