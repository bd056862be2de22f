/** The tensor profiler: per-device memory timelines, and storages tracked by address
    from their first sighting until they are freed. */
module MemoryProfiler {
  import opened Prelude

  type Device(==, !new)
  type Address = nat
  type Timelines = map<Device, seq<int>>

  // ----- Timelines

  ghost predicate Even(tl: Timelines, n: nat) {
    (tl == map[] <==> n == 0) && forall d | d in tl :: |tl[d]| == n
  }

  /** All the timelines are equally long. */
  ghost predicate AllEven(tl: Timelines) {
    exists n :: Even(tl, n)
  }

  function Zeros(n: nat): seq<int> {
    seq(n, _ => 0)
  }

  function Last(s: seq<int>): int {
    if |s| == 0 then 0 else s[|s| - 1]
  }

  /** What each device holds now: the last entry of its timeline. */
  function Current(tl: Timelines, d: Device): int {
    if d in tl then Last(tl[d]) else 0
  }

  /** Timelines of common length `n` after a change of `size` on one device. */
  function Added(tl: Timelines, n: nat, device: Device, size: int): Timelines {
    var known := if device in tl then tl else tl[device := Zeros(if n > 1 then n else 1)];
    Grown(known, known.Keys, device, size)
  }

  /** The timelines of the devices in `done` have one entry more. */
  function Grown(tl: Timelines, done: set<Device>, device: Device, size: int): Timelines {
    map d | d in tl :: if d in done then tl[d] + [Last(tl[d]) + (if d == device then size else 0)] else tl[d]
  }

  lemma GrownNext(tl: Timelines, done: set<Device>, device: Device, size: int, d: Device)
    requires d in tl && d !in done
    ensures d in Grown(tl, done, device, size)
    ensures var now := Grown(tl, done, device, size);
            Grown(tl, done + {d}, device, size) == now[d := now[d] + [Last(now[d]) + (if d == device then size else 0)]]
  {
  }

  function Longest(x: nat, y: nat): nat {
    if x < y then y else x
  }

  class MemoryProfile {
    var timelines: Timelines

    constructor ()
      ensures timelines == map[]
    {
      timelines := map[];
    }

    /** The length of the longest timeline. */
    method Length() returns (n: nat)
      ensures forall m: nat :: Even(timelines, m) ==> n == m
    {
      n := 0;
      var rest := timelines.Keys;
      while rest != {}
        invariant rest <= timelines.Keys
        invariant forall m: nat | Even(timelines, m) :: n == m || (n == 0 && rest == timelines.Keys)
        decreases rest
      {
        var d :| d in rest;
        n := Longest(n, |timelines[d]|);
        rest := rest - {d};
      }
      if timelines.Keys == {} {
        assert timelines == map[];
      }
    }

    method Add(device: Device, size: int, ghost n: nat)
      requires Even(timelines, n)
      modifies this
      ensures timelines == Added(old(timelines), n, device, size)
    {
      if device !in timelines {
        var len := Length();
        timelines := timelines[device := Zeros(if len > 1 then len else 1)];
      }
      Extend(device, size);
    }

    /** The loop over the timelines: each gets one entry. */
    method Extend(device: Device, size: int)
      modifies this
      ensures timelines == Grown(old(timelines), old(timelines).Keys, device, size)
    {
      ghost var known := timelines;
      var rest := timelines.Keys;
      assert timelines == Grown(known, {}, device, size);
      while rest != {}
        invariant rest <= known.Keys && timelines == Grown(known, known.Keys - rest, device, size)
        decreases rest
      {
        var d :| d in rest;
        GrownNext(known, known.Keys - rest, device, size, d);
        assert known.Keys - (rest - {d}) == (known.Keys - rest) + {d};
        var diff := if d == device then size else 0;
        timelines := timelines[d := timelines[d] + [Last(timelines[d]) + diff]];
        rest := rest - {d};
      }
      assert known.Keys - rest == known.Keys;
    }

    method Subtract(device: Device, size: int, ghost n: nat)
      requires Even(timelines, n)
      modifies this
      ensures timelines == Added(old(timelines), n, device, -size)
    {
      Add(device, -size, n);
    }
  }

  lemma AddedIsEven(tl: Timelines, n: nat, device: Device, size: int)
    requires Even(tl, n)
    ensures Even(Added(tl, n, device, size), if n > 1 then n + 1 else 2)
    ensures forall d :: Current(Added(tl, n, device, size), d) == Current(tl, d) + (if d == device then size else 0)
  {
    assert device in Added(tl, n, device, size);
    assert tl != map[] ==> exists d :: d in tl;
  }

  // ----- Storages

  datatype Storage = Storage(address: Address, size: nat, device: Device)

  /** The profiler's own state. */
  datatype Profile = Profile(timelines: Timelines, length: nat, tracked: set<Address>)

  function Changed(p: Profile, device: Device, size: int): Profile {
    p.(timelines := Added(p.timelines, p.length, device, size), length := if p.length > 1 then p.length + 1 else 2)
  }

  function Tracked(p: Profile, s: Storage): Profile {
    if s.address in p.tracked then p
    else
      var q := Changed(p, s.device, s.size);
      q.(tracked := q.tracked + {s.address})
  }

  function Untracked(p: Profile, s: Storage): Profile {
    if s.address !in p.tracked then p
    else
      var q := Changed(p, s.device, -(s.size as int));
      q.(tracked := q.tracked - {s.address})
  }

  class TensorProfiler {
    var tracked: set<Address>
    const memory: MemoryProfile

    ghost predicate Is(p: Profile)
      reads this, memory
    {
      tracked == p.tracked && memory.timelines == p.timelines && Even(p.timelines, p.length)
    }

    constructor ()
      ensures Is(Profile(map[], 0, {})) && fresh(memory)
    {
      tracked := {};
      memory := new MemoryProfile();
    }

    /** A storage is seen; tells whether a finalizer was registered for it. */
    method Track(s: Storage, ghost p: Profile) returns (registered: bool)
      requires Is(p)
      modifies this, memory
      ensures Is(Tracked(p, s)) && registered == (s.address !in p.tracked)
    {
      if s.address in tracked {
        return false;
      }
      AddedIsEven(p.timelines, p.length, s.device, s.size);
      memory.Add(s.device, s.size, p.length);
      tracked := tracked + {s.address};
      return true;
    }

    /** The finalizer of a storage. */
    method Untrack(s: Storage, ghost p: Profile)
      requires Is(p)
      modifies this, memory
      ensures Is(Untracked(p, s))
    {
      if s.address !in tracked {
        return;
      }
      AddedIsEven(p.timelines, p.length, s.device, -(s.size as int));
      memory.Subtract(s.device, s.size, p.length);
      tracked := tracked - {s.address};
    }

    method Exit(ghost p: Profile)
      requires Is(p)
      modifies this
      ensures Is(p.(tracked := {}))
    {
      tracked := {};
    }
  }

  // ----- Runs

  /** What happens to storages: a new one (its address free at the time), one returned by an
      operation under the profiler, one freed (its finalizer runs), and the end of profiling. */
  datatype Event = Allocate(id: nat, storage: Storage) | Sight(id: nat) | Free(id: nat) | Exit

  /** The profiler among the storages: those alive, and those with a finalizer. */
  datatype World = World(alive: map<nat, Storage>, registered: set<nat>, profile: Profile, exited: bool)

  const START := World(map[], {}, Profile(map[], 0, {}), false)

  /** What the environment can do: addresses are reused only after they are freed, and
      operations run under the profiler only before it exits. */
  predicate Possible(w: World, e: Event) {
    match e
    case Allocate(id, s) => id !in w.alive && forall other | other in w.alive :: w.alive[other].address != s.address
    case Sight(id) => id in w.alive && !w.exited
    case Free(id) => id in w.alive
    case Exit => !w.exited
  }

  function Step(w: World, e: Event): World
    requires Possible(w, e)
  {
    match e
    case Allocate(id, s) => w.(alive := w.alive[id := s])
    case Sight(id) =>
      var s := w.alive[id];
      w.(registered := if s.address in w.profile.tracked then w.registered else w.registered + {id},
         profile := Tracked(w.profile, s))
    case Free(id) =>
      w.(alive := w.alive - {id}, registered := w.registered - {id},
         profile := if id in w.registered then Untracked(w.profile, w.alive[id]) else w.profile)
    case Exit => w.(profile := w.profile.(tracked := {}), exited := true)
  }

  ghost predicate Run(worlds: seq<World>, events: seq<Event>) {
    && |worlds| == |events| + 1 && worlds[0] == START
    && forall k | 0 <= k < |events| :: Possible(worlds[k], events[k]) && worlds[k + 1] == Step(worlds[k], events[k])
  }

  /** The storages the profiler follows: alive, sighted, and known by their address. */
  ghost predicate Consistent(w: World) {
    && Even(w.profile.timelines, w.profile.length) && w.registered <= w.alive.Keys
    && (forall i, j | i in w.alive && j in w.alive && i != j :: w.alive[i].address != w.alive[j].address)
    && (!w.exited ==> forall a :: a in w.profile.tracked <==> exists i | i in w.registered :: w.alive[i].address == a)
    && (w.exited ==> w.profile.tracked == {})
  }

  /** The sizes of the given storages that are on the device. */
  ghost function Total(alive: map<nat, Storage>, ids: set<nat>, d: Device): nat
    requires ids <= alive.Keys
  {
    if ids == {} then 0
    else
      var i :| i in ids;
      Size(alive[i], d) + Total(alive, ids - {i}, d)
  }

  function Size(s: Storage, d: Device): nat {
    if s.device == d then s.size else 0
  }

  lemma {:induction false} TotalWithout(alive: map<nat, Storage>, ids: set<nat>, d: Device, i: nat)
    requires ids <= alive.Keys && i in ids
    ensures Total(alive, ids, d) == Size(alive[i], d) + Total(alive, ids - {i}, d)
    decreases ids
  {
    var j :| j in ids && Total(alive, ids, d) == Size(alive[j], d) + Total(alive, ids - {j}, d);
    if j != i {
      TotalWithout(alive, ids - {j}, d, i);
      TotalWithout(alive, ids - {i}, d, j);
      assert ids - {j} - {i} == ids - {i} - {j};
    }
  }

  lemma {:induction false} TotalElsewhere(alive: map<nat, Storage>, alive': map<nat, Storage>, ids: set<nat>, d: Device)
    requires ids <= alive.Keys && ids <= alive'.Keys && forall i | i in ids :: alive[i] == alive'[i]
    ensures Total(alive, ids, d) == Total(alive', ids, d)
    decreases ids
  {
    if ids != {} {
      var i :| i in ids;
      TotalWithout(alive, ids, d, i);
      TotalWithout(alive', ids, d, i);
      TotalElsewhere(alive, alive', ids - {i}, d);
    }
  }

  /** What is held now: the sizes of the tracked live storages, per device. */
  ghost function Held(w: World, d: Device): nat
    requires w.registered <= w.alive.Keys
  {
    Total(w.alive, w.registered, d)
  }

  // ----- What every run keeps

  ghost predicate Accurate(w: World) {
    && Consistent(w)
    && (!w.exited ==> forall d :: Current(w.profile.timelines, d) == Held(w, d))
  }

  /** A registered storage is the one its address stands for. */
  lemma TrackedMeansRegistered(w: World, i: nat)
    requires Consistent(w) && !w.exited && i in w.alive
    ensures w.alive[i].address in w.profile.tracked <==> i in w.registered
  {
  }

  lemma SightKeeps(w: World, i: nat)
    requires Accurate(w) && Possible(w, Sight(i))
    ensures Accurate(Step(w, Sight(i)))
    ensures forall d ::
              Held(Step(w, Sight(i)), d) == Held(w, d) + (if i in w.registered then 0 else Size(w.alive[i], d))
  {
    TrackedMeansRegistered(w, i);
    var s, w' := w.alive[i], Step(w, Sight(i));
    if i !in w.registered {
      AddedIsEven(w.profile.timelines, w.profile.length, s.device, s.size);
      forall d
        ensures Held(w', d) == Held(w, d) + Size(s, d)
      {
        TotalWithout(w.alive, w'.registered, d, i);
        assert w'.registered - {i} == w.registered;
      }
    }
  }

  lemma FreeIsConsistent(w: World, i: nat)
    requires Consistent(w) && Possible(w, Free(i))
    ensures Consistent(Step(w, Free(i)))
  {
    var s, w' := w.alive[i], Step(w, Free(i));
    if i in w.registered {
      AddedIsEven(w.profile.timelines, w.profile.length, s.device, -(s.size as int));
    }
    if !w.exited {
      TrackedMeansRegistered(w, i);
      forall a
        ensures a in w'.profile.tracked <==> exists j | j in w'.registered :: w'.alive[j].address == a
      {
        if j :| j in w.registered && w.alive[j].address == a && j != i {
          assert j in w'.registered && w'.alive[j].address == a;
        }
      }
    }
  }

  lemma FreeHeld(w: World, i: nat, d: Device)
    requires Consistent(w) && Possible(w, Free(i)) && Consistent(Step(w, Free(i)))
    ensures Held(Step(w, Free(i)), d) == Held(w, d) - (if i in w.registered then Size(w.alive[i], d) else 0)
  {
    var w' := Step(w, Free(i));
    if i in w.registered {
      TotalWithout(w.alive, w.registered, d, i);
    } else {
      assert w.registered - {i} == w.registered;
    }
    TotalElsewhere(w.alive, w'.alive, w'.registered, d);
  }

  lemma FreeCurrent(w: World, i: nat, d: Device)
    requires Consistent(w) && Possible(w, Free(i)) && !w.exited
    ensures Current(Step(w, Free(i)).profile.timelines, d) ==
            Current(w.profile.timelines, d) - (if i in w.registered then Size(w.alive[i], d) else 0)
  {
    TrackedMeansRegistered(w, i);
    if i in w.registered {
      AddedIsEven(w.profile.timelines, w.profile.length, w.alive[i].device, -(w.alive[i].size as int));
    }
  }

  lemma FreeKeeps(w: World, i: nat)
    requires Accurate(w) && Possible(w, Free(i))
    ensures Accurate(Step(w, Free(i)))
  {
    FreeIsConsistent(w, i);
    if !w.exited {
      forall d
        ensures Current(Step(w, Free(i)).profile.timelines, d) == Held(Step(w, Free(i)), d)
      {
        FreeHeld(w, i, d);
        FreeCurrent(w, i, d);
      }
    }
  }

  lemma StepKeeps(w: World, e: Event)
    requires Accurate(w) && Possible(w, e)
    ensures Accurate(Step(w, e))
  {
    match e {
      case Allocate(id, s) =>
        forall d {
          TotalElsewhere(w.alive, w.alive[id := s], w.registered, d);
        }
      case Sight(id) => SightKeeps(w, id);
      case Free(id) => FreeKeeps(w, id);
      case Exit =>
    }
  }

  /** In every run: equal timelines, and each device currently at the total of its tracked live storages. */
  lemma {:induction false} AlwaysAccurate(worlds: seq<World>, events: seq<Event>, k: nat)
    requires Run(worlds, events) && k < |worlds|
    ensures Accurate(worlds[k])
  {
    if k == 0 {
      assert Even(map[], 0);
    } else {
      AlwaysAccurate(worlds, events, k - 1);
      StepKeeps(worlds[k - 1], events[k - 1]);
    }
  }

  /** Nothing changes after the profiler has exited. */
  lemma {:induction false} FrozenAfterExit(worlds: seq<World>, events: seq<Event>, j: nat, k: nat)
    requires Run(worlds, events) && j <= k < |worlds| && worlds[j].exited
    ensures worlds[k].exited && worlds[k].profile == worlds[j].profile
    decreases k
  {
    if j < k {
      FrozenAfterExit(worlds, events, j, k - 1);
      AlwaysAccurate(worlds, events, k - 1);
    }
  }

  // ----- Peaks

  function Peak(s: seq<int>): (m: int)
    requires |s| > 0
    ensures m in s && forall i | 0 <= i < |s| :: s[i] <= m
  {
    var rest := s[..|s| - 1];
    var last := s[|s| - 1];
    assert s == rest + [last];
    if |rest| == 0 then last else
    var m := Peak(rest);
    if m < last then last else m
  }

  /** Some moment up to `k` at which the device held `v`. */
  ghost predicate HeldOnce(worlds: seq<World>, k: nat, d: Device, v: int)
    requires k < |worlds|
  {
    exists j: nat :: j <= k && worlds[j].registered <= worlds[j].alive.Keys && Held(worlds[j], d) == v
  }

  /** The entries of a timeline are what the device held at some moment, and all that it ever held. */
  ghost predicate Records(worlds: seq<World>, k: nat, d: Device)
    requires k < |worlds|
  {
    var tl := worlds[k].profile.timelines;
    if d in tl then
      && (forall v | v in tl[d] :: HeldOnce(worlds, k, d, v))
      && (forall v | HeldOnce(worlds, k, d, v) :: v in tl[d])
    else forall v | HeldOnce(worlds, k, d, v) :: v == 0
  }

  lemma {:induction false} TimelinesRecord(worlds: seq<World>, events: seq<Event>, k: nat, d: Device)
    requires Run(worlds, events) && k < |worlds| && !worlds[k].exited
    ensures Records(worlds, k, d)
  {
    AlwaysAccurate(worlds, events, k);
    if k > 0 {
      if worlds[k - 1].exited {
        FrozenAfterExit(worlds, events, k - 1, k);
      }
      AlwaysAccurate(worlds, events, k - 1);
      TimelinesRecord(worlds, events, k - 1, d);
      HeldNext(worlds, k, d);
      EntriesNext(worlds[k - 1], events[k - 1], d);
      HeldOnceZero(worlds, k - 1, d);
    }
  }

  lemma HeldOnceZero(worlds: seq<World>, k: nat, d: Device)
    requires k < |worlds| && worlds[0] == START
    ensures HeldOnce(worlds, k, d, 0)
  {
    assert Held(worlds[0], d) == 0;
  }

  lemma HeldNext(worlds: seq<World>, k: nat, d: Device)
    requires 0 < k < |worlds| && Consistent(worlds[k])
    ensures forall v :: HeldOnce(worlds, k, d, v) <==> HeldOnce(worlds, k - 1, d, v) || v == Held(worlds[k], d)
  {
    forall v
      ensures HeldOnce(worlds, k, d, v) <==> HeldOnce(worlds, k - 1, d, v) || v == Held(worlds[k], d)
    {
      if HeldOnce(worlds, k - 1, d, v) {
        var j: nat :| j <= k - 1 && worlds[j].registered <= worlds[j].alive.Keys && Held(worlds[j], d) == v;
      }
    }
  }

  /** The entries after a step: those before, perhaps a zero, and what is held now. */
  lemma EntriesNext(w: World, e: Event, d: Device)
    requires Accurate(w) && Possible(w, e) && !w.exited && !Step(w, e).exited
    ensures var tl, tl' := w.profile.timelines, Step(w, e).profile.timelines;
            if tl' == tl then Held(Step(w, e), d) == Held(w, d)
            else (d in tl ==> d in tl') && (d in tl' ==> forall v :: v in tl'[d] <==>
                   (d in tl && v in tl[d]) || (d !in tl && v == 0) || v == Held(Step(w, e), d))
  {
    StepKeeps(w, e);
  }

  /** The reported peak is the most that was ever held. */
  lemma PeakIsMostHeld(worlds: seq<World>, events: seq<Event>, k: nat, d: Device)
    requires Run(worlds, events) && k < |worlds| && !worlds[k].exited && d in worlds[k].profile.timelines
    ensures |worlds[k].profile.timelines[d]| > 0
    ensures var peak := Peak(worlds[k].profile.timelines[d]);
            HeldOnce(worlds, k, d, peak) && forall v | HeldOnce(worlds, k, d, v) :: v <= peak
  {
    AlwaysAccurate(worlds, events, k);
    TimelinesRecord(worlds, events, k, d);
  }
}
