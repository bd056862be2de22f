/** Sharing in the intermediates cache: a tensor that is offloaded again gets the copy it has, the
    size counts every stored tensor once, and what pinning does to sharing. */
module CacheSharing {
  import opened Prelude
  import opened CacheValues

  // ----- Offloading the same tensor again

  /** The tensor has its place: offloading it changes nothing. */
  predicate Settled(h: Heap, t: nat, device: Option<Device>)
    requires h.Has(t)
  {
    t in h.memo || Stays(h.tensors[t], device)
  }

  function Place(h: Heap, t: nat): nat {
    if t in h.memo then h.memo[t] else t
  }

  /** Every leaf of a stored value is at the place of the tensor it came from. */
  predicate Placed(v: Value, s: Stored, h: Heap, device: Option<Device>)
    requires ValueIn(v, h)
    decreases v
  {
    match (v, s)
    case (Leaf(t), Held(id, _)) => Settled(h, t, device) && id == Place(h, t)
    case (Group(shape, items), Nested(shape', stored)) => shape == shape' && AllPlaced(items, stored, h, device)
    case (Plain(p), Kept(p')) => p == p'
    case _ => false
  }

  predicate AllPlaced(vs: seq<Value>, ss: seq<Stored>, h: Heap, device: Option<Device>)
    requires ValuesIn(vs, h)
    decreases vs
  {
    |vs| == |ss| && (|vs| > 0 ==> Placed(vs[0], ss[0], h, device) && AllPlaced(vs[1..], ss[1..], h, device))
  }

  /** No settled tensor has lost its place, and nothing is forgotten. */
  ghost predicate Keeps(h: Heap, h': Heap, device: Option<Device>) {
    && h.tensors <= h'.tensors
    && forall t | h.Has(t) && Settled(h, t, device) :: Settled(h', t, device) && Place(h', t) == Place(h, t)
  }

  lemma KeepsChain(h: Heap, h': Heap, h'': Heap, device: Option<Device>)
    requires Keeps(h, h', device) && Keeps(h', h'', device)
    ensures Keeps(h, h'', device)
  {
  }

  lemma {:induction false} PlacedStays(v: Value, s: Stored, h: Heap, h': Heap, device: Option<Device>)
    requires ValueIn(v, h) && ValueIn(v, h') && Placed(v, s, h, device) && Keeps(h, h', device)
    ensures Placed(v, s, h', device)
    decreases v
  {
    if v.Group? {
      AllPlacedStay(v.items, s.items, h, h', device);
    }
  }

  lemma {:induction false} AllPlacedStay(vs: seq<Value>, ss: seq<Stored>, h: Heap, h': Heap, device: Option<Device>)
    requires ValuesIn(vs, h) && ValuesIn(vs, h') && AllPlaced(vs, ss, h, device) && Keeps(h, h', device)
    ensures AllPlaced(vs, ss, h', device)
    decreases vs
  {
    if |vs| > 0 {
      PlacedStays(vs[0], ss[0], h, h', device);
      AllPlacedStay(vs[1..], ss[1..], h, h', device);
    }
  }

  lemma OffloadTensorKeeps(h: Heap, t: nat, device: Option<Device>)
    requires h.Valid() && h.Has(t)
    ensures var (after, id) := OffloadTensor(h, t, device);
            Keeps(h, after, device) && Settled(after, t, device) && id == Place(after, t)
  {
  }

  /** Equal tensors get equal places, within a value and from one offload to any later one to the
      same device: later offloads keep what earlier ones placed. */
  lemma {:induction false} OffloadPlaces(h: Heap, v: Value, device: Option<Device>, onload: Option<Device>)
    requires h.Valid() && ValueIn(v, h)
    ensures var (after, stored) := Offload(h, v, device, onload);
            Keeps(h, after, device) && ValueIn(v, after) && Placed(v, stored, after, device)
    decreases v
  {
    var (after, stored) := Offload(h, v, device, onload);
    ValueStays(v, h, after);
    match v
    case Leaf(t) => OffloadTensorKeeps(h, t, device);
    case Group(_, items) => OffloadAllPlaces(h, items, device, onload);
    case Plain(_) =>
  }

  lemma {:induction false} OffloadAllPlaces(h: Heap, vs: seq<Value>, device: Option<Device>, onload: Option<Device>)
    requires h.Valid() && ValuesIn(vs, h)
    ensures var (after, stored) := OffloadAll(h, vs, device, onload);
            Keeps(h, after, device) && ValuesIn(vs, after) && AllPlaced(vs, stored, after, device)
    decreases vs
  {
    if |vs| > 0 {
      var (middle, first) := Offload(h, vs[0], device, onload);
      ValuesStay(vs[1..], h, middle);
      var (after, rest) := OffloadAll(middle, vs[1..], device, onload);
      OffloadPlaces(h, vs[0], device, onload);
      OffloadAllPlaces(middle, vs[1..], device, onload);
      ValueStays(vs[0], middle, after);
      PlacedStays(vs[0], first, middle, after, device);
      KeepsChain(h, middle, after, device);
    }
  }

  /** The tensors of a value, in order. */
  function Leaves(v: Value): seq<nat>
    decreases v
  {
    match v
    case Leaf(t) => [t]
    case Group(_, items) => AllLeaves(items)
    case Plain(_) => []
  }

  function AllLeaves(vs: seq<Value>): seq<nat>
    decreases vs
  {
    if |vs| == 0 then [] else Leaves(vs[0]) + AllLeaves(vs[1..])
  }

  predicate ArePlaces(refs: seq<nat>, tensors: seq<nat>, h: Heap) {
    |refs| == |tensors| && forall i | 0 <= i < |refs| :: refs[i] == Place(h, tensors[i])
  }

  /** One map takes every tensor to what is stored for it: shared tensors stay shared. */
  lemma {:induction false} RefsArePlaces(v: Value, s: Stored, h: Heap, device: Option<Device>)
    requires ValueIn(v, h) && Placed(v, s, h, device)
    ensures ArePlaces(Refs(s), Leaves(v), h)
    decreases v
  {
    if v.Group? {
      AllRefsArePlaces(v.items, s.items, h, device);
    }
  }

  lemma {:induction false} AllRefsArePlaces(vs: seq<Value>, ss: seq<Stored>, h: Heap, device: Option<Device>)
    requires ValuesIn(vs, h) && AllPlaced(vs, ss, h, device)
    ensures ArePlaces(AllRefs(ss), AllLeaves(vs), h)
    decreases vs
  {
    if |vs| > 0 {
      RefsArePlaces(vs[0], ss[0], h, device);
      AllRefsArePlaces(vs[1..], ss[1..], h, device);
    }
  }

  // ----- Size

  /** The tensors a stored value refers to, in order. */
  function Refs(s: Stored): seq<nat>
    decreases s
  {
    match s
    case Held(t, _) => [t]
    case Nested(_, items) => AllRefs(items)
    case Kept(_) => []
  }

  function AllRefs(ss: seq<Stored>): seq<nat>
    decreases ss
  {
    if |ss| == 0 then [] else Refs(ss[0]) + AllRefs(ss[1..])
  }

  /** The bytes of primitive values. */
  function Primitives(s: Stored): nat
    decreases s
  {
    match s
    case Held(_, _) => 0
    case Nested(_, items) => AllPrimitives(items)
    case Kept(p) => p.size
  }

  function AllPrimitives(ss: seq<Stored>): nat
    decreases ss
  {
    if |ss| == 0 then 0 else Primitives(ss[0]) + AllPrimitives(ss[1..])
  }

  /** The bytes on a device of those of the first `n` tensors that are in the set. */
  function Bytes(ids: set<nat>, tensors: seq<Tensor>, n: nat, device: Device): nat
    requires n <= |tensors|
  {
    if n == 0 then 0
    else
      Bytes(ids, tensors, n - 1, device)
        + (if n - 1 in ids && tensors[n - 1].device == device then tensors[n - 1].bytes else 0)
  }

  lemma {:induction false} BytesAdd(ids: set<nat>, t: nat, tensors: seq<Tensor>, n: nat, device: Device)
    requires n <= |tensors|
    ensures Bytes(ids + {t}, tensors, n, device) ==
            Bytes(ids, tensors, n, device)
            + (if t < n && t !in ids && tensors[t].device == device then tensors[t].bytes else 0)
  {
    if n > 0 {
      BytesAdd(ids, t, tensors, n - 1, device);
    }
  }

  function Entry(sizes: map<Device, nat>, device: Device): nat {
    if device in sizes then sizes[device] else 0
  }

  /** The sizes count every tensor in `ids` once, and so many bytes of primitive values on the CPU. */
  ghost predicate Counted(sizes: map<Device, nat>, ids: set<nat>, primitives: nat, h: Heap) {
    forall d :: Entry(sizes, d) == Bytes(ids, h.tensors, |h.tensors|, d) + (if d == Cpu then primitives else 0)
  }

  function Ids(refs: seq<nat>): set<nat> {
    set t | t in refs
  }

  method SizeHelper(s: Stored, h: Heap, sizes: map<Device, nat>, memo: set<nat>, ghost primitives: nat)
    returns (sizes': map<Device, nat>, memo': set<nat>)
    requires StoredIn(s, h) && Counted(sizes, memo, primitives, h)
    ensures memo' == memo + Ids(Refs(s)) && Counted(sizes', memo', primitives + Primitives(s), h)
    decreases s
  {
    sizes', memo' := sizes, memo;
    match s {
      case Held(t, _) =>
        var tensor := h.tensors[t];
        if t !in memo {
          sizes' := sizes[tensor.device := Entry(sizes, tensor.device) + tensor.bytes];
        }
        memo' := memo + {t};
        forall d
          ensures Entry(sizes', d) == Bytes(memo', h.tensors, |h.tensors|, d) + (if d == Cpu then primitives else 0)
        {
          BytesAdd(memo, t, h.tensors, |h.tensors|, d);
        }
        assert Ids([t]) == {t};
      case Nested(_, items) =>
        sizes', memo' := SizeItems(items, h, sizes, memo, primitives);
      case Kept(p) =>
        sizes' := sizes[Cpu := Entry(sizes, Cpu) + p.size];
        assert Ids([]) == {};
    }
  }

  lemma IdsConcat(a: seq<nat>, b: seq<nat>)
    ensures Ids(a + b) == Ids(a) + Ids(b)
  {
  }

  lemma {:induction false} PrefixRefs(ss: seq<Stored>, i: nat)
    requires i < |ss|
    ensures AllRefs(ss[..i + 1]) == AllRefs(ss[..i]) + Refs(ss[i])
    ensures AllPrimitives(ss[..i + 1]) == AllPrimitives(ss[..i]) + Primitives(ss[i])
  {
    if i == 0 {
      assert ss[..1][1..] == [] && ss[..0] == [];
      assert [] + Refs(ss[0]) == Refs(ss[0]) + [];
    } else {
      PrefixRefs(ss[1..], i - 1);
      assert ss[..i + 1][1..] == ss[1..][..i] && ss[..i][1..] == ss[1..][..i - 1];
      assert Refs(ss[0]) + (AllRefs(ss[..i][1..]) + Refs(ss[i])) == Refs(ss[0]) + AllRefs(ss[..i][1..]) + Refs(ss[i]);
    }
  }

  lemma {:induction false} StoredAt(ss: seq<Stored>, h: Heap, i: nat)
    requires AllStoredIn(ss, h) && i < |ss|
    ensures StoredIn(ss[i], h)
  {
    if i > 0 {
      StoredAt(ss[1..], h, i - 1);
    }
  }

  /** The same for several values; the loop over a container's items, and over a batch's values. */
  method SizeItems(items: seq<Stored>, h: Heap, sizes: map<Device, nat>, memo: set<nat>, ghost primitives: nat)
    returns (sizes': map<Device, nat>, memo': set<nat>)
    requires AllStoredIn(items, h) && Counted(sizes, memo, primitives, h)
    ensures memo' == memo + Ids(AllRefs(items)) && Counted(sizes', memo', primitives + AllPrimitives(items), h)
    decreases items
  {
    sizes', memo' := sizes, memo;
    assert items[..0] == [] && Ids([]) == {};
    for i := 0 to |items|
      invariant memo' == memo + Ids(AllRefs(items[..i]))
      invariant Counted(sizes', memo', primitives + AllPrimitives(items[..i]), h)
    {
      StoredAt(items, h, i);
      PrefixRefs(items, i);
      IdsConcat(AllRefs(items[..i]), Refs(items[i]));
      sizes', memo' := SizeHelper(items[i], h, sizes', memo', primitives + AllPrimitives(items[..i]));
    }
    assert items[..|items|] == items;
  }

  // ----- Pinning and sharing

  /** A reference, and whether it is among those to be pinned. */
  datatype Mark = Mark(tensor: nat, chosen: bool)

  predicate InRange(tensors: seq<Tensor>, refs: seq<Mark>) {
    forall k | 0 <= k < |refs| :: refs[k].tensor < |tensors|
  }

  /** The reference is replaced by one to a pinned copy. */
  predicate Moves(tensors: seq<Tensor>, ref: Mark)
    requires ref.tensor < |tensors|
  {
    ref.chosen && Pinnable(tensors[ref.tensor])
  }

  function WithCopy(tensors: seq<Tensor>, ref: Mark): (r: seq<Tensor>)
    requires ref.tensor < |tensors|
    ensures tensors <= r
  {
    if Moves(tensors, ref) then tensors + [tensors[ref.tensor].(pinned := true)] else tensors
  }

  /** Pinning references one by one. */
  function PinRefs(tensors: seq<Tensor>, refs: seq<Mark>): (r: (seq<Tensor>, seq<nat>))
    requires InRange(tensors, refs)
    ensures |r.1| == |refs| && tensors <= r.0
    decreases |refs|
  {
    if |refs| == 0 then (tensors, [])
    else
      var (after, rest) := PinRefs(WithCopy(tensors, refs[0]), refs[1..]);
      (after, [if Moves(tensors, refs[0]) then |tensors| else refs[0].tensor] + rest)
  }

  /** A chosen reference to a pinnable tensor gets a new tensor, unlike any other reference's; the others stay. */
  lemma {:induction false} PinRefsAt(tensors: seq<Tensor>, refs: seq<Mark>, i: nat)
    requires InRange(tensors, refs)
    requires i < |refs|
    ensures var ids := PinRefs(tensors, refs).1;
            if Moves(tensors, refs[i]) then ids[i] >= |tensors| else ids[i] == refs[i].tensor
    decreases |refs|
  {
    if i > 0 {
      PinRefsAt(WithCopy(tensors, refs[0]), refs[1..], i - 1);
    }
  }

  lemma {:induction false} PinRefsApart(tensors: seq<Tensor>, refs: seq<Mark>, i: nat, j: nat)
    requires InRange(tensors, refs)
    requires i < j < |refs| && (Moves(tensors, refs[i]) || Moves(tensors, refs[j]))
    ensures PinRefs(tensors, refs).1[i] != PinRefs(tensors, refs).1[j]
    decreases |refs|
  {
    if i == 0 {
      PinRefsAt(tensors, refs, 0);
      PinRefsAt(WithCopy(tensors, refs[0]), refs[1..], j - 1);
    } else {
      PinRefsApart(WithCopy(tensors, refs[0]), refs[1..], i - 1, j - 1);
    }
  }

  /** Two references to one tensor still share it after pinning exactly when neither was replaced. */
  lemma SharedAfterPinExactly(tensors: seq<Tensor>, refs: seq<Mark>, i: nat, j: nat)
    requires InRange(tensors, refs)
    requires i < j < |refs| && refs[i].tensor == refs[j].tensor
    ensures PinRefs(tensors, refs).1[i] == PinRefs(tensors, refs).1[j]
            <==> !Pinnable(tensors[refs[i].tensor]) || (!refs[i].chosen && !refs[j].chosen)
  {
    if Moves(tensors, refs[i]) || Moves(tensors, refs[j]) {
      PinRefsApart(tensors, refs, i, j);
    } else {
      PinRefsAt(tensors, refs, i);
      PinRefsAt(tensors, refs, j);
    }
  }

  // ----- Pinning and size

  function MarkedTensors(refs: seq<Mark>): (r: seq<nat>)
    ensures |r| == |refs| && forall k | 0 <= k < |refs| :: r[k] == refs[k].tensor
  {
    if |refs| == 0 then [] else [refs[0].tensor] + MarkedTensors(refs[1..])
  }

  predicate Costs(tensors: seq<Tensor>, ref: Mark)
    requires ref.tensor < |tensors|
  {
    Moves(tensors, ref) && tensors[ref.tensor].bytes > 0
  }

  /** Every reference that pinning replaces is the only one to its tensor; `done` are references elsewhere. */
  predicate Alone(tensors: seq<Tensor>, done: set<nat>, refs: seq<Mark>)
    requires InRange(tensors, refs)
  {
    forall i | 0 <= i < |refs| && Costs(tensors, refs[i]) ::
      refs[i].tensor !in done && forall j | 0 <= j < |refs| && j != i :: refs[j].tensor != refs[i].tensor
  }

  lemma {:induction false} BytesOfPrefix(ids: set<nat>, tensors: seq<Tensor>, more: seq<Tensor>, n: nat, device: Device)
    requires n <= |tensors|
    ensures Bytes(ids, tensors + more, n, device) == Bytes(ids, tensors, n, device)
  {
    if n > 0 {
      BytesOfPrefix(ids, tensors, more, n - 1, device);
    }
  }

  function Size(ids: set<nat>, tensors: seq<Tensor>): nat {
    Bytes(ids, tensors, |tensors|, Cpu)
  }

  /** Replacing one reference by one to a new pinned copy. */
  lemma CopyAdds(tensors: seq<Tensor>, t: nat, others: set<nat>)
    requires t < |tensors| && Pinnable(tensors[t]) && (forall k | k in others :: k < |tensors|)
    ensures var copy := tensors[t].(pinned := true);
            Size(others + {|tensors|}, tensors + [copy])
            == Size(others + {t}, tensors) + (if t in others then tensors[t].bytes else 0)
  {
    var copy := tensors[t].(pinned := true);
    var n := |tensors|;
    BytesAdd(others, t, tensors, n, Cpu);
    BytesAdd(others, n, tensors, n, Cpu);
    BytesOfPrefix(others + {n}, tensors, [copy], n, Cpu);
  }

  lemma AloneStep(tensors: seq<Tensor>, done: set<nat>, refs: seq<Mark>)
    requires |refs| > 0 && InRange(tensors, refs) && !Costs(tensors, refs[0])
    ensures Alone(tensors, done, refs) <==> Alone(tensors, done + {refs[0].tensor}, refs[1..])
  {
    var done', rest := done + {refs[0].tensor}, refs[1..];
    assert forall i | 0 < i < |refs| :: refs[i] == rest[i - 1];
    if Alone(tensors, done, refs) {
      forall i | 0 <= i < |rest| && Costs(tensors, rest[i])
        ensures rest[i].tensor !in done' && forall j | 0 <= j < |rest| && j != i :: rest[j].tensor != rest[i].tensor
      {
        assert Costs(tensors, refs[i + 1]);
        assert refs[0].tensor != refs[i + 1].tensor;
        assert forall j | 0 <= j < |rest| :: rest[j] == refs[j + 1];
      }
    }
    if Alone(tensors, done', rest) {
      forall i | 0 <= i < |refs| && Costs(tensors, refs[i])
        ensures refs[i].tensor !in done && forall j | 0 <= j < |refs| && j != i :: refs[j].tensor != refs[i].tensor
      {
        assert Costs(tensors, rest[i - 1]);
        assert forall j | 0 < j < |refs| :: refs[j] == rest[j - 1];
      }
    }
  }

  lemma AloneCopy(tensors: seq<Tensor>, done: set<nat>, refs: seq<Mark>)
    requires |refs| > 0 && InRange(tensors, refs) && Costs(tensors, refs[0])
    ensures var t := refs[0].tensor;
            Alone(tensors, done, refs)
            <==> t !in done && t !in MarkedTensors(refs[1..]) && Alone(tensors, done, refs[1..])
  {
    var t, rest := refs[0].tensor, refs[1..];
    assert forall i | 0 < i < |refs| :: refs[i] == rest[i - 1];
    if Alone(tensors, done, refs) {
      assert Costs(tensors, refs[0]);
      forall i | 0 <= i < |rest|
        ensures rest[i].tensor != t
        ensures Costs(tensors, rest[i]) ==>
                  rest[i].tensor !in done && forall j | 0 <= j < |rest| && j != i :: rest[j].tensor != rest[i].tensor
      {
        assert rest[i] == refs[i + 1];
        if Costs(tensors, rest[i]) {
          assert forall j | 0 <= j < |rest| :: rest[j] == refs[j + 1];
        }
      }
    }
    if t !in done && t !in MarkedTensors(rest) && Alone(tensors, done, rest) {
      forall i | 0 <= i < |refs| && Costs(tensors, refs[i])
        ensures refs[i].tensor !in done && forall j | 0 <= j < |refs| && j != i :: refs[j].tensor != refs[i].tensor
      {
        assert forall j | 0 < j < |refs| :: refs[j] == rest[j - 1] && MarkedTensors(rest)[j - 1] != t;
        if i > 0 {
          assert Costs(tensors, rest[i - 1]);
        }
      }
    }
  }

  lemma AloneLater(tensors: seq<Tensor>, copy: Tensor, done: set<nat>, refs: seq<Mark>)
    requires InRange(tensors, refs)
    ensures InRange(tensors + [copy], refs)
    ensures Alone(tensors + [copy], done + {|tensors|}, refs) <==> Alone(tensors, done, refs)
  {
    assert forall i | 0 <= i < |refs| :: Costs(tensors + [copy], refs[i]) == Costs(tensors, refs[i]);
  }

  /** What pinning some references does to the size, the references elsewhere being `done`. */
  ghost predicate SizeAsExpected(tensors: seq<Tensor>, done: set<nat>, refs: seq<Mark>)
    requires InRange(tensors, refs)
  {
    var (after, ids) := PinRefs(tensors, refs);
    && Size(done + Ids(MarkedTensors(refs)), tensors) <= Size(done + Ids(ids), after)
    && (Size(done + Ids(MarkedTensors(refs)), tensors) == Size(done + Ids(ids), after) <==> Alone(tensors, done, refs))
  }

  /** Pinning never makes the cache smaller, and keeps its size exactly when no replaced reference
      shared its tensor (or the tensor is empty). */
  lemma {:induction false} PinSizeExactly(tensors: seq<Tensor>, done: set<nat>, refs: seq<Mark>)
    requires InRange(tensors, refs) && forall k | k in done :: k < |tensors|
    ensures SizeAsExpected(tensors, done, refs)
    decreases |refs|
  {
    if |refs| > 0 {
      var rest := refs[1..];
      if Moves(tensors, refs[0]) {
        PinSizeExactly(WithCopy(tensors, refs[0]), done + {|tensors|}, rest);
        CopyFirst(tensors, done, refs);
      } else {
        PinSizeExactly(tensors, done + {refs[0].tensor}, rest);
        KeepFirst(tensors, done, refs);
      }
    }
  }

  lemma KeepFirst(tensors: seq<Tensor>, done: set<nat>, refs: seq<Mark>)
    requires |refs| > 0 && InRange(tensors, refs) && !Moves(tensors, refs[0])
    requires SizeAsExpected(tensors, done + {refs[0].tensor}, refs[1..])
    ensures SizeAsExpected(tensors, done, refs)
  {
    var t, rest := refs[0].tensor, refs[1..];
    var ids := PinRefs(tensors, refs).1;
    assert MarkedTensors(refs) == [t] + MarkedTensors(rest) && ids == [t] + ids[1..];
    assert done + {t} + Ids(MarkedTensors(rest)) == done + Ids(MarkedTensors(refs));
    assert done + {t} + Ids(ids[1..]) == done + Ids(ids);
    AloneStep(tensors, done, refs);
  }

  lemma CopyFirst(tensors: seq<Tensor>, done: set<nat>, refs: seq<Mark>)
    requires |refs| > 0 && InRange(tensors, refs) && Moves(tensors, refs[0])
    requires forall k | k in done :: k < |tensors|
    requires SizeAsExpected(WithCopy(tensors, refs[0]), done + {|tensors|}, refs[1..])
    ensures SizeAsExpected(tensors, done, refs)
  {
    var t, rest := refs[0].tensor, refs[1..];
    var others := done + Ids(MarkedTensors(rest));
    var ids := PinRefs(tensors, refs).1;
    assert MarkedTensors(refs) == [t] + MarkedTensors(rest) && ids == [|tensors|] + ids[1..];
    assert done + Ids(MarkedTensors(refs)) == others + {t};
    assert done + {|tensors|} + Ids(MarkedTensors(rest)) == others + {|tensors|};
    assert done + {|tensors|} + Ids(ids[1..]) == done + Ids(ids);
    CopyAdds(tensors, t, others);
    AloneLater(tensors, tensors[t].(pinned := true), done, rest);
    if tensors[t].bytes > 0 {
      AloneCopy(tensors, done, refs);
    } else {
      AloneStep(tensors, done, refs);
      NothingCosts(tensors, done, t, rest);
    }
  }

  /** An empty tensor's references cost nothing. */
  lemma NothingCosts(tensors: seq<Tensor>, done: set<nat>, t: nat, refs: seq<Mark>)
    requires InRange(tensors, refs) && t < |tensors| && tensors[t].bytes == 0
    ensures Alone(tensors, done + {t}, refs) <==> Alone(tensors, done, refs)
  {
    assert forall i | 0 <= i < |refs| && Costs(tensors, refs[i]) :: refs[i].tensor != t;
  }

  // ----- Pinning stored values

  /** The references of stored values, all of them chosen. */
  function Marked(refs: seq<nat>, chosen: bool): (r: seq<Mark>)
    ensures |r| == |refs| && forall k | 0 <= k < |refs| :: r[k] == Mark(refs[k], chosen)
  {
    if |refs| == 0 then [] else [Mark(refs[0], chosen)] + Marked(refs[1..], chosen)
  }

  lemma {:induction false} RefsInRange(s: Stored, h: Heap)
    requires StoredIn(s, h)
    ensures forall k | 0 <= k < |Refs(s)| :: h.Has(Refs(s)[k])
    decreases s
  {
    if s.Nested? {
      AllRefsInRange(s.items, h);
    }
  }

  lemma {:induction false} AllRefsInRange(ss: seq<Stored>, h: Heap)
    requires AllStoredIn(ss, h)
    ensures forall k | 0 <= k < |AllRefs(ss)| :: h.Has(AllRefs(ss)[k])
    decreases ss
  {
    if |ss| > 0 {
      RefsInRange(ss[0], h);
      AllRefsInRange(ss[1..], h);
    }
  }

  lemma {:induction false} PinRefsConcat(tensors: seq<Tensor>, a: seq<Mark>, b: seq<Mark>)
    requires InRange(tensors, a) && InRange(tensors, b)
    ensures InRange(tensors, a + b)
    ensures var (middle, first) := PinRefs(tensors, a);
            InRange(middle, b) && PinRefs(tensors, a + b) == (PinRefs(middle, b).0, first + PinRefs(middle, b).1)
    decreases |a|
  {
    var (middle, first) := PinRefs(tensors, a);
    if |a| == 0 {
      assert a + b == b;
      assert [] + PinRefs(middle, b).1 == PinRefs(middle, b).1;
    } else {
      assert (a + b)[0] == a[0] && (a + b)[1..] == a[1..] + b;
      var tensors' := WithCopy(tensors, a[0]);
      PinRefsConcat(tensors', a[1..], b);
      Prepended(first[0], PinRefs(tensors', a[1..]).1, PinRefs(middle, b).1);
    }
  }

  lemma Prepended(x: nat, a: seq<nat>, b: seq<nat>)
    ensures [x] + (a + b) == [x] + a + b
  {
  }

  lemma PinOne(tensors: seq<Tensor>, t: nat)
    requires t < |tensors|
    ensures PinRefs(tensors, Marked([t], true)) ==
            if Pinnable(tensors[t]) then (tensors + [tensors[t].(pinned := true)], [|tensors|]) else (tensors, [t])
  {
    var marks := Marked([t], true);
    assert marks == [Mark(t, true)] && marks[1..] == [];
    assert [t] + [] == [t] && [|tensors|] + [] == [|tensors|];
  }

  /** Pinning a stored value pins its references one by one. */
  lemma {:induction false} PinIsPinRefs(h: Heap, s: Stored)
    requires h.Valid() && StoredIn(s, h)
    ensures InRange(h.tensors, Marked(Refs(s), true))
    ensures var (after, pinned) := Pin(h, s);
            PinRefs(h.tensors, Marked(Refs(s), true)) == (after.tensors, Refs(pinned))
    decreases s
  {
    RefsInRange(s, h);
    match s
    case Held(t, _) =>
      PinOne(h.tensors, t);
    case Nested(_, items) => PinAllIsPinRefs(h, items);
    case Kept(_) =>
  }

  lemma MarkedConcat(a: seq<nat>, b: seq<nat>, chosen: bool)
    ensures Marked(a + b, chosen) == Marked(a, chosen) + Marked(b, chosen)
  {
  }

  lemma {:induction false} PinAllIsPinRefs(h: Heap, ss: seq<Stored>)
    requires h.Valid() && AllStoredIn(ss, h)
    ensures InRange(h.tensors, Marked(AllRefs(ss), true))
    ensures var (after, pinned) := PinAll(h, ss);
            PinRefs(h.tensors, Marked(AllRefs(ss), true)) == (after.tensors, AllRefs(pinned))
    decreases ss
  {
    AllRefsInRange(ss, h);
    if |ss| > 0 {
      var (middle, first) := Pin(h, ss[0]);
      AllStoredStay(ss[1..], h, middle);
      PinIsPinRefs(h, ss[0]);
      PinAllIsPinRefs(middle, ss[1..]);
      AllRefsInRange(ss[1..], h);
      MarkedConcat(Refs(ss[0]), AllRefs(ss[1..]), true);
      PinRefsConcat(h.tensors, Marked(Refs(ss[0]), true), Marked(AllRefs(ss[1..]), true));
    }
  }
}
