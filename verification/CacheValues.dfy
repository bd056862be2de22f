/** What the intermediates cache stores: values with their tensors moved to the offload device, and
    what a fetch makes of them.

    Tensors are objects of an append-only heap: a tensor's data never changes once it is there, and
    two references are the same tensor when they are the same index. */
module CacheValues {
  import opened Prelude

  datatype Device = Cpu | Accelerator(index: nat)

  datatype Tensor = Tensor(data: seq<real>, device: Device, pinned: bool, bytes: nat)

  /** `memo` is the class-level map from offloaded tensors to their copies. */
  datatype Heap = Heap(tensors: seq<Tensor>, memo: map<nat, nat>)
  {
    predicate Has(t: nat) { t < |tensors| }

    ghost predicate Valid() {
      forall t | t in memo ::
        && Has(t) && Has(memo[t])
        && tensors[memo[t]].data == tensors[t].data
        && tensors[memo[t]].bytes == tensors[t].bytes
    }

    function New(tensor: Tensor): Heap { Heap(tensors + [tensor], memo) }
  }

  datatype Primitive = Primitive(text: string, size: nat)

  /** The containers that are walked; a dataclass is its name and its fields. */
  datatype Shape = ListOf | TupleOf | DictOf(keys: seq<string>) | DataclassOf(name: string, fields: seq<string>)

  datatype Value = Leaf(tensor: nat) | Group(shape: Shape, items: seq<Value>) | Plain(p: Primitive)

  /** An offloaded tensor and the device to onload it to. */
  datatype Stored = Held(tensor: nat, device: Device) | Nested(shape: Shape, items: seq<Stored>) | Kept(p: Primitive)

  /** A value as its user sees it: data and devices, not identities. */
  datatype Seen = Data(data: seq<real>, device: Device) | Whole(shape: Shape, items: seq<Seen>) | Same(p: Primitive)

  // ----- References into the heap

  predicate ValueIn(v: Value, h: Heap)
    decreases v
  {
    match v
    case Leaf(t) => h.Has(t)
    case Group(_, items) => ValuesIn(items, h)
    case Plain(_) => true
  }

  predicate ValuesIn(vs: seq<Value>, h: Heap)
    decreases vs
  {
    |vs| == 0 || (ValueIn(vs[0], h) && ValuesIn(vs[1..], h))
  }

  predicate StoredIn(s: Stored, h: Heap)
    decreases s
  {
    match s
    case Held(t, _) => h.Has(t)
    case Nested(_, items) => AllStoredIn(items, h)
    case Kept(_) => true
  }

  predicate AllStoredIn(ss: seq<Stored>, h: Heap)
    decreases ss
  {
    |ss| == 0 || (StoredIn(ss[0], h) && AllStoredIn(ss[1..], h))
  }

  // ----- Seeing values

  function See(v: Value, h: Heap): Seen
    requires ValueIn(v, h)
    decreases v
  {
    match v
    case Leaf(t) => Data(h.tensors[t].data, h.tensors[t].device)
    case Group(shape, items) => Whole(shape, SeeAll(items, h))
    case Plain(p) => Same(p)
  }

  function SeeAll(vs: seq<Value>, h: Heap): seq<Seen>
    requires ValuesIn(vs, h)
    decreases vs
  {
    if |vs| == 0 then [] else [See(vs[0], h)] + SeeAll(vs[1..], h)
  }

  /** The same value with its tensors on another device. */
  function Moved(s: Seen, device: Option<Device>): Seen
    decreases s
  {
    match s
    case Data(data, own) => Data(data, if device.Some? then device.value else own)
    case Whole(shape, items) => Whole(shape, MovedAll(items, device))
    case Same(p) => Same(p)
  }

  function MovedAll(ss: seq<Seen>, device: Option<Device>): seq<Seen>
    decreases ss
  {
    if |ss| == 0 then [] else [Moved(ss[0], device)] + MovedAll(ss[1..], device)
  }

  function Onload(s: Stored, h: Heap): Seen
    requires StoredIn(s, h)
    decreases s
  {
    match s
    case Held(t, device) => Data(h.tensors[t].data, device)
    case Nested(shape, items) => Whole(shape, OnloadAll(items, h))
    case Kept(p) => Same(p)
  }

  function OnloadAll(ss: seq<Stored>, h: Heap): seq<Seen>
    requires AllStoredIn(ss, h)
    decreases ss
  {
    if |ss| == 0 then [] else [Onload(ss[0], h)] + OnloadAll(ss[1..], h)
  }

  // ----- Offloading

  /** `tensor.to(device)` is the tensor itself when there is nothing to do. */
  predicate Stays(t: Tensor, device: Option<Device>) {
    device.None? || t.device == device.value
  }

  /** The heap afterwards, and the offloaded tensor. */
  function OffloadTensor(h: Heap, t: nat, device: Option<Device>): (r: (Heap, nat))
    requires h.Valid() && h.Has(t)
    ensures r.0.Valid() && r.0.Has(r.1) && r.0.Has(t) && h.tensors <= r.0.tensors
    ensures r.0.tensors[r.1].data == h.tensors[t].data
  {
    if t in h.memo then (h, h.memo[t])
    else if Stays(h.tensors[t], device) then (h, t)
    else
      var copy := h.tensors[t].(device := device.value, pinned := false);
      (Heap(h.tensors + [copy], h.memo[t := |h.tensors|]), |h.tensors|)
  }

  function Offload(h: Heap, v: Value, device: Option<Device>, onload: Option<Device>): (r: (Heap, Stored))
    requires h.Valid() && ValueIn(v, h)
    ensures r.0.Valid() && StoredIn(r.1, r.0) && h.tensors <= r.0.tensors
    decreases v
  {
    match v
    case Leaf(t) =>
      var (after, offloaded) := OffloadTensor(h, t, device);
      (after, Held(offloaded, if onload.Some? then onload.value else h.tensors[t].device))
    case Group(shape, items) =>
      var (after, stored) := OffloadAll(h, items, device, onload);
      (after, Nested(shape, stored))
    case Plain(p) => (h, Kept(p))
  }

  function OffloadAll(h: Heap, vs: seq<Value>, device: Option<Device>, onload: Option<Device>): (r: (Heap, seq<Stored>))
    requires h.Valid() && ValuesIn(vs, h)
    ensures r.0.Valid() && AllStoredIn(r.1, r.0) && h.tensors <= r.0.tensors && |r.1| == |vs|
    decreases vs
  {
    if |vs| == 0 then (h, [])
    else
      var (middle, first) := Offload(h, vs[0], device, onload);
      ValuesStay(vs[1..], h, middle);
      var (after, rest) := OffloadAll(middle, vs[1..], device, onload);
      StoredStays(first, middle, after);
      (after, [first] + rest)
  }

  // ----- A growing heap

  lemma {:induction false} ValueStays(v: Value, h: Heap, h': Heap)
    requires ValueIn(v, h) && h.tensors <= h'.tensors
    ensures ValueIn(v, h') && See(v, h') == See(v, h)
    decreases v
  {
    if v.Group? {
      ValuesStay(v.items, h, h');
    }
  }

  lemma {:induction false} ValuesStay(vs: seq<Value>, h: Heap, h': Heap)
    requires ValuesIn(vs, h) && h.tensors <= h'.tensors
    ensures ValuesIn(vs, h') && SeeAll(vs, h') == SeeAll(vs, h)
    decreases vs
  {
    if |vs| > 0 {
      ValueStays(vs[0], h, h');
      ValuesStay(vs[1..], h, h');
    }
  }

  lemma {:induction false} StoredStays(s: Stored, h: Heap, h': Heap)
    requires StoredIn(s, h) && h.tensors <= h'.tensors
    ensures StoredIn(s, h') && Onload(s, h') == Onload(s, h)
    decreases s
  {
    if s.Nested? {
      AllStoredStay(s.items, h, h');
    }
  }

  lemma {:induction false} AllStoredStay(ss: seq<Stored>, h: Heap, h': Heap)
    requires AllStoredIn(ss, h) && h.tensors <= h'.tensors
    ensures AllStoredIn(ss, h') && OnloadAll(ss, h') == OnloadAll(ss, h)
    decreases ss
  {
    if |ss| > 0 {
      StoredStays(ss[0], h, h');
      AllStoredStay(ss[1..], h, h');
    }
  }

  // ----- Round trip

  /** Onloading an offloaded value gives the value, on its own devices or on the onload device. */
  lemma {:induction false} RoundTrip(h: Heap, v: Value, device: Option<Device>, onload: Option<Device>)
    requires h.Valid() && ValueIn(v, h)
    ensures var (after, stored) := Offload(h, v, device, onload);
            Onload(stored, after) == Moved(See(v, h), onload)
    decreases v
  {
    if v.Group? {
      RoundTrips(h, v.items, device, onload);
    }
  }

  lemma {:induction false} RoundTrips(h: Heap, vs: seq<Value>, device: Option<Device>, onload: Option<Device>)
    requires h.Valid() && ValuesIn(vs, h)
    ensures var (after, stored) := OffloadAll(h, vs, device, onload);
            OnloadAll(stored, after) == MovedAll(SeeAll(vs, h), onload)
    decreases vs
  {
    if |vs| > 0 {
      var (middle, first) := Offload(h, vs[0], device, onload);
      ValuesStay(vs[1..], h, middle);
      var (after, rest) := OffloadAll(middle, vs[1..], device, onload);
      StoredStays(first, middle, after);
      RoundTrip(h, vs[0], device, onload);
      RoundTrips(middle, vs[1..], device, onload);
    }
  }

  /** Without an onload device nothing moves. */
  lemma {:induction false} MovedNowhere(s: Seen)
    ensures Moved(s, None) == s
    decreases s
  {
    if s.Whole? {
      MovedAllNowhere(s.items);
    }
  }

  lemma {:induction false} MovedAllNowhere(ss: seq<Seen>)
    ensures MovedAll(ss, None) == ss
    decreases ss
  {
    if |ss| > 0 {
      MovedNowhere(ss[0]);
      MovedAllNowhere(ss[1..]);
      assert [ss[0]] + ss[1..] == ss;
    }
  }

  // ----- Pinning

  predicate Pinnable(t: Tensor) {
    t.device == Cpu && !t.pinned
  }

  /** Every tensor that can be pinned is replaced by a pinned copy of its own. */
  function Pin(h: Heap, s: Stored): (r: (Heap, Stored))
    requires h.Valid() && StoredIn(s, h)
    ensures r.0.Valid() && StoredIn(r.1, r.0) && h.tensors <= r.0.tensors
    decreases s
  {
    match s
    case Held(t, device) =>
      if Pinnable(h.tensors[t]) then (h.New(h.tensors[t].(pinned := true)), Held(|h.tensors|, device)) else (h, s)
    case Nested(shape, items) =>
      var (after, pinned) := PinAll(h, items);
      (after, Nested(shape, pinned))
    case Kept(_) => (h, s)
  }

  function PinAll(h: Heap, ss: seq<Stored>): (r: (Heap, seq<Stored>))
    requires h.Valid() && AllStoredIn(ss, h)
    ensures r.0.Valid() && AllStoredIn(r.1, r.0) && h.tensors <= r.0.tensors && |r.1| == |ss|
    decreases ss
  {
    if |ss| == 0 then (h, [])
    else
      var (middle, first) := Pin(h, ss[0]);
      AllStoredStay(ss[1..], h, middle);
      var (after, rest) := PinAll(middle, ss[1..]);
      StoredStays(first, middle, after);
      (after, [first] + rest)
  }

  /** Pinning does not change what a fetch returns. */
  lemma {:induction false} PinKeepsOnload(h: Heap, s: Stored)
    requires h.Valid() && StoredIn(s, h)
    ensures var (after, pinned) := Pin(h, s); Onload(pinned, after) == Onload(s, h)
    decreases s
  {
    if s.Nested? {
      PinAllKeepsOnload(h, s.items);
    }
  }

  lemma {:induction false} PinAllKeepsOnload(h: Heap, ss: seq<Stored>)
    requires h.Valid() && AllStoredIn(ss, h)
    ensures var (after, pinned) := PinAll(h, ss); OnloadAll(pinned, after) == OnloadAll(ss, h)
    decreases ss
  {
    if |ss| > 0 {
      var (middle, first) := Pin(h, ss[0]);
      AllStoredStay(ss[1..], h, middle);
      var (after, rest) := PinAll(middle, ss[1..]);
      StoredStays(first, middle, after);
      PinKeepsOnload(h, ss[0]);
      PinAllKeepsOnload(middle, ss[1..]);
    }
  }
}
