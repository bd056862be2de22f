/** Where offloaded tensors land. The memo of offloaded tensors belongs to the class, not to one
    cache, and does not record the device: a tensor that any cache has copied stays where that copy
    is, whatever device is asked for. */
module CacheDevices {
  import opened Prelude
  import opened CacheValues
  import opened CacheSharing

  /** The device a tensor is to be on: its own when there is no offload device. */
  function Wanted(h: Heap, t: nat, device: Option<Device>): Device
    requires h.Has(t)
  {
    if device.Some? then device.value else h.tensors[t].device
  }

  /** The memo has no copy of the tensor, or has one on the wanted device. */
  ghost predicate MemoAgrees(h: Heap, t: nat, device: Option<Device>)
    requires h.Valid() && h.Has(t)
  {
    t in h.memo ==> h.tensors[h.memo[t]].device == Wanted(h, t, device)
  }

  /** A tensor lands on the wanted device exactly when the memo agrees. */
  lemma TensorLandsExactly(h: Heap, t: nat, device: Option<Device>)
    requires h.Valid() && h.Has(t)
    ensures var (after, id) := OffloadTensor(h, t, device);
            after.tensors[id].device == Wanted(h, t, device) <==> MemoAgrees(h, t, device)
  {
  }

  // ----- What an offload adds to the memo

  /** New entries of the memo are new copies, on the device, of tensors that were elsewhere; old
      ones are as they were. */
  ghost predicate Remembers(h: Heap, h': Heap, device: Option<Device>) {
    && h'.Valid() && h.tensors <= h'.tensors
    && (forall t | t in h.memo :: t in h'.memo && h'.memo[t] == h.memo[t])
    && forall t | t in h'.memo && t !in h.memo ::
         && |h.tensors| <= h'.memo[t] && device.Some?
         && h'.tensors[h'.memo[t]].device == device.value && h'.tensors[t].device != device.value
  }

  lemma RemembersChain(h: Heap, h': Heap, h'': Heap, device: Option<Device>)
    requires Remembers(h, h', device) && Remembers(h', h'', device)
    ensures Remembers(h, h'', device)
  {
    forall t | t in h''.memo && t !in h.memo
      ensures && |h.tensors| <= h''.memo[t] && device.Some?
              && h''.tensors[h''.memo[t]].device == device.value && h''.tensors[t].device != device.value
    {
      if t in h'.memo {
        assert h''.memo[t] == h'.memo[t];
      }
    }
  }

  lemma {:induction false} OffloadRemembers(h: Heap, v: Value, device: Option<Device>, onload: Option<Device>)
    requires h.Valid() && ValueIn(v, h)
    ensures Remembers(h, Offload(h, v, device, onload).0, device)
    decreases v
  {
    if v.Group? {
      OffloadAllRemembers(h, v.items, device, onload);
    }
  }

  lemma {:induction false} OffloadAllRemembers(h: Heap, vs: seq<Value>, device: Option<Device>, onload: Option<Device>)
    requires h.Valid() && ValuesIn(vs, h)
    ensures Remembers(h, OffloadAll(h, vs, device, onload).0, device)
    decreases vs
  {
    if |vs| > 0 {
      var middle := Offload(h, vs[0], device, onload).0;
      ValuesStay(vs[1..], h, middle);
      OffloadRemembers(h, vs[0], device, onload);
      OffloadAllRemembers(middle, vs[1..], device, onload);
      RemembersChain(h, middle, OffloadAll(middle, vs[1..], device, onload).0, device);
    }
  }

  // ----- Leaves

  lemma {:induction false} LeavesIn(v: Value, h: Heap)
    requires ValueIn(v, h)
    ensures forall t | t in Leaves(v) :: h.Has(t)
    decreases v
  {
    if v.Group? {
      AllLeavesIn(v.items, h);
    }
  }

  lemma {:induction false} AllLeavesIn(vs: seq<Value>, h: Heap)
    requires ValuesIn(vs, h)
    ensures forall t | t in AllLeaves(vs) :: h.Has(t)
    decreases vs
  {
    if |vs| > 0 {
      LeavesIn(vs[0], h);
      AllLeavesIn(vs[1..], h);
    }
  }

  lemma {:induction false} LeavesSettled(v: Value, s: Stored, h: Heap, device: Option<Device>)
    requires ValueIn(v, h) && Placed(v, s, h, device)
    ensures forall t | t in Leaves(v) :: h.Has(t) && Settled(h, t, device)
    decreases v
  {
    if v.Group? {
      AllLeavesSettled(v.items, s.items, h, device);
    }
  }

  lemma {:induction false} AllLeavesSettled(vs: seq<Value>, ss: seq<Stored>, h: Heap, device: Option<Device>)
    requires ValuesIn(vs, h) && AllPlaced(vs, ss, h, device)
    ensures forall t | t in AllLeaves(vs) :: h.Has(t) && Settled(h, t, device)
    decreases vs
  {
    if |vs| > 0 {
      LeavesSettled(vs[0], ss[0], h, device);
      AllLeavesSettled(vs[1..], ss[1..], h, device);
    }
  }

  /** What an offload leaves at every leaf: the stored tensor is at the leaf's place, which is where
      the memo says, or the leaf itself when it is on the device already. */
  lemma Offloaded(h: Heap, v: Value, device: Option<Device>, onload: Option<Device>)
    requires h.Valid() && ValueIn(v, h)
    ensures var (after, stored) := Offload(h, v, device, onload);
            && Remembers(h, after, device) && ArePlaces(Refs(stored), Leaves(v), after)
            && forall t | t in Leaves(v) :: h.Has(t) && Settled(after, t, device)
  {
    var (after, stored) := Offload(h, v, device, onload);
    OffloadRemembers(h, v, device, onload);
    OffloadPlaces(h, v, device, onload);
    RefsArePlaces(v, stored, after, device);
    LeavesSettled(v, stored, after, device);
    LeavesIn(v, h);
  }

  lemma PlaceLandsExactly(h: Heap, h': Heap, t: nat, device: Option<Device>)
    requires h.Valid() && h.Has(t) && Remembers(h, h', device) && Settled(h', t, device)
    ensures Place(h', t) < |h'.tensors|
    ensures h'.tensors[Place(h', t)].device == Wanted(h, t, device) <==> MemoAgrees(h, t, device)
  {
    assert h'.tensors[t] == h.tensors[t];
    if t in h.memo {
      assert h'.tensors[h.memo[t]] == h.tensors[h.memo[t]];
    }
  }

  /** All tensors of a value land on the wanted device exactly when the memo agrees on all of them;
      with no offload device nothing is moved exactly when the memo has no copy elsewhere. */
  lemma LandsExactly(h: Heap, v: Value, device: Option<Device>, onload: Option<Device>)
    requires h.Valid() && ValueIn(v, h)
    ensures var (after, stored) := Offload(h, v, device, onload);
            && |Refs(stored)| == |Leaves(v)|
            && (forall i | 0 <= i < |Leaves(v)| :: h.Has(Leaves(v)[i]) && after.Has(Refs(stored)[i]))
            && ((forall i | 0 <= i < |Leaves(v)| ::
                   after.tensors[Refs(stored)[i]].device == Wanted(h, Leaves(v)[i], device))
                <==> forall i | 0 <= i < |Leaves(v)| :: MemoAgrees(h, Leaves(v)[i], device))
  {
    var (after, stored) := Offload(h, v, device, onload);
    Offloaded(h, v, device, onload);
    forall i | 0 <= i < |Leaves(v)|
      ensures h.Has(Leaves(v)[i]) && after.Has(Refs(stored)[i])
      ensures after.tensors[Refs(stored)[i]].device == Wanted(h, Leaves(v)[i], device)
              <==> MemoAgrees(h, Leaves(v)[i], device)
    {
      assert Leaves(v)[i] in Leaves(v);
      PlaceLandsExactly(h, after, Leaves(v)[i], device);
    }
  }

  /** A cache with no offload device gives back another cache's copy on the CPU. */
  lemma OffloadedAnyway(t: Tensor) returns (h: Heap)
    requires t.device != Cpu
    ensures h == Offload(Heap([t], map[]), Leaf(0), Some(Cpu), None).0
    ensures h.Valid() && h.tensors[0] == t
    ensures var (after, stored) := Offload(h, Leaf(0), None, None);
            stored.Held? && stored.tensor != 0 && after.tensors[stored.tensor].device == Cpu
  {
    h := Offload(Heap([t], map[]), Leaf(0), Some(Cpu), None).0;
  }

  // ----- Two offload devices

  /** The copy made for one device serves for the other, or no copy is needed for either. */
  ghost predicate SharesPlace(h: Heap, t: nat, device: Option<Device>, device': Option<Device>)
    requires h.Has(t)
  {
    t in h.memo || !Stays(h.tensors[t], device) || Stays(h.tensors[t], device')
  }

  lemma PlaceSharedExactly(h: Heap, h': Heap, h'': Heap, t: nat, device: Option<Device>, device': Option<Device>)
    requires h.Has(t) && Remembers(h, h', device) && Remembers(h', h'', device')
    requires Settled(h', t, device) && Settled(h'', t, device')
    ensures Place(h', t) == Place(h'', t) <==> SharesPlace(h, t, device, device')
  {
    assert h'.tensors[t] == h.tensors[t] && h''.tensors[t] == h.tensors[t];
  }

  /** A value offloaded to one device and then to another shares its tensors exactly when every one
      of them was in the memo, needed a copy for the first device, or needs none for the second. */
  lemma SharedAcrossDevices(h: Heap, v: Value, device: Option<Device>, device': Option<Device>, onload: Option<Device>)
    requires h.Valid() && ValueIn(v, h)
    ensures var (h', stored) := Offload(h, v, device, onload);
            && ValueIn(v, h') && |Refs(stored)| == |Leaves(v)| && (forall t | t in Leaves(v) :: h.Has(t))
            && (Refs(Offload(h', v, device', onload).1) == Refs(stored)
                <==> forall i | 0 <= i < |Leaves(v)| :: SharesPlace(h, Leaves(v)[i], device, device'))
  {
    var (h', stored) := Offload(h, v, device, onload);
    Offloaded(h, v, device, onload);
    ValueStays(v, h, h');
    var (h'', stored') := Offload(h', v, device', onload);
    Offloaded(h', v, device', onload);
    forall i | 0 <= i < |Leaves(v)|
      ensures Refs(stored)[i] == Refs(stored')[i] <==> SharesPlace(h, Leaves(v)[i], device, device')
    {
      assert Leaves(v)[i] in Leaves(v);
      PlaceSharedExactly(h, h', h'', Leaves(v)[i], device, device');
    }
  }
}
