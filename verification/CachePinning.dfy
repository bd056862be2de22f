/** What pinning a batch does to the tensors it shares and to the size of the cache. */
module CachePinning {
  import opened Prelude
  import opened CacheValues
  import opened CacheSharing
  import opened Cache

  /** The references of a batch from item `i` on; those under a selected key are chosen. */
  function Marks(b: Batch, names: Names, i: nat): seq<Mark>
    requires b.Proper() && i <= |b.items|
    decreases |b.items| - i
  {
    if i == |b.items| then []
    else Marked(Refs(b.items[i]), Selected(names, b.keys[i])) + Marks(b, names, i + 1)
  }

  lemma {:induction false} NotChosen(tensors: seq<Tensor>, refs: seq<nat>)
    requires InRange(tensors, Marked(refs, false))
    ensures PinRefs(tensors, Marked(refs, false)) == (tensors, refs)
  {
    if |refs| > 0 {
      var marks := Marked(refs, false);
      assert marks[0] == Mark(refs[0], false) && marks[1..] == Marked(refs[1..], false);
      NotChosen(tensors, refs[1..]);
      assert [refs[0]] + refs[1..] == refs;
    }
  }

  lemma PinAtIsPinRefs(h: Heap, b: Batch, names: Names, i: nat)
    requires h.Valid() && BatchIn(b, h) && i < |b.items|
    ensures var marks := Marked(Refs(b.items[i]), Selected(names, b.keys[i]));
            InRange(h.tensors, marks)
            && PinRefs(h.tensors, marks) == (PinAt(h, b, names, i).0.tensors, Refs(PinAt(h, b, names, i).1))
  {
    OnloadAllAt(b.items, h, i);
    RefsInRange(b.items[i], h);
    if Selected(names, b.keys[i]) {
      PinIsPinRefs(h, b.items[i]);
    } else {
      NotChosen(h.tensors, Refs(b.items[i]));
    }
  }

  lemma InRangeLater(tensors: seq<Tensor>, more: seq<Tensor>, a: seq<Mark>, b: seq<Mark>)
    requires tensors <= more && InRange(tensors, a) && InRange(tensors, b)
    ensures InRange(more, b) && InRange(tensors, a + b)
  {
  }

  lemma {:induction false} MarksInRange(h: Heap, b: Batch, names: Names, i: nat)
    requires h.Valid() && BatchIn(b, h) && i <= |b.items|
    ensures InRange(h.tensors, Marks(b, names, i))
    decreases |b.items| - i
  {
    if i < |b.items| {
      OnloadAllAt(b.items, h, i);
      RefsInRange(b.items[i], h);
      MarksInRange(h, b, names, i + 1);
      InRangeLater(h.tensors, h.tensors, Marked(Refs(b.items[i]), Selected(names, b.keys[i])), Marks(b, names, i + 1));
    }
  }

  /** Pinning a batch pins its chosen references one by one. */
  lemma {:induction false} PinFromIsPinRefs(h: Heap, b: Batch, names: Names, i: nat)
    requires h.Valid() && BatchIn(b, h) && i <= |b.items|
    ensures InRange(h.tensors, Marks(b, names, i))
    ensures var (after, pinned) := PinFrom(h, b, names, i);
            PinRefs(h.tensors, Marks(b, names, i)) == (after.tensors, AllRefs(pinned))
    decreases |b.items| - i
  {
    MarksInRange(h, b, names, i);
    if i < |b.items| {
      var (middle, first) := PinAt(h, b, names, i);
      PinAtIsPinRefs(h, b, names, i);
      MarksInRange(h, b, names, i + 1);
      PinFromIsPinRefs(middle, b, names, i + 1);
      PinRefsConcat(h.tensors, Marked(Refs(b.items[i]), Selected(names, b.keys[i])), Marks(b, names, i + 1));
    }
  }

  lemma {:induction false} TensorsOfMarks(b: Batch, names: Names, i: nat)
    requires b.Proper() && i <= |b.items|
    ensures MarkedTensors(Marks(b, names, i)) == AllRefs(b.items[i..])
    decreases |b.items| - i
  {
    if i < |b.items| {
      TensorsOfMarks(b, names, i + 1);
      assert b.items[i..][0] == b.items[i] && b.items[i..][1..] == b.items[i + 1..];
      var here, rest := Marked(Refs(b.items[i]), Selected(names, b.keys[i])), Marks(b, names, i + 1);
      assert MarkedTensors(here + rest) == MarkedTensors(here) + MarkedTensors(rest);
      assert MarkedTensors(here) == Refs(b.items[i]);
    }
  }

  /** Pinning a batch keeps the size of the cache exactly when every non-empty tensor it pins is
      referred to once, in the batch and in the `others`; otherwise the cache grows. */
  lemma PinMemorySizeExactly(h: Heap, b: Batch, names: Names, others: set<nat>)
    requires h.Valid() && BatchIn(b, h) && forall k | k in others :: h.Has(k)
    ensures InRange(h.tensors, Marks(b, names, 0))
    ensures var (after, pinned) := PinFrom(h, b, names, 0);
            var before := Size(others + Ids(AllRefs(b.items)), h.tensors);
            var later := Size(others + Ids(AllRefs(pinned)), after.tensors);
            before <= later && (before == later <==> Alone(h.tensors, others, Marks(b, names, 0)))
  {
    PinFromIsPinRefs(h, b, names, 0);
    PinSizeExactly(h.tensors, others, Marks(b, names, 0));
    TensorsOfMarks(b, names, 0);
    assert b.items[0..] == b.items;
  }

  /** A tensor stored under two keys is stored twice once its batch is pinned. */
  lemma PinningCanGrow()
    ensures
      var h := Heap([Tensor([1.0], Cpu, false, 4)], map[]);
      var b := Dict(["a", "b"], [Held(0, Cpu), Held(0, Cpu)]);
      h.Valid() && BatchIn(b, h)
      && var (after, pinned) := PinFrom(h, b, None, 0);
         Size(Ids(AllRefs(b.items)), h.tensors) < Size(Ids(AllRefs(pinned)), after.tensors)
  {
    var h := Heap([Tensor([1.0], Cpu, false, 4)], map[]);
    var b := Dict(["a", "b"], [Held(0, Cpu), Held(0, Cpu)]);
    assert AllStoredIn(b.items, h) by {
      assert b.items[1..] == [Held(0, Cpu)] && b.items[1..][1..] == [];
    }
    PinMemorySizeExactly(h, b, None, {});
    var marks := Marks(b, None, 0);
    TwoMarks(b, marks);
    assert Costs(h.tensors, marks[0]) && marks[1].tensor == marks[0].tensor;
    assert {} + Ids(AllRefs(b.items)) == Ids(AllRefs(b.items));
    var refs := AllRefs(PinFrom(h, b, None, 0).1);
    assert {} + Ids(refs) == Ids(refs);
  }

  lemma TwoMarks(b: Batch, marks: seq<Mark>)
    requires b == Dict(["a", "b"], [Held(0, Cpu), Held(0, Cpu)]) && marks == Marks(b, None, 0)
    ensures marks == [Mark(0, true), Mark(0, true)]
  {
    assert Marked([0], true) == [Mark(0, true)];
    assert Marks(b, None, 2) == [];
    assert Marks(b, None, 1) == [Mark(0, true)];
  }
}
