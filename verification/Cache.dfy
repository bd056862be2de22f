/** The intermediates cache: one dictionary of stored values for every batch. */
module Cache {
  import opened Prelude
  import opened CacheValues
  import opened CacheSharing

  // ----- Dictionaries, in insertion order

  datatype Dict<V> = Dict(keys: seq<string>, items: seq<V>)
  {
    predicate Proper() { |keys| == |items| }
  }

  function IndexOf(keys: seq<string>, key: string): (r: nat)
    ensures r <= |keys| && (r < |keys| ==> keys[r] == key)
  {
    if |keys| == 0 || keys[0] == key then 0 else 1 + IndexOf(keys[1..], key)
  }

  function Put<V>(d: Dict<V>, key: string, item: V): (r: Dict<V>)
    requires d.Proper()
    ensures r.Proper()
  {
    var i := IndexOf(d.keys, key);
    if i < |d.keys| then Dict(d.keys, d.items[i := item]) else Dict(d.keys + [key], d.items + [item])
  }

  /** `d.update(e)` */
  function PutAll<V>(d: Dict<V>, keys: seq<string>, items: seq<V>): (r: Dict<V>)
    requires d.Proper() && |keys| == |items|
    ensures r.Proper()
    decreases |keys|
  {
    if |keys| == 0 then d else PutAll(Put(d, keys[0], items[0]), keys[1..], items[1..])
  }

  function Remove<V>(d: Dict<V>, key: string): (r: Dict<V>)
    requires d.Proper()
    ensures r.Proper()
  {
    var i := IndexOf(d.keys, key);
    if i < |d.keys| then Dict(d.keys[..i] + d.keys[i + 1..], d.items[..i] + d.items[i + 1..]) else d
  }

  /** `del d[key]` for one key after the other; the first missing key stops it. */
  function RemoveAll<V>(d: Dict<V>, keys: seq<string>): (r: (Dict<V>, bool))
    requires d.Proper()
    ensures r.0.Proper()
    decreases |keys|
  {
    if |keys| == 0 then (d, true)
    else if IndexOf(d.keys, keys[0]) == |d.keys| then (d, false)
    else RemoveAll(Remove(d, keys[0]), keys[1..])
  }

  type Names = Option<seq<string>>

  predicate Selected(names: Names, key: string) {
    names.None? || key in names.value
  }

  function Select<V>(d: Dict<V>, names: Names): (r: Dict<V>)
    requires d.Proper()
    ensures r.Proper()
    decreases |d.keys|
  {
    if |d.keys| == 0 then Dict([], [])
    else
      var rest := Select(Dict(d.keys[1..], d.items[1..]), names);
      if Selected(names, d.keys[0]) then Dict([d.keys[0]] + rest.keys, [d.items[0]] + rest.items) else rest
  }

  /** What the dictionary has for a key. */
  function Lookup<V>(d: Dict<V>, key: string): Option<V>
    requires d.Proper()
  {
    var i := IndexOf(d.keys, key);
    if i < |d.keys| then Some(d.items[i]) else None
  }

  /** A selection has the selected keys and no others, with what the dictionary has for them. */
  lemma {:induction false} SelectLooksUp<V>(d: Dict<V>, names: Names, key: string)
    requires d.Proper()
    ensures Lookup(Select(d, names), key) == if Selected(names, key) then Lookup(d, key) else None
    decreases |d.keys|
  {
    if |d.keys| > 0 {
      var tail := Dict(d.keys[1..], d.items[1..]);
      SelectLooksUp(tail, names, key);
      if Selected(names, d.keys[0]) {
        var r := Select(d, names);
        assert r.keys[1..] == Select(tail, names).keys && r.items[1..] == Select(tail, names).items;
      }
    }
  }

  lemma {:induction false} IndexOfAppended(keys: seq<string>, last: string, key: string)
    ensures IndexOf(keys + [last], key) ==
            if IndexOf(keys, key) < |keys| then IndexOf(keys, key)
            else if key == last then |keys| else |keys| + 1
  {
    if |keys| > 0 {
      assert (keys + [last])[1..] == keys[1..] + [last];
      IndexOfAppended(keys[1..], last, key);
    } else {
      assert keys + [last] == [last] && [last][1..] == [];
    }
  }

  lemma PutLooksUp<V>(d: Dict<V>, key: string, item: V, k: string)
    requires d.Proper()
    ensures Lookup(Put(d, key, item), k) == if k == key then Some(item) else Lookup(d, k)
  {
    IndexOfAppended(d.keys, key, k);
  }

  predicate Distinct(keys: seq<string>) {
    forall i, j | 0 <= i < j < |keys| :: keys[i] != keys[j]
  }

  lemma PutKeepsDistinct<V>(d: Dict<V>, key: string, item: V)
    requires d.Proper() && Distinct(d.keys)
    ensures Distinct(Put(d, key, item).keys)
  {
    InExactly(d.keys, key);
  }

  lemma {:induction false} PutAllKeepsDistinct<V>(d: Dict<V>, keys: seq<string>, items: seq<V>)
    requires d.Proper() && |keys| == |items| && Distinct(d.keys)
    ensures Distinct(PutAll(d, keys, items).keys)
    decreases |keys|
  {
    if |keys| > 0 {
      PutKeepsDistinct(d, keys[0], items[0]);
      PutAllKeepsDistinct(Put(d, keys[0], items[0]), keys[1..], items[1..]);
    }
  }

  /** The position of a key among distinct keys. */
  lemma IndexOfAt(keys: seq<string>, i: nat)
    requires Distinct(keys) && i < |keys|
    ensures IndexOf(keys, keys[i]) == i
  {
    InExactly(keys, keys[i]);
    assert keys[IndexOf(keys, keys[i])] == keys[i];
  }

  lemma LookupAt<V>(d: Dict<V>, i: nat)
    requires d.Proper() && Distinct(d.keys) && i < |d.keys|
    ensures Lookup(d, d.keys[i]) == Some(d.items[i])
  {
    IndexOfAt(d.keys, i);
  }

  lemma LookupMissing<V>(d: Dict<V>, key: string)
    requires d.Proper()
    ensures Lookup(d, key).None? <==> key !in d.keys
  {
    InExactly(d.keys, key);
  }

  /** Where the entries are after a deletion. */
  lemma RemovedAt<V>(d: Dict<V>, key: string, j: nat)
    requires d.Proper() && key in d.keys && j < |d.keys| - 1
    ensures var i, r := IndexOf(d.keys, key), Remove(d, key);
            && i < |d.keys| && |r.keys| == |d.keys| - 1
            && var at := if j < i then j else j + 1; r.keys[j] == d.keys[at] && r.items[j] == d.items[at]
  {
    InExactly(d.keys, key);
  }

  lemma RemoveHas<V>(d: Dict<V>, key: string, k: string)
    requires d.Proper() && Distinct(d.keys)
    ensures k in Remove(d, key).keys <==> k in d.keys && k != key
  {
    var i, r := IndexOf(d.keys, key), Remove(d, key);
    InExactly(d.keys, key);
    if j :| 0 <= j < |r.keys| && r.keys[j] == k && i < |d.keys| {
      RemovedAt(d, key, j);
    }
    if j :| 0 <= j < |d.keys| && d.keys[j] == k && i < |d.keys| && j != i {
      RemovedAt(d, key, if j < i then j else j - 1);
    }
  }

  lemma RemoveKeepsDistinct<V>(d: Dict<V>, key: string)
    requires d.Proper() && Distinct(d.keys)
    ensures Distinct(Remove(d, key).keys)
  {
    var r := Remove(d, key);
    InExactly(d.keys, key);
    forall x, y | 0 <= x < y < |r.keys|
      ensures r.keys[x] != r.keys[y]
    {
      if key in d.keys {
        RemovedAt(d, key, x);
        RemovedAt(d, key, y);
      }
    }
  }

  /** Deleting a key takes it away, and nothing else. */
  lemma RemoveLooksUp<V>(d: Dict<V>, key: string, k: string)
    requires d.Proper() && Distinct(d.keys)
    ensures Lookup(Remove(d, key), k) == if k == key then None else Lookup(d, k)
  {
    var i, r := IndexOf(d.keys, key), Remove(d, key);
    InExactly(d.keys, key);
    RemoveHas(d, key, k);
    LookupMissing(d, k);
    LookupMissing(r, k);
    if k in r.keys && i < |d.keys| {
      var j :| 0 <= j < |r.keys| && r.keys[j] == k;
      RemovedAt(d, key, j);
      RemoveKeepsDistinct(d, key);
      LookupAt(r, j);
      LookupAt(d, if j < i then j else j + 1);
    }
  }

  /** The first `n` names can be deleted one after the other, and the next one, if any, cannot. */
  ghost predicate DeletesFirst(keys: seq<string>, names: seq<string>, n: nat) {
    && n <= |names|
    && (forall m | 0 <= m < n :: names[m] in keys && names[m] !in names[..m])
    && (n < |names| ==> names[n] !in keys || names[n] in names[..n])
  }

  lemma DeletableNames(keys: seq<string>, names: seq<string>) returns (n: nat)
    ensures DeletesFirst(keys, names, n)
  {
    n := 0;
    while n < |names| && names[n] in keys && names[n] !in names[..n]
      invariant n <= |names| && forall m | 0 <= m < n :: names[m] in keys && names[m] !in names[..m]
    {
      n := n + 1;
    }
  }

  lemma DeletesOneLess(keys: seq<string>, keys': seq<string>, names: seq<string>, n: nat)
    requires n > 0 && DeletesFirst(keys, names, n)
    requires forall k :: k in keys' <==> k in keys && k != names[0]
    ensures names[0] in keys && DeletesFirst(keys', names[1..], n - 1)
  {
    forall j | 0 < j < |names|
      ensures names[j] in names[..j] <==> names[j] == names[0] || names[1..][j - 1] in names[1..][..j - 1]
    {
      assert names[..j] == [names[0]] + names[1..][..j - 1];
    }
    assert names[0] in keys;
    forall m | 0 <= m < n - 1
      ensures names[1..][m] in keys' && names[1..][m] !in names[1..][..m]
    {
      assert names[m + 1] in keys && names[m + 1] !in names[..m + 1];
    }
  }

  lemma FirstDeletes<V>(d: Dict<V>, names: seq<string>, n: nat)
    requires d.Proper() && Distinct(d.keys) && n > 0 && DeletesFirst(d.keys, names, n)
    ensures IndexOf(d.keys, names[0]) < |d.keys| && Distinct(Remove(d, names[0]).keys)
    ensures DeletesFirst(Remove(d, names[0]).keys, names[1..], n - 1)
  {
    var r := Remove(d, names[0]);
    forall x
      ensures x in r.keys <==> x in d.keys && x != names[0]
    {
      RemoveHas(d, names[0], x);
    }
    RemoveKeepsDistinct(d, names[0]);
    DeletesOneLess(d.keys, r.keys, names, n);
    InExactly(d.keys, names[0]);
  }

  lemma FirstOrLater(names: seq<string>, n: nat, k: string)
    requires 0 < n <= |names|
    ensures k in names[..n] <==> k == names[0] || k in names[1..][..n - 1]
  {
    assert names[..n] == [names[0]] + names[1..][..n - 1];
  }

  /** Deleting names takes away those before the first missing one, and nothing else. */
  lemma {:induction false} RemoveAllLooksUp<V>(d: Dict<V>, names: seq<string>, n: nat, k: string)
    requires d.Proper() && Distinct(d.keys) && DeletesFirst(d.keys, names, n)
    ensures Distinct(RemoveAll(d, names).0.keys) && (RemoveAll(d, names).1 <==> n == |names|)
    ensures Lookup(RemoveAll(d, names).0, k) == if k in names[..n] then None else Lookup(d, k)
    decreases |names|
  {
    if n > 0 {
      var r := Remove(d, names[0]);
      FirstDeletes(d, names, n);
      RemoveAllLooksUp(r, names[1..], n - 1, k);
      RemoveLooksUp(d, names[0], k);
      FirstOrLater(names, n, k);
    } else if |names| > 0 {
      InExactly(d.keys, names[0]);
    }
  }

  /** The names are gone up to the first one that is not there, and nothing else has changed. */
  ghost predicate Deleted<V>(before: Dict<V>, after: Dict<V>, names: seq<string>, found: bool)
    requires before.Proper() && after.Proper()
  {
    exists n: nat ::
      && DeletesFirst(before.keys, names, n) && (found <==> n == |names|)
      && forall key: string :: Lookup(after, key) == if key in names[..n] then None else Lookup(before, key)
  }

  lemma RemoveAllDeletes<V>(d: Dict<V>, names: seq<string>)
    requires d.Proper() && Distinct(d.keys)
    ensures var (after, found) := RemoveAll(d, names); Distinct(after.keys) && Deleted(d, after, names, found)
  {
    var (after, found) := RemoveAll(d, names);
    var n := DeletableNames(d.keys, names);
    RemoveAllLooksUp(d, names, n, "");
    forall key: string
      ensures Lookup(after, key) == if key in names[..n] then None else Lookup(d, key)
    {
      RemoveAllLooksUp(d, names, n, key);
    }
  }

  lemma {:induction false} InExactly(keys: seq<string>, key: string)
    ensures key in keys <==> IndexOf(keys, key) < |keys|
  {
    if |keys| > 0 {
      InExactly(keys[1..], key);
      assert key in keys <==> key == keys[0] || key in keys[1..];
    }
  }

  /** After an update the dictionary has the new entries, and the old ones for all other keys. */
  lemma {:induction false} PutAllLooksUp<V>(d: Dict<V>, keys: seq<string>, items: seq<V>, k: string)
    requires d.Proper() && |keys| == |items| && Distinct(keys)
    ensures Lookup(PutAll(d, keys, items), k) ==
            if k in keys then Lookup(Dict(keys, items), k) else Lookup(d, k)
    decreases |keys|
  {
    InExactly(keys, k);
    if |keys| > 0 {
      PutLooksUp(d, keys[0], items[0], k);
      PutAllLooksUp(Put(d, keys[0], items[0]), keys[1..], items[1..], k);
      InExactly(keys[1..], k);
      if k == keys[0] {
        assert k !in keys[1..];
      }
    }
  }

  /** The first `n` entries. */
  function Taken<V>(d: Dict<V>, n: nat): (r: Dict<V>)
    requires d.Proper() && n <= |d.keys|
    ensures r.Proper()
  {
    Dict(d.keys[..n], d.items[..n])
  }

  lemma {:induction false} SelectOneMore<V>(d: Dict<V>, names: Names, n: nat)
    requires d.Proper() && n < |d.keys|
    ensures Select(Taken(d, n + 1), names) ==
            var r := Select(Taken(d, n), names);
            if Selected(names, d.keys[n]) then Dict(r.keys + [d.keys[n]], r.items + [d.items[n]]) else r
    decreases n
  {
    var rest := Dict(d.keys[1..], d.items[1..]);
    if n == 0 {
      assert Taken(d, 1).keys[1..] == [] && Taken(d, 1).items[1..] == [];
      assert [d.keys[0]] + [] == [] + [d.keys[0]] && [d.items[0]] + [] == [] + [d.items[0]];
    } else {
      SelectOneMore(rest, names, n - 1);
      assert Taken(d, n + 1).keys[1..] == Taken(rest, n).keys && Taken(d, n + 1).items[1..] == Taken(rest, n).items;
      assert Taken(d, n).keys[1..] == Taken(rest, n - 1).keys && Taken(d, n).items[1..] == Taken(rest, n - 1).items;
    }
  }

  lemma TakenAll<V>(d: Dict<V>)
    requires d.Proper()
    ensures Taken(d, |d.keys|) == d
  {
    assert d.keys[..|d.keys|] == d.keys && d.items[..|d.items|] == d.items;
  }

  // ----- Batches

  type Batch = Dict<Stored>

  predicate BatchIn(b: Batch, h: Heap) {
    b.Proper() && AllStoredIn(b.items, h)
  }

  function OnloadBatch(b: Batch, h: Heap): (r: Dict<Seen>)
    requires BatchIn(b, h)
    ensures r.Proper()
  {
    OnloadAllLength(b.items, h);
    Dict(b.keys, OnloadAll(b.items, h))
  }

  lemma {:induction false} OnloadAllLength(ss: seq<Stored>, h: Heap)
    requires AllStoredIn(ss, h)
    ensures |OnloadAll(ss, h)| == |ss|
  {
    if |ss| > 0 {
      OnloadAllLength(ss[1..], h);
    }
  }

  /** What `fetch` returns for a batch. */
  function FetchOf(b: Batch, h: Heap, names: Names): Dict<Seen>
    requires BatchIn(b, h)
  {
    Select(OnloadBatch(b, h), names)
  }

  // ----- Seeing through updates

  lemma {:induction false} OnloadAllAt(ss: seq<Stored>, h: Heap, i: nat)
    requires AllStoredIn(ss, h) && i < |ss|
    ensures |OnloadAll(ss, h)| == |ss| && StoredIn(ss[i], h) && OnloadAll(ss, h)[i] == Onload(ss[i], h)
  {
    OnloadAllLength(ss, h);
    if i > 0 {
      OnloadAllAt(ss[1..], h, i - 1);
    }
  }

  lemma {:induction false} OnloadAllConcat(a: seq<Stored>, b: seq<Stored>, h: Heap)
    requires AllStoredIn(a, h) && AllStoredIn(b, h)
    ensures AllStoredIn(a + b, h) && OnloadAll(a + b, h) == OnloadAll(a, h) + OnloadAll(b, h)
  {
    if |a| == 0 {
      assert a + b == b;
    } else {
      assert (a + b)[0] == a[0] && (a + b)[1..] == a[1..] + b;
      OnloadAllConcat(a[1..], b, h);
    }
  }

  lemma {:induction false} OnloadAllParts(ss: seq<Stored>, h: Heap, i: nat)
    requires AllStoredIn(ss, h) && i <= |ss|
    ensures AllStoredIn(ss[..i], h) && AllStoredIn(ss[i..], h)
  {
    if i > 0 {
      OnloadAllParts(ss[1..], h, i - 1);
      assert ss[..i][0] == ss[0] && ss[..i][1..] == ss[1..][..i - 1];
    }
  }

  lemma OnloadOne(s: Stored, h: Heap)
    requires StoredIn(s, h)
    ensures AllStoredIn([s], h) && OnloadAll([s], h) == [Onload(s, h)]
  {
    assert [s][1..] == [];
  }

  lemma {:induction false} UpdateSeen(ss: seq<Stored>, i: nat, s: Stored, h: Heap)
    requires AllStoredIn(ss, h) && i < |ss| && StoredIn(s, h)
    ensures AllStoredIn(ss[i := s], h) && |OnloadAll(ss, h)| == |ss|
    ensures OnloadAll(ss[i := s], h) == OnloadAll(ss, h)[i := Onload(s, h)]
  {
    OnloadAllLength(ss, h);
    if i == 0 {
      assert ss[0 := s][1..] == ss[1..];
    } else {
      UpdateSeen(ss[1..], i - 1, s, h);
      assert ss[i := s][1..] == ss[1..][i - 1 := s];
    }
  }

  lemma PutSeen(b: Batch, key: string, s: Stored, h: Heap)
    requires BatchIn(b, h) && StoredIn(s, h)
    ensures BatchIn(Put(b, key, s), h)
    ensures OnloadBatch(Put(b, key, s), h) == Put(OnloadBatch(b, h), key, Onload(s, h))
  {
    var i := IndexOf(b.keys, key);
    if i < |b.keys| {
      UpdateSeen(b.items, i, s, h);
    } else {
      OnloadOne(s, h);
      OnloadAllConcat(b.items, [s], h);
    }
  }

  lemma {:induction false} PutAllSeen(b: Batch, keys: seq<string>, ss: seq<Stored>, h: Heap)
    requires BatchIn(b, h) && |keys| == |ss| && AllStoredIn(ss, h)
    ensures BatchIn(PutAll(b, keys, ss), h) && |OnloadAll(ss, h)| == |ss|
    ensures OnloadBatch(PutAll(b, keys, ss), h) == PutAll(OnloadBatch(b, h), keys, OnloadAll(ss, h))
    decreases |keys|
  {
    OnloadAllLength(ss, h);
    if |keys| > 0 {
      PutSeen(b, keys[0], ss[0], h);
      PutAllSeen(Put(b, keys[0], ss[0]), keys[1..], ss[1..], h);
    }
  }

  lemma {:induction false} DropSeen(ss: seq<Stored>, i: nat, h: Heap)
    requires AllStoredIn(ss, h) && i < |ss|
    ensures AllStoredIn(ss[..i] + ss[i + 1..], h) && |OnloadAll(ss, h)| == |ss|
    ensures OnloadAll(ss[..i] + ss[i + 1..], h) == OnloadAll(ss, h)[..i] + OnloadAll(ss, h)[i + 1..]
  {
    OnloadAllLength(ss, h);
    var dropped := ss[..i] + ss[i + 1..];
    if i == 0 {
      assert dropped == ss[1..];
    } else {
      DropSeen(ss[1..], i - 1, h);
      assert dropped[0] == ss[0] && dropped[1..] == ss[1..][..i - 1] + ss[1..][i..];
    }
  }

  lemma RemoveSeen(b: Batch, key: string, h: Heap)
    requires BatchIn(b, h)
    ensures BatchIn(Remove(b, key), h)
    ensures OnloadBatch(Remove(b, key), h) == Remove(OnloadBatch(b, h), key)
  {
    var i := IndexOf(b.keys, key);
    if i < |b.keys| {
      DropSeen(b.items, i, h);
    }
  }

  lemma {:induction false} RemoveAllSeen(b: Batch, keys: seq<string>, h: Heap)
    requires BatchIn(b, h)
    ensures BatchIn(RemoveAll(b, keys).0, h)
    ensures var seen := RemoveAll(OnloadBatch(b, h), keys);
            OnloadBatch(RemoveAll(b, keys).0, h) == seen.0 && RemoveAll(b, keys).1 == seen.1
    decreases |keys|
  {
    if |keys| > 0 && IndexOf(b.keys, keys[0]) < |b.keys| {
      RemoveSeen(b, keys[0], h);
      RemoveAllSeen(Remove(b, keys[0]), keys[1..], h);
    }
  }

  lemma BatchStays(b: Batch, h: Heap, h': Heap)
    requires BatchIn(b, h) && h.tensors <= h'.tensors
    ensures BatchIn(b, h') && OnloadBatch(b, h') == OnloadBatch(b, h)
  {
    AllStoredStay(b.items, h, h');
  }

  // ----- Pinning some of a batch

  /** Item `i`, pinned if its key is selected. */
  function PinAt(h: Heap, b: Batch, names: Names, i: nat): (r: (Heap, Stored))
    requires h.Valid() && BatchIn(b, h) && i < |b.items|
    ensures r.0.Valid() && StoredIn(r.1, r.0) && h.tensors <= r.0.tensors && BatchIn(b, r.0)
  {
    OnloadAllAt(b.items, h, i);
    var r := if Selected(names, b.keys[i]) then Pin(h, b.items[i]) else (h, b.items[i]);
    BatchStays(b, h, r.0);
    r
  }

  /** The items from `i` on, those of the selected keys pinned. */
  function PinFrom(h: Heap, b: Batch, names: Names, i: nat): (r: (Heap, seq<Stored>))
    requires h.Valid() && BatchIn(b, h) && i <= |b.items|
    ensures r.0.Valid() && h.tensors <= r.0.tensors && |r.1| == |b.items| - i && AllStoredIn(r.1, r.0)
    decreases |b.items| - i
  {
    if i == |b.items| then (h, [])
    else
      var (middle, first) := PinAt(h, b, names, i);
      var (after, rest) := PinFrom(middle, b, names, i + 1);
      StoredStays(first, middle, after);
      (after, [first] + rest)
  }

  lemma {:induction false} PinFromSeen(h: Heap, b: Batch, names: Names, i: nat)
    requires h.Valid() && BatchIn(b, h) && i <= |b.items|
    ensures var (after, pinned) := PinFrom(h, b, names, i);
            AllStoredIn(b.items[i..], h) && OnloadAll(pinned, after) == OnloadAll(b.items[i..], h)
    decreases |b.items| - i
  {
    OnloadAllParts(b.items, h, i);
    if i < |b.items| {
      OnloadAllAt(b.items, h, i);
      var (middle, first) := PinAt(h, b, names, i);
      var (after, rest) := PinFrom(middle, b, names, i + 1);
      StoredStays(first, middle, after);
      PinKeepsOnload(h, b.items[i]);
      PinFromSeen(middle, b, names, i + 1);
      OnloadAllParts(b.items, h, i + 1);
      AllStoredStay(b.items[i + 1..], h, middle);
      assert b.items[i..][1..] == b.items[i + 1..];
    }
  }

  /** No tensor of a stored value is on the CPU without being pinned. */
  ghost predicate AllPinned(s: Stored, h: Heap) {
    forall t | t in Refs(s) :: h.Has(t) && (h.tensors[t].device != Cpu || h.tensors[t].pinned)
  }

  ghost predicate EachPinned(ss: seq<Stored>, h: Heap) {
    forall t | t in AllRefs(ss) :: h.Has(t) && (h.tensors[t].device != Cpu || h.tensors[t].pinned)
  }

  lemma {:induction false} PinPins(h: Heap, s: Stored)
    requires h.Valid() && StoredIn(s, h)
    ensures var (after, pinned) := Pin(h, s); AllPinned(pinned, after)
    decreases s
  {
    if s.Nested? {
      PinAllPins(h, s.items);
    }
  }

  lemma {:induction false} PinAllPins(h: Heap, ss: seq<Stored>)
    requires h.Valid() && AllStoredIn(ss, h)
    ensures var (after, pinned) := PinAll(h, ss); EachPinned(pinned, after)
    decreases ss
  {
    if |ss| > 0 {
      var (middle, first) := Pin(h, ss[0]);
      AllStoredStay(ss[1..], h, middle);
      PinPins(h, ss[0]);
      PinAllPins(middle, ss[1..]);
    }
  }

  /** The entries of the selected keys are pinned, and the others are the same references as before. */
  ghost predicate PinnedSelected(keys: seq<string>, before: seq<Stored>, after: seq<Stored>, names: Names,
                                 i: nat, h: Heap)
    requires |keys| == |before| && i <= |keys|
  {
    && |after| == |before| - i
    && forall j: nat | j < |after| ::
         if names == None || keys[i + j] in names.value then AllPinned(after[j], h) else after[j] == before[i + j]
  }

  lemma {:induction false} PinFromPins(h: Heap, b: Batch, names: Names, i: nat)
    requires h.Valid() && BatchIn(b, h) && i <= |b.items|
    ensures var (after, pinned) := PinFrom(h, b, names, i);
            PinnedSelected(b.keys, b.items, pinned, names, i, after)
    decreases |b.items| - i
  {
    if i < |b.items| {
      OnloadAllAt(b.items, h, i);
      PinPins(h, b.items[i]);
      var (middle, first) := PinAt(h, b, names, i);
      var (after, rest) := PinFrom(middle, b, names, i + 1);
      PinFromPins(middle, b, names, i + 1);
      var pinned := [first] + rest;
      forall j: nat | j < |pinned|
        ensures if names == None || b.keys[i + j] in names.value then AllPinned(pinned[j], after)
                else pinned[j] == b.items[i + j]
      {
        if j > 0 {
          assert pinned[j] == rest[j - 1] && b.keys[i + j] == b.keys[i + 1 + (j - 1)];
        }
      }
    }
  }

  // ----- The cache

  /** What a loop has produced, in front of what is still to come. */
  function With(done: seq<Stored>, rest: (Heap, seq<Stored>)): (Heap, seq<Stored>) {
    (rest.0, done + rest.1)
  }

  lemma WithOne(done: seq<Stored>, first: Stored, rest: (Heap, seq<Stored>))
    ensures With(done, (rest.0, [first] + rest.1)) == With(done + [first], rest)
  {
    assert done + ([first] + rest.1) == done + [first] + rest.1;
  }

  lemma WithNone(done: seq<Stored>, h: Heap)
    ensures With(done, (h, [])) == (h, done)
  {
    assert done + [] == done;
  }

  lemma WithAll(r: (Heap, seq<Stored>))
    ensures With([], r) == r
  {
    assert [] + r.1 == r.1;
  }

  /** The tensors and the memo, which every cache shares. */
  class Tensors {
    var heap: Heap

    constructor (heap: Heap)
      ensures this.heap == heap
    {
      this.heap := heap;
    }
  }

  method OffloadValue(v: Value, shared: Tensors, device: Option<Device>, onload: Option<Device>) returns (s: Stored)
    requires shared.heap.Valid() && ValueIn(v, shared.heap)
    modifies shared
    ensures (shared.heap, s) == Offload(old(shared.heap), v, device, onload)
    decreases v, 0
  {
    match v {
      case Leaf(t) =>
        var heap := shared.heap;
        var offloaded := t;
        if t in heap.memo {
          offloaded := heap.memo[t];
        } else if !Stays(heap.tensors[t], device) {
          offloaded := |heap.tensors|;
          var copy := heap.tensors[t].(device := device.value, pinned := false);
          shared.heap := Heap(heap.tensors + [copy], heap.memo[t := offloaded]);
        }
        s := Held(offloaded, if onload.Some? then onload.value else heap.tensors[t].device);
      case Group(shape, items) =>
        var stored := OffloadItems(items, shared, device, onload);
        s := Nested(shape, stored);
      case Plain(p) =>
        s := Kept(p);
    }
  }

  method OffloadItems(items: seq<Value>, shared: Tensors, device: Option<Device>, onload: Option<Device>)
    returns (stored: seq<Stored>)
    requires shared.heap.Valid() && ValuesIn(items, shared.heap)
    modifies shared
    ensures (shared.heap, stored) == OffloadAll(old(shared.heap), items, device, onload)
    decreases items, 0
  {
    stored := [];
    ghost var whole := OffloadAll(shared.heap, items, device, onload);
    WithAll(whole);
    assert items[0..] == items;
    for i := 0 to |items|
      invariant shared.heap.Valid() && ValuesIn(items[i..], shared.heap)
      invariant With(stored, OffloadAll(shared.heap, items[i..], device, onload)) == whole
    {
      ghost var before := shared.heap;
      assert items[i..][0] == items[i] && items[i..][1..] == items[i + 1..];
      var first := OffloadValue(items[i], shared, device, onload);
      ValuesStay(items[i + 1..], before, shared.heap);
      WithOne(stored, first, OffloadAll(shared.heap, items[i + 1..], device, onload));
      stored := stored + [first];
    }
    assert items[|items|..] == [];
    WithNone(stored, shared.heap);
  }

  /** Pin one stored value. */
  method PinIntermediate(s: Stored, shared: Tensors) returns (pinned: Stored)
    requires shared.heap.Valid() && StoredIn(s, shared.heap)
    modifies shared
    ensures (shared.heap, pinned) == Pin(old(shared.heap), s)
    decreases s, 0
  {
    pinned := s;
    match s {
      case Held(t, device) =>
        var tensor := shared.heap.tensors[t];
        if Pinnable(tensor) {
          pinned := Held(|shared.heap.tensors|, device);
          shared.heap := shared.heap.New(tensor.(pinned := true));
        }
      case Nested(shape, items) =>
        var all := PinItems(items, shared);
        pinned := Nested(shape, all);
      case Kept(_) =>
    }
  }

  method PinItems(items: seq<Stored>, shared: Tensors) returns (pinned: seq<Stored>)
    requires shared.heap.Valid() && AllStoredIn(items, shared.heap)
    modifies shared
    ensures (shared.heap, pinned) == PinAll(old(shared.heap), items)
    decreases items, 0
  {
    pinned := [];
    ghost var whole := PinAll(shared.heap, items);
    WithAll(whole);
    assert items[0..] == items;
    for i := 0 to |items|
      invariant shared.heap.Valid() && AllStoredIn(items[i..], shared.heap)
      invariant With(pinned, PinAll(shared.heap, items[i..])) == whole
    {
      ghost var before := shared.heap;
      assert items[i..][0] == items[i] && items[i..][1..] == items[i + 1..];
      var first := PinIntermediate(items[i], shared);
      AllStoredStay(items[i + 1..], before, shared.heap);
      WithOne(pinned, first, PinAll(shared.heap, items[i + 1..]));
      pinned := pinned + [first];
    }
    assert items[|items|..] == [];
    WithNone(pinned, shared.heap);
  }

  /** The loop over the entries of a batch: those with a selected key are pinned. */
  method PinBatch(b: Batch, names: Names, shared: Tensors) returns (items: seq<Stored>)
    requires shared.heap.Valid() && BatchIn(b, shared.heap)
    modifies shared
    ensures (shared.heap, items) == PinFrom(old(shared.heap), b, names, 0)
  {
    items := [];
    ghost var whole := PinFrom(shared.heap, b, names, 0);
    WithAll(whole);
    for i := 0 to |b.items|
      invariant shared.heap.Valid() && BatchIn(b, shared.heap)
      invariant With(items, PinFrom(shared.heap, b, names, i)) == whole
    {
      ghost var step := PinAt(shared.heap, b, names, i);
      OnloadAllAt(b.items, shared.heap, i);
      var item := b.items[i];
      if Selected(names, b.keys[i]) {
        item := PinIntermediate(item, shared);
      }
      assert (shared.heap, item) == step;
      WithOne(items, item, PinFrom(shared.heap, b, names, i + 1));
      items := items + [item];
    }
    WithNone(items, shared.heap);
  }

  /** The loop over the names to delete. */
  method RemoveKeys(b: Batch, names: seq<string>) returns (batch: Batch, found: bool)
    requires b.Proper()
    ensures (batch, found) == RemoveAll(b, names)
  {
    batch := b;
    assert names[0..] == names;
    for k := 0 to |names|
      invariant batch.Proper() && RemoveAll(b, names) == RemoveAll(batch, names[k..])
    {
      assert names[k..][0] == names[k] && names[k..][1..] == names[k + 1..];
      if IndexOf(batch.keys, names[k]) == |batch.keys| {
        return batch, false;
      }
      batch := Remove(batch, names[k]);
    }
    assert names[|names|..] == [];
    found := true;
  }

  class IntermediatesCache {
    const shared: Tensors
    const offloadDevice: Option<Device>
    var batches: seq<Batch>

    ghost predicate Valid()
      reads this, shared
    {
      && shared.heap.Valid()
      && forall i | 0 <= i < |batches| :: BatchIn(batches[i], shared.heap) && Distinct(batches[i].keys)
    }

    ghost function Seen(i: nat): Dict<CacheValues.Seen>
      requires Valid() && i < |batches|
      reads this, shared
    {
      OnloadBatch(batches[i], shared.heap)
    }

    constructor Empty(numBatches: nat, shared: Tensors, offloadDevice: Option<Device>)
      requires shared.heap.Valid()
      ensures Valid() && |batches| == numBatches && this.shared == shared && this.offloadDevice == offloadDevice
      ensures forall i | 0 <= i < numBatches :: Seen(i) == Dict([], [])
    {
      this.shared := shared;
      this.offloadDevice := offloadDevice;
      batches := seq(numBatches, i => Dict([], []));
    }

    /** The entries of the batch that are selected, onloaded, and no others. */
    method Fetch(i: nat, names: Names) returns (fetched: Dict<CacheValues.Seen>)
      requires Valid() && i < |batches|
      ensures fetched == Select(Seen(i), names) && fetched.Proper()
      ensures forall key: string ::
                Lookup(fetched, key) == if names == None || key in names.value then Lookup(Seen(i), key) else None
    {
      fetched := Dict([], []);
      var b := batches[i];
      OnloadAllLength(b.items, shared.heap);
      assert Taken(Seen(i), 0) == Dict([], []);
      for k := 0 to |b.keys|
        invariant fetched == Select(Taken(Seen(i), k), names)
      {
        OnloadAllAt(b.items, shared.heap, k);
        SelectOneMore(Seen(i), names, k);
        if Selected(names, b.keys[k]) {
          fetched := Dict(fetched.keys + [b.keys[k]], fetched.items + [Onload(b.items[k], shared.heap)]);
        }
      }
      TakenAll(Seen(i));
      forall key: string
        ensures Lookup(fetched, key) == if Selected(names, key) then Lookup(Seen(i), key) else None
      {
        SelectLooksUp(Seen(i), names, key);
      }
    }

    /** The batch is updated with the values as they are seen; every other batch is fetched as before. */
    method Update(i: nat, keys: seq<string>, values: seq<Value>)
      requires Valid() && i < |batches| && |keys| == |values| && ValuesIn(values, shared.heap)
      modifies this`batches, shared
      ensures Valid() && |batches| == old(|batches|)
      ensures |SeeAll(values, old(shared.heap))| == |values|
      ensures Seen(i) == PutAll(old(Seen(i)), keys, SeeAll(values, old(shared.heap)))
      ensures forall k | 0 <= k < |batches| && k != i :: Seen(k) == old(Seen(k))
    {
      ghost var before := shared.heap;
      var stored := OffloadItems(values, shared, offloadDevice, None);
      RoundTrips(before, values, offloadDevice, None);
      MovedAllNowhere(SeeAll(values, before));
      OnloadAllLength(stored, shared.heap);
      forall k | 0 <= k < |batches|
        ensures BatchIn(batches[k], shared.heap)
        ensures OnloadBatch(batches[k], shared.heap) == OnloadBatch(batches[k], before)
      {
        BatchStays(batches[k], before, shared.heap);
      }
      PutAllSeen(batches[i], keys, stored, shared.heap);
      PutAllKeepsDistinct(batches[i], keys, stored);
      batches := batches[i := PutAll(batches[i], keys, stored)];
    }

    /** Removes the named entries; a name that is not there stops it. */
    method Delete(i: nat, consumed: Names) returns (found: bool)
      requires Valid() && i < |batches|
      modifies this`batches
      ensures Valid() && |batches| == old(|batches|)
      ensures var names := if consumed.Some? then consumed.value else old(batches[i]).keys;
              && (Seen(i), found) == RemoveAll(old(Seen(i)), names)
              && Deleted(old(Seen(i)), Seen(i), names, found)
      ensures forall k | 0 <= k < |batches| && k != i :: Seen(k) == old(Seen(k))
    {
      var names := if consumed.Some? then consumed.value else batches[i].keys;
      RemoveAllSeen(batches[i], names, shared.heap);
      RemoveAllDeletes(Seen(i), names);
      RemoveAllDeletes(batches[i], names);
      var batch;
      batch, found := RemoveKeys(batches[i], names);
      batches := batches[i := batch];
    }

    method Append(keys: seq<string>, values: seq<Value>)
      requires Valid() && |keys| == |values| && ValuesIn(values, shared.heap)
      modifies this`batches, shared
      ensures Valid() && |batches| == old(|batches|) + 1
      ensures |SeeAll(values, old(shared.heap))| == |values|
      ensures Seen(old(|batches|)) == PutAll(Dict([], []), keys, SeeAll(values, old(shared.heap)))
      ensures forall k | 0 <= k < old(|batches|) :: Seen(k) == old(Seen(k))
    {
      ghost var before := batches;
      batches := batches + [Dict([], [])];
      assert forall k | 0 <= k < |before| :: batches[k] == before[k];
      Update(|batches| - 1, keys, values);
    }

    /** Pinning changes no fetch. */
    method PinMemory(i: nat, names: Names)
      requires Valid() && i < |batches|
      modifies this`batches, shared
      ensures Valid() && |batches| == old(|batches|)
      ensures forall k | 0 <= k < |batches| :: Seen(k) == old(Seen(k))
      ensures (shared.heap, batches[i].items) == PinFrom(old(shared.heap), old(batches[i]), names, 0)
      ensures PinnedSelected(old(batches[i].keys), old(batches[i].items), batches[i].items, names, 0, shared.heap)
    {
      PinFromPins(shared.heap, batches[i], names, 0);
      ghost var before := shared.heap;
      ghost var whole := PinFrom(before, batches[i], names, 0);
      PinFromSeen(before, batches[i], names, 0);
      assert batches[i].items[0..] == batches[i].items;
      forall k | 0 <= k < |batches|
        ensures BatchIn(batches[k], whole.0) && OnloadBatch(batches[k], whole.0) == OnloadBatch(batches[k], before)
      {
        BatchStays(batches[k], before, whole.0);
      }
      var pinned := PinBatch(batches[i], names, shared);
      batches := batches[i := Dict(batches[i].keys, pinned)];
    }

    /** The bytes on every device: each tensor of the cache counts once, however many batches share it. */
    method Size() returns (sizes: map<Device, nat>)
      requires Valid()
      ensures Counted(sizes, Ids(CacheRefs(batches)), CachePrimitives(batches), shared.heap)
    {
      sizes := map[];
      var memo: set<nat> := {};
      assert batches[..0] == [] && Ids([]) == {};
      forall d ensures Entry(sizes, d) == Bytes({}, shared.heap.tensors, |shared.heap.tensors|, d) {
        NoBytes(shared.heap.tensors, |shared.heap.tensors|, d);
      }
      for i := 0 to |batches|
        invariant memo == Ids(CacheRefs(batches[..i]))
        invariant Counted(sizes, memo, CachePrimitives(batches[..i]), shared.heap)
      {
        CachePrefix(batches, i);
        IdsConcat(CacheRefs(batches[..i]), AllRefs(batches[i].items));
        sizes, memo := SizeItems(batches[i].items, shared.heap, sizes, memo, CachePrimitives(batches[..i]));
      }
      assert batches[..|batches|] == batches;
    }
  }

  lemma {:induction false} NoBytes(tensors: seq<Tensor>, n: nat, device: Device)
    requires n <= |tensors|
    ensures Bytes({}, tensors, n, device) == 0
  {
    if n > 0 {
      NoBytes(tensors, n - 1, device);
    }
  }

  function CacheRefs(batches: seq<Batch>): seq<nat> {
    if |batches| == 0 then [] else AllRefs(batches[0].items) + CacheRefs(batches[1..])
  }

  function CachePrimitives(batches: seq<Batch>): nat {
    if |batches| == 0 then 0 else AllPrimitives(batches[0].items) + CachePrimitives(batches[1..])
  }

  lemma {:induction false} CachePrefix(batches: seq<Batch>, i: nat)
    requires i < |batches|
    ensures CacheRefs(batches[..i + 1]) == CacheRefs(batches[..i]) + AllRefs(batches[i].items)
    ensures CachePrimitives(batches[..i + 1]) == CachePrimitives(batches[..i]) + AllPrimitives(batches[i].items)
  {
    if i == 0 {
      assert batches[..1][1..] == [] && batches[..0] == [];
      assert [] + AllRefs(batches[0].items) == AllRefs(batches[0].items) + [];
    } else {
      CachePrefix(batches[1..], i - 1);
      assert batches[..i + 1][1..] == batches[1..][..i] && batches[..i][1..] == batches[1..][..i - 1];
      assert batches[1..][i - 1] == batches[i];
    }
  }
}
