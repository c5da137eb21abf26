/**
  Whole runs of the in-memory store while there is room (memory/memory.go): what a key holds stays, through
  any calls that neither set, delete nor bump it, until it expires; so it is answered again.
 */
module MemoryKept {
  import opened Common
  import opened BigEndian
  import A = Authority
  import L = Lru
  import opened MemoryTags
  import opened MemoryUse
  import opened MemoryRuns

  /** How many items, and how many bytes of them, a call can add; a bump stores its counter twice. */
  function EntriesOf(call: Call): nat {
    match call
    case GetCall(_) => 0
    case SetCall(_, _, _) => 1
    case DeleteCall(_) => 0
    case GetTaggedCall(_, ks, _, _) => |ks|
    case BumpCall(ks, _, _) => 2 * |ks|
  }

  function BytesOf(call: Call): nat {
    match call
    case GetCall(_) => 0
    case SetCall(key, value, _) => |key| + |value|
    case DeleteCall(_) => 0
    case GetTaggedCall(_, ks, _, _) => Size(ks)
    case BumpCall(ks, _, _) => 2 * Size(ks)
  }

  function EntriesOfAll(calls: seq<Timed>): nat {
    if calls == [] then 0 else EntriesOf(calls[0].call) + EntriesOfAll(calls[1..])
  }

  function BytesOfAll(calls: seq<Timed>): nat {
    if calls == [] then 0 else BytesOf(calls[0].call) + BytesOfAll(calls[1..])
  }

  /** `entries` more items of `bytes` in all fit. */
  predicate Fits(l: L.Lru, entries: nat, bytes: nat) {
    |l.items| + entries <= l.maxEntries && L.TotalBytes(l.items) + bytes <= l.maxBytes
  }

  /** `l'` holds under `k` what `l` does, and grew by at most so much. */
  ghost predicate Keeps(l: L.Lru, l': L.Lru, k: string, entries: nat, bytes: nat) {
    && L.Valid(l') && l'.maxEntries == l.maxEntries && l'.maxBytes == l.maxBytes
    && Find(l'.items, k) == Find(l.items, k)
    && |l'.items| <= |l.items| + entries && L.TotalBytes(l'.items) <= L.TotalBytes(l.items) + bytes
  }

  lemma KeepsOn(l: L.Lru, m: L.Lru, n: L.Lru, k: string, e1: nat, b1: nat, e2: nat, b2: nat)
    requires Keeps(l, m, k, e1, b1) && Keeps(m, n, k, e2, b2)
    ensures Keeps(l, n, k, e1 + e2, b1 + b2)
  {
  }

  /** The call leaves `k` alone: it does not write under it, nor reads it as a counter when it is none. */
  predicate LeavesAlone(t: Timed, k: string, item: L.Item) {
    && t.at < item.expires
    && match t.call
       case GetCall(_) => true
       case SetCall(key, _, _) => key != k
       case DeleteCall(key) => key != k
       case GetTaggedCall(_, ks, _, _) => k in ks ==> |item.value| == 8
       case BumpCall(ks, _, _) => k !in ks
  }

  lemma GetKeeps(l: L.Lru, key: string, now: int, k: string)
    requires L.Valid(l) && Find(l.items, k).Some? && now < Find(l.items, k).value.expires
    ensures Keeps(l, L.Get(l, key, now).1, k, 0, 0)
  {
    hide L.TotalBytes;
    L.GetValid(l, key, now);
    GetShrinks(l, key, now);
    if key == k {
      FindAt(L.Get(l, key, now).1.items, k, 0);
    } else {
      GetKeepsOthers(l, key, now, k);
    }
  }

  lemma DeleteKeeps(l: L.Lru, key: string, k: string)
    requires L.Valid(l) && key != k
    ensures Keeps(l, L.Delete(l, key), k, 0, 0)
  {
    hide L.TotalBytes, Find;
    L.DeleteValid(l, key);
    WithoutKeepsFound(l.items, key, k);
    L.BytesWithout(l.items, key);
  }

  lemma SetKeeps(l: L.Lru, item: L.Item, k: string)
    requires L.Valid(l) && item.key != k && Fits(l, 1, L.Cost(item))
    ensures Keeps(l, L.Set(l, item), k, 1, L.Cost(item))
  {
    hide L.TotalBytes, Find, L.DistinctKeys;
    L.SetValid(l, item);
    SetWithRoom(l, item, k);
  }

  /** A counter that is there is only looked at. */
  lemma CounterKeeps(l: L.Lru, key: string, ttl: int, now: int, draw: Option<nat>, k: string)
    requires L.Valid(l) && Fits(l, 1, |key| + 8) && Find(l.items, k).Some? && now < Find(l.items, k).value.expires
    requires key == k ==> |Find(l.items, k).value.value| == 8
    ensures Keeps(l, Counter(l, key, ttl, now, draw).1, k, 1, |key| + 8)
  {
    hide L.Get, L.Set, L.TotalBytes, L.DistinctKeys, Find;
    CounterValid(l, key, ttl, now, draw);
    CounterKeepsRoom(l, key, ttl, now, draw, k);
    if key == k {
      GetKeeps(l, k, now, k);
      GetFinds(l, k, now);
    }
  }

  lemma {:induction false} CountersKeep(l: L.Lru, ks: seq<string>, ttl: int, now: int, draws: seq<Option<nat>>,
                                        k: string)
    requires L.Valid(l) && |draws| == |ks| && Fits(l, |ks|, Size(ks))
    requires Find(l.items, k).Some? && now < Find(l.items, k).value.expires
    requires k in ks ==> |Find(l.items, k).value.value| == 8
    ensures Keeps(l, Counters(l, ks, ttl, now, draws).1, k, |ks|, Size(ks))
    decreases |ks|
  {
    hide Counter, L.TotalBytes, Find, L.DistinctKeys;
    if ks == [] {
    } else {
      var last := |ks| - 1;
      CountersKeep(l, ks[..last], ttl, now, draws[..last], k);
      var (gens, l1) := Counters(l, ks[..last], ttl, now, draws[..last]);
      if gens.Some? {
        CounterKeeps(l1, ks[last], ttl, now, draws[last], k);
        KeepsOn(l, l1, Counter(l1, ks[last], ttl, now, draws[last]).1, k, last, Size(ks[..last]), 1, |ks[last]| + 8);
      }
    }
  }

  lemma Restored(l: L.Lru, l1: L.Lru, key: string, g: nat, expires: int, k: string)
    requires Keeps(l, l1, k, 1, |key| + 8) && Fits(l, 2, 2 * (|key| + 8)) && key != k
    ensures Keeps(l, L.Set(l1, L.Item(key, PutUint64(g), expires)), k, 2, 2 * (|key| + 8))
  {
    hide L.Set, L.TotalBytes, Find, L.DistinctKeys, PutUint64;
    var item := L.Item(key, PutUint64(g), expires);
    SetKeeps(l1, item, k);
    KeepsOn(l, l1, L.Set(l1, item), k, 1, |key| + 8, 1, |key| + 8);
  }

  lemma AdvanceKeeps(l: L.Lru, key: string, ttl: int, now: int, draw: Option<nat>, k: string)
    requires L.Valid(l) && Fits(l, 2, 2 * (|key| + 8)) && key != k
    requires Find(l.items, k).Some? && now < Find(l.items, k).value.expires
    ensures Keeps(l, Advance(l, key, ttl, now, draw).1, k, 2, 2 * (|key| + 8))
  {
    hide Counter, L.Set, L.TotalBytes, Find, PutUint64, L.DistinctKeys, Keeps;
    CounterKeeps(l, key, ttl, now, draw, k);
    KeepsMore(l, Counter(l, key, ttl, now, draw).1, k, |key| + 8);
    var (g, l1) := Counter(l, key, ttl, now, draw);
    if g.Some? {
      Restored(l, l1, key, (g.value + 1) % TWO_TO_64, now + ttl, k);
    }
  }

  lemma KeepsMore(l: L.Lru, m: L.Lru, k: string, bytes: nat)
    requires Keeps(l, m, k, 1, bytes)
    ensures Keeps(l, m, k, 2, 2 * bytes)
  {
  }

  lemma {:induction false} AdvancesKeep(l: L.Lru, ks: seq<string>, ttl: int, now: int, draws: seq<Option<nat>>,
                                        k: string)
    requires L.Valid(l) && |draws| == |ks| && Fits(l, 2 * |ks|, 2 * Size(ks)) && k !in ks
    requires Find(l.items, k).Some? && now < Find(l.items, k).value.expires
    ensures Keeps(l, Advances(l, ks, ttl, now, draws).1, k, 2 * |ks|, 2 * Size(ks))
    decreases |ks|
  {
    hide Advance, L.TotalBytes, Find, L.DistinctKeys;
    if ks == [] {
    } else {
      var last := |ks| - 1;
      AdvancesKeep(l, ks[..last], ttl, now, draws[..last], k);
      var (ok, l1) := Advances(l, ks[..last], ttl, now, draws[..last]);
      if ok {
        AdvanceKeeps(l1, ks[last], ttl, now, draws[last], k);
        KeepsOn(l, l1, Advance(l1, ks[last], ttl, now, draws[last]).1, k, 2 * last, 2 * Size(ks[..last]), 2,
                2 * (|ks[last]| + 8));
      }
    }
  }

  lemma GetTaggedKeeps(l: L.Lru, key: string, ks: seq<string>, ttl: int, now: int, draws: seq<Option<nat>>, k: string)
    requires L.Valid(l) && |draws| == |ks| && Fits(l, |ks|, Size(ks))
    requires Find(l.items, k).Some? && now < Find(l.items, k).value.expires
    requires k in ks ==> |Find(l.items, k).value.value| == 8
    ensures Keeps(l, GetTagged(l, key, ks, ttl, now, draws).1, k, |ks|, Size(ks))
  {
    hide L.Get, Counters, Find, L.TotalBytes, L.DistinctKeys, Size;
    if ttl > 0 {
      GetKeeps(l, key, now, k);
      var l1 := L.Get(l, key, now).1;
      CountersKeep(l1, ks, ttl, now, draws, k);
      KeepsOn(l, l1, Counters(l1, ks, ttl, now, draws).1, k, 0, 0, |ks|, Size(ks));
    }
  }

  lemma BumpKeeps(l: L.Lru, ks: seq<string>, ttl: int, now: int, draws: seq<Option<nat>>, k: string)
    requires L.Valid(l) && |draws| == |ks| && Fits(l, 2 * |ks|, 2 * Size(ks)) && k !in ks
    requires Find(l.items, k).Some? && now < Find(l.items, k).value.expires
    ensures Keeps(l, Bump(l, ks, ttl, now, draws).1, k, 2 * |ks|, 2 * Size(ks))
  {
    hide Advances, Find, L.TotalBytes, L.DistinctKeys, Size;
    if ttl > 0 {
      AdvancesKeep(l, ks, ttl, now, draws, k);
    }
  }

  lemma CallKeeps(l: L.Lru, t: Timed, k: string, item: L.Item)
    requires L.Valid(l) && CallOk(t.call) && Find(l.items, k) == Some(item) && LeavesAlone(t, k, item)
    requires Fits(l, EntriesOf(t.call), BytesOf(t.call))
    ensures Keeps(l, Perform(l, t), k, EntriesOf(t.call), BytesOf(t.call))
  {
    hide L.Get, L.Set, L.Delete, GetTagged, Bump, Find, L.TotalBytes, L.DistinctKeys, Size;
    match t.call {
      case GetCall(key) => GetKeeps(l, key, t.at, k);
      case SetCall(key, value, ttl) =>
        if ttl > 0 {
          SetKeeps(l, L.Item(key, value, t.at + ttl), k);
        }
      case DeleteCall(key) => DeleteKeeps(l, key, k);
      case GetTaggedCall(key, ks, ttl, draws) => GetTaggedKeeps(l, key, ks, ttl, t.at, draws, k);
      case BumpCall(ks, ttl, draws) => BumpKeeps(l, ks, ttl, t.at, draws, k);
    }
  }

  /** While there is room, an item stays through any calls that leave its key alone, until it expires. */
  lemma {:induction false} ItemStays(l: L.Lru, calls: seq<Timed>, k: string, item: L.Item)
    requires L.Valid(l) && AllOk(calls) && Fits(l, EntriesOfAll(calls), BytesOfAll(calls))
    requires Find(l.items, k) == Some(item) && forall i :: 0 <= i < |calls| ==> LeavesAlone(calls[i], k, item)
    ensures L.Valid(Run(l, calls)) && Find(Run(l, calls).items, k) == Some(item)
    decreases |calls|
  {
    if calls == [] {
    } else {
      hide Perform, Find, LeavesAlone, L.TotalBytes, L.DistinctKeys, EntriesOf, BytesOf;
      CallKeeps(l, calls[0], k, item);
      ItemStays(Perform(l, calls[0]), calls[1..], k, item);
    }
  }

  /** While there is room, a value that was set is what a Get answers until it expires or its key is written again. */
  lemma {:induction false} SetIsAnswered(l: L.Lru, key: string, value: Bytes, ttl: int, at: int, calls: seq<Timed>,
                                         later: int)
    requires L.Valid(l) && ttl > 0 && later < at + ttl && AllOk(calls)
    requires Fits(l, 1 + EntriesOfAll(calls), |key| + |value| + BytesOfAll(calls))
    requires forall i :: 0 <= i < |calls| ==> LeavesAlone(calls[i], key, L.Item(key, value, at + ttl))
    ensures L.Get(Run(Perform(l, Timed(SetCall(key, value, ttl), at)), calls), key, later).0 == Some(value)
  {
    hide Run, LeavesAlone, Fits, L.Set, Find, L.Get, L.TotalBytes, L.DistinctKeys;
    var item := L.Item(key, value, at + ttl);
    SetIsFound(l, item, EntriesOfAll(calls), BytesOfAll(calls));
    ItemStays(L.Set(l, item), calls, key, item);
    FoundIsAnswered(Run(L.Set(l, item), calls), item, later);
  }

  lemma SetIsFound(l: L.Lru, item: L.Item, entries: nat, bytes: nat)
    requires L.Valid(l) && Fits(l, 1 + entries, L.Cost(item) + bytes)
    ensures L.Valid(L.Set(l, item)) && Find(L.Set(l, item).items, item.key) == Some(item)
    ensures Fits(L.Set(l, item), entries, bytes)
    ensures L.Set(l, item).maxEntries == l.maxEntries && L.Set(l, item).maxBytes == l.maxBytes
  {
    hide L.TotalBytes, L.Trimmed;
    L.SetValid(l, item);
    SetWithRoom(l, item, item.key);
    L.SetLeaves(l, item);
    FindAt(L.Set(l, item).items, item.key, 0);
  }

  lemma FoundIsAnswered(l: L.Lru, item: L.Item, now: int)
    requires Find(l.items, item.key) == Some(item) && now < item.expires
    ensures L.Get(l, item.key, now).0 == Some(item.value)
  {
  }

  /**
    While there is room, a counter that was answered once is answered again after any calls that neither
    bump it nor write under its key, until it expires; whatever else they read, create, set or delete.
   */
  lemma CounterIsAnsweredAgain(l: L.Lru, k: string, item: L.Item, calls: seq<Timed>, key: string, ttl: int, later: int,
                               draw: Option<nat>)
    requires L.Valid(l) && AllOk(calls) && Fits(l, EntriesOfAll(calls), BytesOfAll(calls))
    requires Find(l.items, k) == Some(item) && |item.value| == 8 && later < item.expires && key != k && ttl > 0
    requires forall i :: 0 <= i < |calls| ==> LeavesAlone(calls[i], k, item)
    ensures var r := GetTagged(Run(l, calls), key, [k], ttl, later, [draw]).0;
            r.Ok? && r.value.gens == [Uint64(item.value)]
  {
    hide Run, GetTagged, LeavesAlone;
    ItemStays(l, calls, k, item);
    assert Holds(Run(l, calls), k, Uint64(item.value), later);
    GetTaggedOfHeld(Run(l, calls), key, [k], ttl, later, [draw], [Uint64(item.value)]);
  }
}
