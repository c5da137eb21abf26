/**
  What the in-memory store's counters must still answer (memory/memory.go): a counter that was answered
  is answered again until it expires, and a bump adds one to what was answered before it.
 */
module MemoryUse {
  import opened Common
  import opened BigEndian
  import A = Authority
  import L = Lru
  import U = LruUse
  import opened MemoryTags

  /** The store holds `g` as the counter of `k`, and still will at `later`. */
  ghost predicate Holds(l: L.Lru, k: string, g: nat, later: int) {
    LiveCounter(l, k, later) == Some(g)
  }

  // ---- Gets lose nothing but what has expired ----

  lemma WithoutKeepsFound(items: seq<L.Item>, key: string, k: string)
    requires L.DistinctKeys(items) && k != key
    ensures Find(L.Without(items, key), k) == Find(items, k)
  {
    var rest := L.Without(items, key);
    L.WithoutHasNot(items, key);
    var p, i := L.IndexOf(items, key), L.IndexOf(items, k);
    if i < |items| {
      if p < |items| {
        U.WithoutTakesOut(items, p);
      }
      var q := if i < p then i else i - 1;
      assert rest[q] == items[i];
      FindAt(rest, k, q);
    } else {
      assert forall j :: 0 <= j < |rest| ==> rest[j].key != k;
      FindAbsent(rest, k);
    }
  }

  lemma ConsKeepsFound(item: L.Item, rest: seq<L.Item>, k: string)
    requires item.key != k
    ensures Find([item] + rest, k) == Find(rest, k)
  {
    assert ([item] + rest)[1..] == rest;
  }

  lemma GetKeepsOthers(l: L.Lru, key: string, now: int, k: string)
    requires L.Valid(l) && k != key
    ensures Find(L.Get(l, key, now).1.items, k) == Find(l.items, k)
  {
    hide Find, L.Without;
    WithoutKeepsFound(l.items, key, k);
    var p := L.IndexOf(l.items, key);
    if p < |l.items| {
      ConsKeepsFound(l.items[p], L.Without(l.items, key), k);
    }
  }

  lemma GetKeepsOwn(l: L.Lru, k: string, now: int, g: nat, later: int)
    requires L.Valid(l) && Holds(l, k, g, later) && now <= later
    ensures var (v, l') := L.Get(l, k, now);
            v.Some? && |v.value| == 8 && Uint64(v.value) == g && Holds(l', k, g, later)
  {
    var p := L.IndexOf(l.items, k);
    U.GetHits(l, p, now);
    L.GetValid(l, k, now);
    FindAt(L.Get(l, k, now).1.items, k, 0);
  }

  lemma GetKeepsHeld(l: L.Lru, key: string, now: int, k: string, g: nat, later: int)
    requires L.Valid(l) && Holds(l, k, g, later) && now <= later
    ensures Holds(L.Get(l, key, now).1, k, g, later)
  {
    if k == key {
      GetKeepsOwn(l, k, now, g, later);
    } else {
      GetKeepsOthers(l, key, now, k);
    }
  }

  // ---- A counter that is held is answered ----

  lemma CounterOfHeld(l: L.Lru, k: string, ttl: int, now: int, draw: Option<nat>, g: nat)
    requires L.Valid(l) && Holds(l, k, g, now)
    ensures Counter(l, k, ttl, now, draw) == (Some(g), L.Get(l, k, now).1)
  {
    hide L.Get, LiveCounter;
    GetKeepsOwn(l, k, now, g, now);
  }

  lemma {:induction false} CountersOfHeld(l: L.Lru, ks: seq<string>, ttl: int, now: int, draws: seq<Option<nat>>,
                                          gens: seq<nat>)
    requires L.Valid(l) && |draws| == |ks| == |gens|
    requires forall i :: 0 <= i < |ks| ==> Holds(l, ks[i], gens[i], now)
    ensures Counters(l, ks, ttl, now, draws).0 == Some(gens)
    ensures forall k, g :: Holds(l, k, g, now) ==> Holds(Counters(l, ks, ttl, now, draws).1, k, g, now)
    decreases |ks|
  {
    hide Counter, Holds, L.Get;
    if ks == [] {
    } else {
      var last := |ks| - 1;
      CountersOfHeld(l, ks[..last], ttl, now, draws[..last], gens[..last]);
      CountersValid(l, ks[..last], ttl, now, draws[..last]);
      var l1 := Counters(l, ks[..last], ttl, now, draws[..last]).1;
      CounterOfHeld(l1, ks[last], ttl, now, draws[last], gens[last]);
      forall k, g | Holds(l, k, g, now)
        ensures Holds(L.Get(l1, ks[last], now).1, k, g, now)
      {
        GetKeepsHeld(l1, ks[last], now, k, g, now);
      }
      assert gens == gens[..last] + [gens[last]];
    }
  }

  // ---- A counter that was answered is held ----

  /** When the counter a look answers at `now` stops being answered: its own expiry, or that of a new one. */
  function EndOf(l: L.Lru, k: string, ttl: int, now: int): int {
    if LiveCounter(l, k, now).Some? then Find(l.items, k).value.expires else now + ttl
  }

  lemma SetHolds(l: L.Lru, k: string, g: nat, expires: int, later: int)
    requires L.Valid(l) && g < TWO_TO_64 && |k| + 8 <= l.maxBytes && later < expires
    ensures Holds(L.Set(l, L.Item(k, PutUint64(g), expires)), k, g, later)
  {
    hide L.Trimmed, L.TotalBytes;
    var item := L.Item(k, PutUint64(g), expires);
    L.SetValid(l, item);
    L.SetLeaves(l, item);
    FindAt(L.Set(l, item).items, k, 0);
    Uint64OfPut(g);
  }

  lemma CounterHolds(l: L.Lru, k: string, ttl: int, now: int, draw: Option<nat>, later: int)
    requires L.Valid(l) && |k| + 8 <= l.maxBytes && now <= later < EndOf(l, k, ttl, now)
    requires Counter(l, k, ttl, now, draw).0.Some?
    ensures var (g, l') := Counter(l, k, ttl, now, draw); Holds(l', k, g.value, later)
  {
    hide L.Set;
    GetFinds(l, k, now);
    L.GetValid(l, k, now);
    if LiveCounter(l, k, now).Some? {
      GetKeepsOwn(l, k, now, LiveCounter(l, k, now).value, later);
    } else {
      SetHolds(L.Get(l, k, now).1, k, A.NewGeneration(draw.value), now + ttl, later);
    }
  }

  // ---- With room, nothing else is lost ----

  function Size(ks: seq<string>): nat {
    if ks == [] then 0 else Size(ks[..|ks| - 1]) + |ks[|ks| - 1]| + 8
  }

  /** The counters of `ks` fit beside all that is held. */
  predicate Room(l: L.Lru, ks: seq<string>) {
    |l.items| + |ks| <= l.maxEntries && L.TotalBytes(l.items) + Size(ks) <= l.maxBytes
  }

  lemma GetShrinks(l: L.Lru, key: string, now: int)
    requires L.Valid(l)
    ensures var l' := L.Get(l, key, now).1;
            && |l'.items| <= |l.items| && L.TotalBytes(l'.items) <= L.TotalBytes(l.items)
            && l'.maxEntries == l.maxEntries && l'.maxBytes == l.maxBytes
  {
    hide L.TotalBytes;
    var p := L.IndexOf(l.items, key);
    if p < |l.items| {
      L.BytesWithout(l.items, key);
      L.ConsBytes(l.items[p], L.Without(l.items, key));
    }
  }

  lemma SetWithRoom(l: L.Lru, item: L.Item, k: string)
    requires L.Valid(l) && |l.items| < l.maxEntries && L.TotalBytes(l.items) + L.Cost(item) <= l.maxBytes
    ensures var l' := L.Set(l, item);
            && |l'.items| <= |l.items| + 1 && L.TotalBytes(l'.items) <= L.TotalBytes(l.items) + L.Cost(item)
            && (k != item.key ==> Find(l'.items, k) == Find(l.items, k))
  {
    hide L.TotalBytes;
    L.SetValid(l, item);
    var rest := L.Without(l.items, item.key);
    L.BytesWithout(l.items, item.key);
    assert L.Set(l, item).items == [item] + rest;
    L.ConsBytes(item, rest);
    if k != item.key {
      WithoutKeepsFound(l.items, item.key, k);
      ConsKeepsFound(item, rest, k);
    }
  }

  lemma CounterKeepsRoom(l: L.Lru, k: string, ttl: int, now: int, draw: Option<nat>, other: string)
    requires L.Valid(l) && |l.items| < l.maxEntries && L.TotalBytes(l.items) + |k| + 8 <= l.maxBytes
    ensures var l' := Counter(l, k, ttl, now, draw).1;
            && |l'.items| <= |l.items| + 1 && L.TotalBytes(l'.items) <= L.TotalBytes(l.items) + |k| + 8
            && (other != k ==> Find(l'.items, other) == Find(l.items, other))
  {
    hide L.Get, L.Set, Find, L.TotalBytes;
    L.GetValid(l, k, now);
    GetShrinks(l, k, now);
    if other != k {
      GetKeepsOthers(l, k, now, other);
    }
    if draw.Some? {
      var item := L.Item(k, PutUint64(A.NewGeneration(draw.value)), now + ttl);
      assert L.Cost(item) == |k| + 8;
      SetWithRoom(L.Get(l, k, now).1, item, other);
    }
  }

  lemma CounterKeepsHeld(l: L.Lru, k: string, ttl: int, now: int, draw: Option<nat>, other: string, g: nat, later: int)
    requires L.Valid(l) && |l.items| < l.maxEntries && L.TotalBytes(l.items) + |k| + 8 <= l.maxBytes
    requires Holds(l, other, g, later) && now <= later
    ensures Holds(Counter(l, k, ttl, now, draw).1, other, g, later)
  {
    hide L.Get, L.Set, Counter, L.TotalBytes;
    if other == k {
      assert Holds(l, k, g, now);
      CounterOfHeld(l, k, ttl, now, draw, g);
      GetKeepsOwn(l, k, now, g, later);
    } else {
      CounterKeepsRoom(l, k, ttl, now, draw, other);
    }
  }

  /** What a look at one of the counters will find: not yet expired, whether it is there now or created. */
  predicate Lasting(l: L.Lru, ks: seq<string>, ttl: int, now: int, later: int) {
    forall i :: 0 <= i < |ks| ==> |ks[i]| + 8 <= l.maxBytes && later < EndOf(l, ks[i], ttl, now)
  }

  lemma {:induction false} CountersHold(l: L.Lru, ks: seq<string>, ttl: int, now: int, draws: seq<Option<nat>>,
                                        later: int)
    requires L.Valid(l) && |draws| == |ks| && now <= later < now + ttl && Lasting(l, ks, ttl, now, later) && Room(l, ks)
    requires Counters(l, ks, ttl, now, draws).0.Some?
    ensures var (gens, l') := Counters(l, ks, ttl, now, draws);
            && (forall i :: 0 <= i < |ks| ==> Holds(l', ks[i], gens.value[i], later))
            && |l'.items| <= |l.items| + |ks| && L.TotalBytes(l'.items) <= L.TotalBytes(l.items) + Size(ks)
            && (forall k :: k !in ks ==> Find(l'.items, k) == Find(l.items, k))
    decreases |ks|
  {
    hide Counter, Find, L.TotalBytes, Holds, LiveCounter;
    if ks == [] {
    } else {
      var last := |ks| - 1;
      assert forall i :: 0 <= i < last ==> ks[..last][i] == ks[i];
      CountersHold(l, ks[..last], ttl, now, draws[..last], later);
      CountersValid(l, ks[..last], ttl, now, draws[..last]);
      var (gens, l1) := Counters(l, ks[..last], ttl, now, draws[..last]);
      EndKept(l, l1, ks, ttl, now, gens.value, later);
      CounterHolds(l1, ks[last], ttl, now, draws[last], later);
      forall i | 0 <= i < last
        ensures Holds(Counter(l1, ks[last], ttl, now, draws[last]).1, ks[i], gens.value[i], later)
      {
        assert ks[..last][i] == ks[i];
        CounterKeepsHeld(l1, ks[last], ttl, now, draws[last], ks[i], gens.value[i], later);
      }
      forall k | k !in ks
        ensures Find(Counter(l1, ks[last], ttl, now, draws[last]).1.items, k) == Find(l.items, k)
      {
        CounterKeepsRoom(l1, ks[last], ttl, now, draws[last], k);
      }
      CounterKeepsRoom(l1, ks[last], ttl, now, draws[last], "");
    }
  }

  /** The last counter still ends late enough when the ones before it have been looked at. */
  lemma EndKept(l: L.Lru, l1: L.Lru, ks: seq<string>, ttl: int, now: int, gens: seq<nat>, later: int)
    requires ks != [] && now <= later < now + ttl && later < EndOf(l, ks[|ks| - 1], ttl, now) && |gens| == |ks| - 1
    requires forall i :: 0 <= i < |ks| - 1 ==> Holds(l1, ks[i], gens[i], later)
    requires forall k :: k !in ks[..|ks| - 1] ==> Find(l1.items, k) == Find(l.items, k)
    ensures later < EndOf(l1, ks[|ks| - 1], ttl, now)
  {
    var k := ks[|ks| - 1];
    if k in ks[..|ks| - 1] {
      var i :| 0 <= i < |ks| - 1 && ks[i] == k;
      assert Holds(l1, k, gens[i], later);
    }
  }

  // ---- GetTagged and Bump ----

  /**
    Counters answered once are answered again, whatever would be drawn, until they expire: for one counter
    whatever has to be evicted for it, for several when there is room for them.
   */
  lemma GetTaggedAgain(l: L.Lru, key: string, ks: seq<string>, ttl: int, now: int, draws: seq<Option<nat>>,
                       key': string, ttl': int, later: int, draws': seq<Option<nat>>)
    requires L.Valid(l) && |draws| == |ks| == |draws'| && key !in ks && key' !in ks && ttl' > 0
    requires now <= later < now + ttl && Lasting(l, ks, ttl, now, later) && (|ks| <= 1 || Room(l, ks))
    requires GetTagged(l, key, ks, ttl, now, draws).0.Ok?
    ensures var (r, l') := GetTagged(l, key, ks, ttl, now, draws);
            var r' := GetTagged(l', key', ks, ttl', later, draws').0;
            r'.Ok? && r'.value.gens == r.value.gens
  {
    hide Counters, L.Get, Holds, Size, L.TotalBytes, Lasting, Room;
    var l1 := L.Get(l, key, now).1;
    L.GetValid(l, key, now);
    LastingAfterGet(l, key, ks, ttl, now, later);
    GetShrinks(l, key, now);
    RoomAfter(l, l1, ks);
    var (gens, l2) := Counters(l1, ks, ttl, now, draws);
    CountersValid(l1, ks, ttl, now, draws);
    if |ks| <= 1 {
      OneCounterHolds(l1, ks, ttl, now, draws, later);
    } else {
      CountersHold(l1, ks, ttl, now, draws, later);
    }
    GetTaggedOfHeld(l2, key', ks, ttl', later, draws', gens.value);
  }

  lemma LastingAfterGet(l: L.Lru, key: string, ks: seq<string>, ttl: int, now: int, later: int)
    requires L.Valid(l) && key !in ks && Lasting(l, ks, ttl, now, later)
    ensures Lasting(L.Get(l, key, now).1, ks, ttl, now, later)
  {
    forall i | 0 <= i < |ks|
      ensures EndOf(L.Get(l, key, now).1, ks[i], ttl, now) == EndOf(l, ks[i], ttl, now)
    {
      GetKeepsOthers(l, key, now, ks[i]);
    }
  }

  lemma RoomAfter(l: L.Lru, l1: L.Lru, ks: seq<string>)
    requires l1.maxEntries == l.maxEntries && l1.maxBytes == l.maxBytes
    requires |l1.items| <= |l.items| && L.TotalBytes(l1.items) <= L.TotalBytes(l.items)
    ensures Room(l, ks) ==> Room(l1, ks)
  {
  }

  lemma OneCounterHolds(l: L.Lru, ks: seq<string>, ttl: int, now: int, draws: seq<Option<nat>>, later: int)
    requires L.Valid(l) && |draws| == |ks| <= 1 && now <= later && Lasting(l, ks, ttl, now, later)
    requires Counters(l, ks, ttl, now, draws).0.Some?
    ensures var (gens, l') := Counters(l, ks, ttl, now, draws);
            forall i :: 0 <= i < |ks| ==> Holds(l', ks[i], gens.value[i], later)
  {
    hide Counter, Holds;
    if ks != [] {
      assert Counters(l, ks[..0], ttl, now, draws[..0]) == (Some([]), l);
      assert ks[|ks| - 1] == ks[0];
      CounterHolds(l, ks[0], ttl, now, draws[0], later);
    }
  }

  /** A GetTagged of counters that are held answers them, whatever would be drawn. */
  lemma GetTaggedOfHeld(l: L.Lru, key: string, ks: seq<string>, ttl: int, now: int, draws: seq<Option<nat>>,
                        gens: seq<nat>)
    requires L.Valid(l) && |draws| == |ks| == |gens| && key !in ks && ttl > 0
    requires forall i :: 0 <= i < |ks| ==> Holds(l, ks[i], gens[i], now)
    ensures GetTagged(l, key, ks, ttl, now, draws).0 == Ok(Tagged(L.Get(l, key, now).0, gens))
  {
    hide Counters, L.Get, Holds;
    L.GetValid(l, key, now);
    forall i | 0 <= i < |ks|
      ensures Holds(L.Get(l, key, now).1, ks[i], gens[i], now)
    {
      GetKeepsHeld(l, key, now, ks[i], gens[i], now);
    }
    CountersOfHeld(L.Get(l, key, now).1, ks, ttl, now, draws, gens);
  }

  /** What a counter is before a call: what the store holds, else what would be drawn for it. */
  function Former(l: L.Lru, k: string, now: int, draw: Option<nat>): Option<nat> {
    match LiveCounter(l, k, now)
    case Some(g) => Some(g)
    case None => if draw.Some? then Some(A.NewGeneration(draw.value)) else None
  }

  function Successor(g: nat): nat {
    (g + 1) % TWO_TO_64
  }

  lemma AdvanceHolds(l: L.Lru, k: string, ttl: int, now: int, draw: Option<nat>, later: int)
    requires L.Valid(l) && |k| + 8 <= l.maxBytes && later < now + ttl && Counter(l, k, ttl, now, draw).0.Some?
    ensures Holds(Advance(l, k, ttl, now, draw).1, k, Successor(Counter(l, k, ttl, now, draw).0.value), later)
  {
    hide Counter, L.Set, Holds, PutUint64, L.Valid;
    CounterValid(l, k, ttl, now, draw);
    var (g, l1) := Counter(l, k, ttl, now, draw);
    SetHolds(l1, k, (g.value + 1) % TWO_TO_64, now + ttl, later);
  }

  lemma CounterAnswers(l: L.Lru, k: string, ttl: int, now: int, draw: Option<nat>)
    requires L.Valid(l) && Counter(l, k, ttl, now, draw).0.Some?
    ensures Counter(l, k, ttl, now, draw).0 == Former(l, k, now, draw)
  {
    hide Counter, LiveCounter, L.Valid, A.NewGeneration;
    CounterEffect(l, k, ttl, now, draw, k);
  }

  lemma BumpHolds(l: L.Lru, k: string, ttl: int, now: int, draw: Option<nat>, later: int)
    requires L.Valid(l) && |k| + 8 <= l.maxBytes && now <= later < now + ttl
    requires Bump(l, [k], ttl, now, [draw]).0.None?
    ensures var l' := Bump(l, [k], ttl, now, [draw]).1;
            && L.Valid(l') && Former(l, k, now, draw).Some?
            && Holds(l', k, Successor(Former(l, k, now, draw).value), later)
  {
    assert l.maxEntries > 0 && l.maxBytes > 0;
    OneBump(l, k, ttl, now, draw);
    hide *;
    AdvanceValid(l, k, ttl, now, draw);
    CounterAnswers(l, k, ttl, now, draw);
    AdvanceHolds(l, k, ttl, now, draw, later);
  }

  /** After a Bump, GetTagged answers one more than the counter was, or than what was drawn for it. */
  lemma GetTaggedAfterBump(l: L.Lru, k: string, ttl: int, now: int, draw: Option<nat>, key: string, ttl': int,
                           later: int, draw': Option<nat>)
    requires L.Valid(l) && |k| + 8 <= l.maxBytes && key != k && ttl' > 0 && now <= later < now + ttl
    requires Bump(l, [k], ttl, now, [draw]).0.None?
    ensures Former(l, k, now, draw).Some?
    ensures var r := GetTagged(Bump(l, [k], ttl, now, [draw]).1, key, [k], ttl', later, [draw']).0;
            r.Ok? && r.value.gens == [(Former(l, k, now, draw).value + 1) % TWO_TO_64]
  {
    hide Holds, Bump, GetTagged, L.Get, Former;
    BumpHolds(l, k, ttl, now, draw, later);
    var next := (Former(l, k, now, draw).value + 1) % TWO_TO_64;
    GetTaggedOfHeld(Bump(l, [k], ttl, now, [draw]).1, key, [k], ttl', later, [draw'], [next]);
  }

  lemma OneBump(l: L.Lru, k: string, ttl: int, now: int, draw: Option<nat>)
    requires l.maxEntries > 0 && l.maxBytes > 0
    requires Bump(l, [k], ttl, now, [draw]).0.None?
    ensures ttl > 0 && Advance(l, k, ttl, now, draw) == (true, Bump(l, [k], ttl, now, [draw]).1)
    ensures Counter(l, k, ttl, now, draw).0.Some?
  {
    hide Counter;
    assert [k][..0] == [] && [draw][..0] == [];
    assert Advances(l, [], ttl, now, []) == (true, l);
  }

  // ---- Success ----

  /** A refused TTL is the only failure of a GetTagged whose draws all succeed. */
  lemma GetTaggedSucceeds(l: L.Lru, key: string, ks: seq<string>, ttl: int, now: int, draws: seq<Option<nat>>)
    requires l.maxEntries > 0 && l.maxBytes > 0 && |draws| == |ks|
    requires forall i :: 0 <= i < |ks| ==> draws[i].Some?
    ensures GetTagged(l, key, ks, ttl, now, draws).0.Ok? <==> ttl > 0
    ensures ttl <= 0 ==> GetTagged(l, key, ks, ttl, now, draws) == (Err(BadTtl), l)
    ensures ttl > 0 ==> GetTagged(l, key, ks, ttl, now, draws).0.value.value == L.Get(l, key, now).0
  {
    CountersSucceed(L.Get(l, key, now).1, ks, ttl, now, draws);
  }

  lemma {:induction false} CountersSucceed(l: L.Lru, ks: seq<string>, ttl: int, now: int, draws: seq<Option<nat>>)
    requires l.maxEntries > 0 && l.maxBytes > 0 && |draws| == |ks|
    requires forall i :: 0 <= i < |ks| ==> draws[i].Some?
    ensures Counters(l, ks, ttl, now, draws).0.Some?
    decreases |ks|
  {
    if ks == [] {
    } else {
      CountersSucceed(l, ks[..|ks| - 1], ttl, now, draws[..|ks| - 1]);
    }
  }

  /** The same of Bump. */
  lemma BumpSucceeds(l: L.Lru, ks: seq<string>, ttl: int, now: int, draws: seq<Option<nat>>)
    requires l.maxEntries > 0 && l.maxBytes > 0 && |draws| == |ks|
    requires forall i :: 0 <= i < |ks| ==> draws[i].Some?
    ensures Bump(l, ks, ttl, now, draws).0.None? <==> ttl > 0
    ensures ttl <= 0 ==> Bump(l, ks, ttl, now, draws) == (Some(BadTtl), l)
  {
    AdvancesSucceed(l, ks, ttl, now, draws);
  }

  lemma {:induction false} AdvancesSucceed(l: L.Lru, ks: seq<string>, ttl: int, now: int, draws: seq<Option<nat>>)
    requires l.maxEntries > 0 && l.maxBytes > 0 && |draws| == |ks|
    requires forall i :: 0 <= i < |ks| ==> draws[i].Some?
    ensures Advances(l, ks, ttl, now, draws).0
    decreases |ks|
  {
    if ks == [] {
    } else {
      AdvancesSucceed(l, ks[..|ks| - 1], ttl, now, draws[..|ks| - 1]);
    }
  }
}
