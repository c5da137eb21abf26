/**
  Tag generation counters in the in-memory store (memory/memory.go): `GetTagged` and `Bump` as
  functions of what the store holds, and the proof that they keep the contract of Authority.dfy.

  `now` is one reading of the clock per call. A draw is what crypto/rand gives NewGeneration; None is
  a failed read.
 */
module MemoryTags {
  import opened Common
  import opened BigEndian
  import A = Authority
  import L = Lru

  datatype Failure = BadTtl | NoRandomness

  datatype Tagged = Tagged(value: Option<Bytes>, gens: seq<nat>)

  /** counterLocked: the live counter under `gk`, else a new one; None when drawing fails. */
  function Counter(l: L.Lru, gk: string, ttl: int, now: int, draw: Option<nat>): (r: (Option<nat>, L.Lru))
    requires l.maxEntries > 0 && l.maxBytes > 0
    ensures r.1.maxEntries == l.maxEntries && r.1.maxBytes == l.maxBytes
  {
    var (v, l1) := L.Get(l, gk, now);
    if v.Some? && |v.value| == 8 then (Some(Uint64(v.value)), l1)
    else
      match draw
      case None => (None, l1)
      case Some(bits) =>
        var g := A.NewGeneration(bits);
        (Some(g), L.Set(l1, L.Item(gk, PutUint64(g), now + ttl)))
  }

  /** The loop of GetTagged over its counters; it stops at the first that cannot be created. */
  function Counters(l: L.Lru, ks: seq<string>, ttl: int, now: int,
                    draws: seq<Option<nat>>): (r: (Option<seq<nat>>, L.Lru))
    requires l.maxEntries > 0 && l.maxBytes > 0 && |draws| == |ks|
    ensures r.1.maxEntries == l.maxEntries && r.1.maxBytes == l.maxBytes
    ensures r.0.Some? ==> |r.0.value| == |ks|
    decreases |ks|
  {
    if ks == [] then (Some([]), l)
    else
      var last := |ks| - 1;
      var (gens, l1) := Counters(l, ks[..last], ttl, now, draws[..last]);
      match gens
      case None => (None, l1)
      case Some(gs) =>
        var (g, l2) := Counter(l1, ks[last], ttl, now, draws[last]);
        (if g.Some? then Some(gs + [g.value]) else None, l2)
  }

  function GetTagged(l: L.Lru, key: string, ks: seq<string>, ttl: int, now: int, draws: seq<Option<nat>>):
    (Result<Tagged, Failure>, L.Lru)
    requires l.maxEntries > 0 && l.maxBytes > 0 && |draws| == |ks|
  {
    if ttl <= 0 then (Err(BadTtl), l)
    else
      var (value, l1) := L.Get(l, key, now);
      var (gens, l2) := Counters(l1, ks, ttl, now, draws);
      (if gens.Some? then Ok(Tagged(value, gens.value)) else Err(NoRandomness), l2)
  }

  /** One round of Bump's loop: the counter, then its successor under a new TTL. */
  function Advance(l: L.Lru, gk: string, ttl: int, now: int, draw: Option<nat>): (r: (bool, L.Lru))
    requires l.maxEntries > 0 && l.maxBytes > 0
    ensures r.1.maxEntries == l.maxEntries && r.1.maxBytes == l.maxBytes
  {
    var (g, l1) := Counter(l, gk, ttl, now, draw);
    if g.None? then (false, l1)
    else (true, L.Set(l1, L.Item(gk, PutUint64((g.value + 1) % TWO_TO_64), now + ttl)))
  }

  function Advances(l: L.Lru, ks: seq<string>, ttl: int, now: int, draws: seq<Option<nat>>): (r: (bool, L.Lru))
    requires l.maxEntries > 0 && l.maxBytes > 0 && |draws| == |ks|
    ensures r.1.maxEntries == l.maxEntries && r.1.maxBytes == l.maxBytes
    decreases |ks|
  {
    if ks == [] then (true, l)
    else
      var last := |ks| - 1;
      var (ok, l1) := Advances(l, ks[..last], ttl, now, draws[..last]);
      if ok then Advance(l1, ks[last], ttl, now, draws[last]) else (false, l1)
  }

  function Bump(l: L.Lru, ks: seq<string>, ttl: int, now: int, draws: seq<Option<nat>>): (Option<Failure>, L.Lru)
    requires l.maxEntries > 0 && l.maxBytes > 0 && |draws| == |ks|
  {
    if ttl <= 0 then (Some(BadTtl), l)
    else
      var (ok, l1) := Advances(l, ks, ttl, now, draws);
      (if ok then None else Some(NoRandomness), l1)
  }

  // ---- The invariant through the counters ----

  lemma CounterValid(l: L.Lru, gk: string, ttl: int, now: int, draw: Option<nat>)
    requires L.Valid(l)
    ensures L.Valid(Counter(l, gk, ttl, now, draw).1)
  {
    L.GetValid(l, gk, now);
    if draw.Some? {
      L.SetValid(L.Get(l, gk, now).1, L.Item(gk, PutUint64(A.NewGeneration(draw.value)), now + ttl));
    }
  }

  lemma {:induction false} CountersValid(l: L.Lru, ks: seq<string>, ttl: int, now: int, draws: seq<Option<nat>>)
    requires L.Valid(l) && |draws| == |ks|
    ensures L.Valid(Counters(l, ks, ttl, now, draws).1)
    decreases |ks|
  {
    hide Counter;
    if ks == [] {
    } else {
      var last := |ks| - 1;
      CountersValid(l, ks[..last], ttl, now, draws[..last]);
      CounterValid(Counters(l, ks[..last], ttl, now, draws[..last]).1, ks[last], ttl, now, draws[last]);
    }
  }

  lemma AdvanceValid(l: L.Lru, gk: string, ttl: int, now: int, draw: Option<nat>)
    requires L.Valid(l)
    ensures L.Valid(Advance(l, gk, ttl, now, draw).1)
  {
    hide L.Valid;
    CounterValid(l, gk, ttl, now, draw);
    var (g, l1) := Counter(l, gk, ttl, now, draw);
    if g.Some? {
      L.SetValid(l1, L.Item(gk, PutUint64((g.value + 1) % TWO_TO_64), now + ttl));
    }
  }

  lemma {:induction false} AdvancesValid(l: L.Lru, ks: seq<string>, ttl: int, now: int, draws: seq<Option<nat>>)
    requires L.Valid(l) && |draws| == |ks|
    ensures L.Valid(Advances(l, ks, ttl, now, draws).1)
    decreases |ks|
  {
    hide Advance;
    if ks == [] {
    } else {
      var last := |ks| - 1;
      AdvancesValid(l, ks[..last], ttl, now, draws[..last]);
      AdvanceValid(Advances(l, ks[..last], ttl, now, draws[..last]).1, ks[last], ttl, now, draws[last]);
    }
  }

  /** Once a counter could not be created, the rest of the keys change nothing. */
  lemma {:induction false} FailureStops(l: L.Lru, ks: seq<string>, ttl: int, now: int, draws: seq<Option<nat>>, n: nat)
    requires l.maxEntries > 0 && l.maxBytes > 0 && |draws| == |ks| && n <= |ks|
    requires Counters(l, ks[..n], ttl, now, draws[..n]).0 == None
    ensures Counters(l, ks, ttl, now, draws) == Counters(l, ks[..n], ttl, now, draws[..n])
    decreases |ks|
  {
    hide Counter;
    if n == |ks| {
      assert ks[..n] == ks && draws[..n] == draws;
    } else {
      var last := |ks| - 1;
      assert ks[..last][..n] == ks[..n] && draws[..last][..n] == draws[..n];
      FailureStops(l, ks[..last], ttl, now, draws[..last], n);
    }
  }

  lemma {:induction false} AdvanceStops(l: L.Lru, ks: seq<string>, ttl: int, now: int, draws: seq<Option<nat>>, n: nat)
    requires l.maxEntries > 0 && l.maxBytes > 0 && |draws| == |ks| && n <= |ks|
    requires !Advances(l, ks[..n], ttl, now, draws[..n]).0
    ensures Advances(l, ks, ttl, now, draws) == Advances(l, ks[..n], ttl, now, draws[..n])
    decreases |ks|
  {
    hide Advance;
    if n == |ks| {
      assert ks[..n] == ks && draws[..n] == draws;
    } else {
      var last := |ks| - 1;
      assert ks[..last][..n] == ks[..n] && draws[..last][..n] == draws[..n];
      AdvanceStops(l, ks[..last], ttl, now, draws[..last], n);
    }
  }

  // ---- The contract ----

  function Find(items: seq<L.Item>, key: string): Option<L.Item> {
    var i := L.IndexOf(items, key);
    if i < |items| then Some(items[i]) else None
  }

  lemma FindAt(items: seq<L.Item>, key: string, i: nat)
    requires L.DistinctKeys(items) && i < |items| && items[i].key == key
    ensures Find(items, key) == Some(items[i])
  {
  }

  lemma FindAbsent(items: seq<L.Item>, key: string)
    requires forall i :: 0 <= i < |items| ==> items[i].key != key
    ensures Find(items, key) == None
  {
  }

  /** Items of `b` in another order, with some missing, and perhaps one more under `own`. */
  ghost predicate DrawnFrom(a: seq<L.Item>, b: seq<L.Item>, own: string) {
    && L.DistinctKeys(a) && L.DistinctKeys(b)
    && forall i :: 0 <= i < |a| && a[i].key != own ==> a[i] in b
  }

  lemma FindDrawn(a: seq<L.Item>, b: seq<L.Item>, own: string, key: string)
    requires DrawnFrom(a, b, own) && key != own
    ensures Find(a, key) == None || Find(a, key) == Find(b, key)
  {
  }

  lemma GetDraws(l: L.Lru, key: string, now: int)
    requires L.Valid(l)
    ensures DrawnFrom(L.Get(l, key, now).1.items, l.items, key)
  {
    L.GetValid(l, key, now);
  }

  lemma SetDraws(l: L.Lru, item: L.Item)
    requires L.Valid(l)
    ensures DrawnFrom(L.Set(l, item).items, l.items, item.key)
    ensures Find(L.Set(l, item).items, item.key) == None || Find(L.Set(l, item).items, item.key) == Some(item)
  {
    L.SetValid(l, item);
    L.WithoutHasNot(l.items, item.key);
    var rest := L.Without(l.items, item.key);
    assert forall i :: 0 <= i < |rest| ==> rest[i] in l.items;
    if L.Cost(item) <= l.maxBytes {
      L.SetLeaves(l, item);
      var items := L.Set(l, item).items;
      FindAt(items, item.key, 0);
      forall i | 0 <= i < |items| && items[i].key != item.key
        ensures items[i] in l.items
      {
        assert items[i] == items[1..][i - 1] == rest[i - 1];
      }
    } else {
      assert forall i :: 0 <= i < |rest| ==> rest[i].key != item.key;
      FindAbsent(rest, item.key);
    }
  }

  function LiveCounter(l: L.Lru, k: string, now: int): Option<nat> {
    match Find(l.items, k)
    case None => None
    case Some(item) => if now < item.expires && |item.value| == 8 then Some(Uint64(item.value)) else None
  }

  /** Every live counter of `tags` the store holds is what the authority's contract says it holds. */
  ghost predicate Backs(l: L.Lru, now: int, c: A.Counters, tags: set<string>) {
    forall k :: k in tags && LiveCounter(l, k, now).Some? ==> k in c.live && c.live[k] == LiveCounter(l, k, now).value
  }

  /** Time, reads and writes of entries, deletions and evictions only ever lose counters. */
  lemma OtherKeysBack(l: L.Lru, l': L.Lru, own: string, now: int, later: int, c: A.Counters, tags: set<string>)
    requires Backs(l, now, c, tags) && DrawnFrom(l'.items, l.items, own) && own !in tags && now <= later
    ensures Backs(l', later, c, tags)
  {
    forall k | k in tags && LiveCounter(l', k, later).Some?
      ensures k in c.live && c.live[k] == LiveCounter(l', k, later).value
    {
      FindDrawn(l'.items, l.items, own, k);
    }
  }

  function ChanceOf(l: L.Lru, k: string, now: int, draw: Option<nat>): A.Chance {
    if LiveCounter(l, k, now).Some? || draw.None? then A.Chance({}, 0, {})
    else A.Chance({k}, A.NewGeneration(draw.value), {})
  }

  lemma GetFinds(l: L.Lru, k: string, now: int)
    requires L.Valid(l)
    ensures var (v, l1) := L.Get(l, k, now);
            (LiveCounter(l, k, now).Some? <==> v.Some? && |v.value| == 8) &&
            (LiveCounter(l, k, now).Some? ==>
              LiveCounter(l, k, now).value == Uint64(v.value) && Find(l1.items, k) == Find(l.items, k))
  {
  }

  /** A counter other than the one stored is unchanged or lost. */
  lemma SetEffect(l: L.Lru, k: string, g: nat, expires: int, now: int, j: string)
    requires L.Valid(l) && g < TWO_TO_64
    ensures var l' := L.Set(l, L.Item(k, PutUint64(g), expires));
            && (j != k ==> LiveCounter(l', j, now) == None || LiveCounter(l', j, now) == LiveCounter(l, j, now))
            && (LiveCounter(l', k, now) == None || LiveCounter(l', k, now) == Some(g))
  {
    hide L.Set, Find, DrawnFrom;
    var item := L.Item(k, PutUint64(g), expires);
    SetDraws(l, item);
    Uint64OfPut(g);
    if j != k {
      FindDrawn(L.Set(l, item).items, l.items, k, j);
    }
  }

  lemma GetEffect(l: L.Lru, k: string, now: int, j: string)
    requires L.Valid(l)
    ensures j != k ==>
            LiveCounter(L.Get(l, k, now).1, j, now) == None ||
              LiveCounter(L.Get(l, k, now).1, j, now) == LiveCounter(l, j, now)
    ensures LiveCounter(l, k, now).Some? ==> LiveCounter(L.Get(l, k, now).1, k, now) == LiveCounter(l, k, now)
  {
    hide L.Get, Find, L.Valid, DrawnFrom;
    GetDraws(l, k, now);
    GetFinds(l, k, now);
    if j != k {
      FindDrawn(L.Get(l, k, now).1.items, l.items, k, j);
    }
  }

  /** counterLocked answers the live counter or the draw, stores no other value for it, and at most loses others. */
  lemma CounterEffect(l: L.Lru, k: string, ttl: int, now: int, draw: Option<nat>, j: string)
    requires L.Valid(l) && Counter(l, k, ttl, now, draw).0.Some?
    ensures var (g, l') := Counter(l, k, ttl, now, draw);
            && (LiveCounter(l, k, now).Some? ==> g == LiveCounter(l, k, now))
            && (LiveCounter(l, k, now).None? ==> draw.Some? && g == Some(A.NewGeneration(draw.value)))
            && (LiveCounter(l', k, now) == None || LiveCounter(l', k, now) == g)
            && (j != k ==> LiveCounter(l', j, now) == None || LiveCounter(l', j, now) == LiveCounter(l, j, now))
  {
    hide L.Get, L.Set, LiveCounter;
    GetFinds(l, k, now);
    GetEffect(l, k, now, j);
    L.GetValid(l, k, now);
    if LiveCounter(l, k, now).None? {
      SetEffect(L.Get(l, k, now).1, k, A.NewGeneration(draw.value), now + ttl, now, j);
    }
  }

  /** counterLocked is a fetch of the contract: the held generation, else a fresh one, with losses around it. */
  lemma CounterKeepsContract(l: L.Lru, c: A.Counters, tags: set<string>, k: string, ttl: int, now: int,
                             draw: Option<nat>)
    requires L.Valid(l) && Backs(l, now, c, tags) && k in tags
    requires draw.Some? ==> A.FreshDraw(c, A.NewGeneration(draw.value))
    requires Counter(l, k, ttl, now, draw).0.Some?
    ensures var (g, l') := Counter(l, k, ttl, now, draw);
            var ch := ChanceOf(l, k, now, draw);
            && A.ChanceOk(c, k, ch)
            && A.Fetched(c, k, ch).0 == g.value
            && Backs(l', now, A.Fetched(c, k, ch).1, tags)
  {
    hide Counter, LiveCounter, A.NewGeneration;
    var ch := ChanceOf(l, k, now, draw);
    var (g, l') := Counter(l, k, ttl, now, draw);
    CounterEffect(l, k, ttl, now, draw, k);
    forall j | j in tags && LiveCounter(l', j, now).Some?
      ensures j in A.Fetched(c, k, ch).1.live && A.Fetched(c, k, ch).1.live[j] == LiveCounter(l', j, now).value
    {
      CounterEffect(l, k, ttl, now, draw, j);
    }
  }

  /** A draw that fails leaves at most an expired item dropped. */
  lemma FailedCounterBacks(l: L.Lru, c: A.Counters, tags: set<string>, k: string, ttl: int, now: int, draw: Option<nat>)
    requires L.Valid(l) && Backs(l, now, c, tags) && Counter(l, k, ttl, now, draw).0.None?
    ensures draw.None? && Backs(Counter(l, k, ttl, now, draw).1, now, c, tags)
  {
    hide L.Get, LiveCounter;
    GetFinds(l, k, now);
    forall j | j in tags && LiveCounter(L.Get(l, k, now).1, j, now).Some?
      ensures j in c.live && c.live[j] == LiveCounter(L.Get(l, k, now).1, j, now).value
    {
      GetEffect(l, k, now, j);
      FailedCounterGone(l, k, now);
    }
  }

  lemma FailedCounterGone(l: L.Lru, k: string, now: int)
    requires L.Valid(l) && LiveCounter(l, k, now).None?
    ensures LiveCounter(L.Get(l, k, now).1, k, now).None?
  {
    L.GetValid(l, k, now);
    L.WithoutHasNot(l.items, k);
  }

  // ---- Draws far apart ----

  predicate FarFrom(draw: nat, v: nat, gap: int) {
    draw > v + gap || draw + gap < v
  }

  /**
    Draws farther from each other, and from every generation issued, than two runs of all the bumps
    there can be; the bumps already made count no more.
   */
  ghost predicate Far(c: A.Counters, draws: seq<Option<nat>>) {
    && (forall i, v :: 0 <= i < |draws| && draws[i].Some? && v in c.issued ==>
          FarFrom(A.NewGeneration(draws[i].value), v, c.limit + c.limit - c.bumps))
    && (forall i, j :: 0 <= i < j < |draws| && draws[i].Some? && draws[j].Some? ==>
          FarFrom(A.NewGeneration(draws[i].value), A.NewGeneration(draws[j].value), c.limit + c.limit))
  }

  lemma FarFresh(c: A.Counters, draws: seq<Option<nat>>)
    requires Far(c, draws) && c.bumps <= c.limit && draws != [] && draws[0].Some?
    ensures A.FreshDraw(c, A.NewGeneration(draws[0].value))
  {
    hide A.NewGeneration;
    forall v | v in c.issued
      ensures FarFrom(A.NewGeneration(draws[0].value), v, c.limit)
    {
      assert FarFrom(A.NewGeneration(draws[0].value), v, c.limit + c.limit - c.bumps);
    }
  }

  lemma FarRest(c: A.Counters, a: seq<Option<nat>>, b: seq<Option<nat>>)
    requires Far(c, a + b)
    ensures Far(c, b)
  {
    hide A.NewGeneration;
    var all := a + b;
    forall i | 0 <= i < |b|
      ensures all[|a| + i] == b[i]
    {
    }
    forall i, j | 0 <= i < j < |b| && b[i].Some? && b[j].Some?
      ensures FarFrom(A.NewGeneration(b[i].value), A.NewGeneration(b[j].value), c.limit + c.limit)
    {
      assert all[|a| + i] == b[i] && all[|a| + j] == b[j];
    }
  }

  /** A look at a counter uses the first draw, if any. */
  lemma FarAfterHeld(c: A.Counters, k: string, ch: A.Chance, draws: seq<Option<nat>>)
    requires Far(c, draws) && c.bumps <= c.limit && draws != []
    requires k in A.Lose(c, ch.before).live || (draws[0].Some? && ch.draw == A.NewGeneration(draws[0].value))
    ensures Far(A.Held(A.Lose(c, ch.before), k, ch.draw), draws[1..])
  {
    hide A.NewGeneration;
    assert draws == [draws[0]] + draws[1..];
    FarRest(c, [draws[0]], draws[1..]);
    var d := A.Held(A.Lose(c, ch.before), k, ch.draw);
    forall i, v | 0 <= i < |draws[1..]| && draws[1..][i].Some? && v in d.issued
      ensures FarFrom(A.NewGeneration(draws[1..][i].value), v, d.limit + d.limit - d.bumps)
    {
      assert draws[1..][i] == draws[i + 1];
      if v !in c.issued {
        assert FarFrom(A.NewGeneration(draws[0].value), A.NewGeneration(draws[i + 1].value), c.limit + c.limit);
      }
    }
  }

  lemma FarAfterAdvance(c: A.Counters, k: string, now: int, draws: seq<Option<nat>>)
    requires Far(c, draws) && k in c.live && c.live[k] in c.issued
    ensures Far(A.Advanced(c, k, now), draws)
  {
    hide A.NewGeneration;
    var d := A.Advanced(c, k, now);
    forall i, v | 0 <= i < |draws| && draws[i].Some? && v in d.issued
      ensures FarFrom(A.NewGeneration(draws[i].value), v, d.limit + d.limit - d.bumps)
    {
      var w := if v in c.issued then v else c.live[k];
      assert FarFrom(A.NewGeneration(draws[i].value), w, c.limit + c.limit - c.bumps);
    }
  }

  // ---- GetTagged ----

  lemma ChanceFits(l: L.Lru, c: A.Counters, tags: set<string>, k: string, ttl: int, now: int, draw: Option<nat>)
    requires L.Valid(l) && Backs(l, now, c, tags) && k in tags && Counter(l, k, ttl, now, draw).0.Some?
    ensures var ch := ChanceOf(l, k, now, draw);
            && ch.after == {}
            && (k in A.Lose(c, ch.before).live || (draw.Some? && ch.draw == A.NewGeneration(draw.value)))
  {
  }

  /** One counter: a fetch of the contract, and the draws still to come stay far. */
  lemma CounterStep(l: L.Lru, c: A.Counters, tags: set<string>, k: string, ttl: int, now: int, draw: Option<nat>,
                    rest: seq<Option<nat>>)
    requires L.Valid(l) && A.Valid(c) && Backs(l, now, c, tags) && k in tags && Far(c, [draw] + rest)
    ensures var (g, l') := Counter(l, k, ttl, now, draw);
            var ch := ChanceOf(l, k, now, draw);
            && L.Valid(l')
            && (g.None? ==> draw.None? && Backs(l', now, c, tags) && Far(c, rest))
            && (g.Some? ==>
                  && A.ChanceOk(c, k, ch) && A.Fetched(c, k, ch).0 == g.value
                  && Backs(l', now, A.Fetched(c, k, ch).1, tags)
                  && Far(A.Held(A.Lose(c, ch.before), k, ch.draw), rest) && Far(A.Fetched(c, k, ch).1, rest))
  {
    hide L.Valid, Backs, Counter, A.IssuesOk, A.LiveOk, A.Apart, A.RootsHeld, A.FreshDraw;
    CounterValid(l, k, ttl, now, draw);
    if Counter(l, k, ttl, now, draw).0.None? {
      FailedCounterBacks(l, c, tags, k, ttl, now, draw);
      FarRest(c, [draw], rest);
    } else {
      if draw.Some? {
        FarFresh(c, [draw] + rest);
      }
      CounterKeepsContract(l, c, tags, k, ttl, now, draw);
      ChanceFits(l, c, tags, k, ttl, now, draw);
      FarAfterHeld(c, k, ChanceOf(l, k, now, draw), [draw] + rest);
      assert ([draw] + rest)[1..] == rest;
    }
  }

  lemma ReadSnoc(c: A.Counters, ks: seq<string>, chs: seq<A.Chance>, k: string, ch: A.Chance)
    requires |chs| == |ks| && A.ChancesOk(c, ks, chs) && A.ChanceOk(A.Read(c, ks, chs).1, k, ch)
    ensures A.ChancesOk(c, ks + [k], chs + [ch])
    ensures var (gens, mid) := A.Read(c, ks, chs);
            A.Read(c, ks + [k], chs + [ch]) == (gens + [A.Fetched(mid, k, ch).0], A.Fetched(mid, k, ch).1)
  {
    assert (ks + [k])[..|ks|] == ks && (chs + [ch])[..|chs|] == chs;
  }

  lemma CountersSnoc(l: L.Lru, ks: seq<string>, k: string, ttl: int, now: int, draws: seq<Option<nat>>,
                     draw: Option<nat>)
    requires l.maxEntries > 0 && l.maxBytes > 0 && |draws| == |ks|
    ensures var (gens, l1) := Counters(l, ks, ttl, now, draws);
            Counters(l, ks + [k], ttl, now, draws + [draw]) ==
              if gens.None? then (None, l1)
              else
                var (g, l2) := Counter(l1, k, ttl, now, draw);
                (if g.Some? then Some(gens.value + [g.value]) else None, l2)
  {
    hide Counter;
    assert (ks + [k])[..|ks|] == ks && (draws + [draw])[..|ks|] == draws;
  }

  /**
    The loop is a Read of the contract over the counters it got through: all of them, each generation
    held during the call, or those before the first draw that failed.
   */
  ghost predicate ReadsAsContract(l: L.Lru, c: A.Counters, tags: set<string>, ks: seq<string>, ttl: int, now: int,
                                  draws: seq<Option<nat>>, rest: seq<Option<nat>>, chs: seq<A.Chance>)
    requires l.maxEntries > 0 && l.maxBytes > 0 && |draws| == |ks|
  {
    && |chs| <= |ks| && A.ChancesOk(c, ks[..|chs|], chs)
    && (|chs| < |ks| ==> draws[|chs|].None?)
    && var (gens, l') := Counters(l, ks, ttl, now, draws);
       var (read, d) := A.Read(c, ks[..|chs|], chs);
       && gens == (if |chs| == |ks| then Some(read) else None)
       && L.Valid(l') && Backs(l', now, d, tags) && Far(d, rest)
  }

  /** One more counter after a loop that stopped. */
  lemma StoppedReads(l: L.Lru, c: A.Counters, tags: set<string>, ks: seq<string>, k: string, ttl: int, now: int,
                     draws: seq<Option<nat>>, draw: Option<nat>, rest: seq<Option<nat>>, chs: seq<A.Chance>)
    requires l.maxEntries > 0 && l.maxBytes > 0 && |draws| == |ks| && |chs| < |ks|
    requires ReadsAsContract(l, c, tags, ks, ttl, now, draws, [draw] + rest, chs)
    ensures ReadsAsContract(l, c, tags, ks + [k], ttl, now, draws + [draw], rest, chs)
  {
    hide Counters, Counter, L.Valid, Backs, A.Read, A.ChancesOk, Far;
    CountersSnoc(l, ks, k, ttl, now, draws, draw);
    assert (ks + [k])[..|chs|] == ks[..|chs|];
    FarRest(A.Read(c, ks[..|chs|], chs).1, [draw], rest);
  }

  /** One more counter after a loop that got through. */
  lemma OneMoreRead(l: L.Lru, c: A.Counters, tags: set<string>, ks: seq<string>, k: string, ttl: int, now: int,
                    draws: seq<Option<nat>>, draw: Option<nat>, rest: seq<Option<nat>>, chs: seq<A.Chance>)
    returns (more: seq<A.Chance>)
    requires l.maxEntries > 0 && l.maxBytes > 0 && |draws| == |ks| == |chs| && A.Valid(c) && k in tags
    requires ReadsAsContract(l, c, tags, ks, ttl, now, draws, [draw] + rest, chs)
    ensures ReadsAsContract(l, c, tags, ks + [k], ttl, now, draws + [draw], rest, more)
  {
    hide Counters, Counter, L.Valid, Backs, A.Read, A.ChancesOk, A.ChanceOk, A.Fetched, A.Valid, A.Held, Far, ChanceOf;
    assert ks[..|chs|] == ks;
    var (gens, l1) := Counters(l, ks, ttl, now, draws);
    var d := A.Read(c, ks, chs).1;
    ReadValid(c, ks, chs);
    CounterStep(l1, d, tags, k, ttl, now, draw, rest);
    CountersSnoc(l, ks, k, ttl, now, draws, draw);
    if Counter(l1, k, ttl, now, draw).0.None? {
      more := chs;
      assert (ks + [k])[..|chs|] == ks;
    } else {
      var ch := ChanceOf(l1, k, now, draw);
      ReadSnoc(c, ks, chs, k, ch);
      more := chs + [ch];
      assert (ks + [k])[..|more|] == ks + [k];
    }
  }

  lemma ReadValid(c: A.Counters, ks: seq<string>, chs: seq<A.Chance>)
    requires |chs| == |ks| && A.Valid(c) && A.ChancesOk(c, ks, chs)
    ensures A.Valid(A.Read(c, ks, chs).1)
  {
    A.ReadFacts(c, ks, chs, 0);
  }

  lemma {:induction false} CountersKeepContract(l: L.Lru, c: A.Counters, tags: set<string>, ks: seq<string>, ttl: int,
                                                now: int, draws: seq<Option<nat>>, rest: seq<Option<nat>>)
    returns (chs: seq<A.Chance>)
    requires L.Valid(l) && A.Valid(c) && Backs(l, now, c, tags) && |draws| == |ks|
    requires (forall i :: 0 <= i < |ks| ==> ks[i] in tags) && Far(c, draws + rest)
    ensures ReadsAsContract(l, c, tags, ks, ttl, now, draws, rest, chs)
    decreases |ks|
  {
    if ks == [] {
      chs := [];
      assert draws + rest == rest;
    } else {
      hide ReadsAsContract, Backs, A.Valid, Far;
      var last := |ks| - 1;
      assert draws + rest == draws[..last] + ([draws[last]] + rest);
      assert ks == ks[..last] + [ks[last]] && draws == draws[..last] + [draws[last]];
      chs := CountersKeepContract(l, c, tags, ks[..last], ttl, now, draws[..last], [draws[last]] + rest);
      if |chs| < last {
        StoppedReads(l, c, tags, ks[..last], ks[last], ttl, now, draws[..last], draws[last], rest, chs);
      } else {
        AtMostAll(l, c, tags, ks[..last], ttl, now, draws[..last], [draws[last]] + rest, chs);
        chs := OneMoreRead(l, c, tags, ks[..last], ks[last], ttl, now, draws[..last], draws[last], rest, chs);
      }
    }
  }

  lemma AtMostAll(l: L.Lru, c: A.Counters, tags: set<string>, ks: seq<string>, ttl: int, now: int,
                  draws: seq<Option<nat>>, rest: seq<Option<nat>>, chs: seq<A.Chance>)
    requires l.maxEntries > 0 && l.maxBytes > 0 && |draws| == |ks|
    requires ReadsAsContract(l, c, tags, ks, ttl, now, draws, rest, chs)
    ensures |chs| <= |ks|
  {
  }

  // ---- Bump ----

  lemma HeldThenNext(c: A.Counters, k: string, ch: A.Chance)
    requires A.Valid(c) && A.ChanceOk(c, k, ch) && c.bumps < c.limit && ch.after == {}
    ensures A.Fetched(c, k, ch) ==
            (A.Held(A.Lose(c, ch.before), k, ch.draw).live[k], A.Held(A.Lose(c, ch.before), k, ch.draw))
    ensures A.Fetched(c, k, ch).0 + 1 < TWO_TO_64
  {
    A.HeldEvolves(c, k, ch, 0);
    var held := A.Held(A.Lose(c, ch.before), k, ch.draw);
    assert held.live - ch.after == held.live;
    A.NextIsNew(held, k);
  }

  /**
    Bump of a counter is a Bumped of the contract: a value the counter never held, whatever is evicted to
    make room.
   */
  lemma AdvanceKeepsContract(l: L.Lru, c: A.Counters, tags: set<string>, k: string, ttl: int, now: int,
                             draw: Option<nat>)
    requires L.Valid(l) && A.Valid(c) && Backs(l, now, c, tags) && k in tags && c.bumps < c.limit
    requires draw.Some? ==> A.FreshDraw(c, A.NewGeneration(draw.value))
    requires Advance(l, k, ttl, now, draw).0
    ensures var ch := ChanceOf(l, k, now, draw);
            A.ChanceOk(c, k, ch) && Backs(Advance(l, k, ttl, now, draw).1, now, A.Bumped(c, k, ch, now), tags)
  {
    hide Counter, LiveCounter, Backs, L.Set, A.Advanced, A.Valid, A.Held, A.Fetched, A.ChanceOk, A.NewGeneration,
         A.FreshDraw, PutUint64;
    var ch := ChanceOf(l, k, now, draw);
    var (g, l1) := Counter(l, k, ttl, now, draw);
    CounterKeepsContract(l, c, tags, k, ttl, now, draw);
    CounterValid(l, k, ttl, now, draw);
    HeldThenNext(c, k, ch);
    AdvancedBacks(l1, A.Fetched(c, k, ch).1, ch, tags, k, g.value, now + ttl, now);
  }

  lemma AdvancedBacks(l: L.Lru, held: A.Counters, ch: A.Chance, tags: set<string>, k: string, g: nat, expires: int,
                      now: int)
    requires L.Valid(l) && k in held.live && held.live[k] == g && g + 1 < TWO_TO_64 && ch.after == {}
    requires Backs(l, now, held, tags)
    ensures Backs(L.Set(l, L.Item(k, PutUint64(g + 1), expires)), now, A.Lose(A.Advanced(held, k, now), ch.after), tags)
  {
    hide LiveCounter, L.Set;
    var l' := L.Set(l, L.Item(k, PutUint64(g + 1), expires));
    var d := A.Lose(A.Advanced(held, k, now), ch.after);
    forall j | j in tags && LiveCounter(l', j, now).Some?
      ensures j in d.live && d.live[j] == LiveCounter(l', j, now).value
    {
      SetEffect(l, k, g + 1, expires, now, j);
    }
  }

  /** Reading, writing and deleting an entry, and the passing of time, leave every counter as it was or lose it. */
  lemma EntriesKeepContract(l: L.Lru, pk: string, value: Bytes, expires: int, now: int, later: int, c: A.Counters,
                            tags: set<string>)
    requires L.Valid(l) && Backs(l, now, c, tags) && pk !in tags && now <= later
    ensures Backs(L.Get(l, pk, now).1, later, c, tags)
    ensures Backs(L.Set(l, L.Item(pk, value, expires)), later, c, tags)
    ensures Backs(L.Delete(l, pk), later, c, tags)
  {
    GetDraws(l, pk, now);
    OtherKeysBack(l, L.Get(l, pk, now).1, pk, now, later, c, tags);
    SetDraws(l, L.Item(pk, value, expires));
    OtherKeysBack(l, L.Set(l, L.Item(pk, value, expires)), pk, now, later, c, tags);
    L.DeleteValid(l, pk);
    OtherKeysBack(l, L.Delete(l, pk), pk, now, later, c, tags);
  }

  /** Bump of one counter is a Bumped of the contract, and one whose draw fails changes no counter. */
  lemma AdvanceStep(l: L.Lru, c: A.Counters, tags: set<string>, k: string, ttl: int, now: int, draw: Option<nat>,
                    rest: seq<Option<nat>>)
    requires L.Valid(l) && A.Valid(c) && Backs(l, now, c, tags) && k in tags && Far(c, [draw] + rest) &&
             c.bumps < c.limit
    ensures var (ok, l') := Advance(l, k, ttl, now, draw);
            var ch := ChanceOf(l, k, now, draw);
            && L.Valid(l')
            && (!ok ==> draw.None? && Backs(l', now, c, tags) && Far(c, rest))
            && (ok ==>
                  && A.ChanceOk(c, k, ch)
                  && Backs(l', now, A.Bumped(c, k, ch, now), tags) && Far(A.Bumped(c, k, ch, now), rest))
  {
    assert l.maxEntries > 0 && l.maxBytes > 0;
    hide Counter, LiveCounter, L.Valid, Backs, L.Set, A.Advanced, A.Held, A.ChanceOk, A.NewGeneration, A.Valid,
         A.FreshDraw, PutUint64, Far;
    var ch := ChanceOf(l, k, now, draw);
    AdvanceValid(l, k, ttl, now, draw);
    CounterStep(l, c, tags, k, ttl, now, draw, rest);
    if Advance(l, k, ttl, now, draw).0 {
      CounterFits(l, c, tags, k, ttl, now, draw, rest);
      AdvanceKeepsContract(l, c, tags, k, ttl, now, draw);
      FarAfterBump(c, k, ch, now, rest);
    }
  }

  lemma CounterFits(l: L.Lru, c: A.Counters, tags: set<string>, k: string, ttl: int, now: int, draw: Option<nat>,
                    rest: seq<Option<nat>>)
    requires A.Valid(c) && Far(c, [draw] + rest)
    ensures draw.Some? ==> A.FreshDraw(c, A.NewGeneration(draw.value))
    ensures ChanceOf(l, k, now, draw).after == {}
  {
    hide A.NewGeneration, A.IssuesOk, A.LiveOk, A.Apart, A.RootsHeld, A.FreshDraw, Far;
    if draw.Some? {
      FarFresh(c, [draw] + rest);
    }
  }

  lemma FarAfterBump(c: A.Counters, k: string, ch: A.Chance, now: int, rest: seq<Option<nat>>)
    requires A.Valid(c) && A.ChanceOk(c, k, ch) && ch.after == {}
    requires Far(A.Held(A.Lose(c, ch.before), k, ch.draw), rest)
    ensures Far(A.Bumped(c, k, ch, now), rest)
  {
    hide A.Held, A.ChanceOk, A.IssuesOk, A.Apart, A.RootsHeld;
    A.HeldValid(c, k, ch);
    FarAfterAdvance(A.Held(A.Lose(c, ch.before), k, ch.draw), k, now, rest);
  }

  lemma BumpSnoc(c: A.Counters, ks: seq<string>, chs: seq<A.Chance>, k: string, ch: A.Chance, now: int)
    requires |chs| == |ks| && A.BumpChancesOk(c, ks, chs, now) && A.ChanceOk(A.BumpedAll(c, ks, chs, now), k, ch)
    ensures A.BumpChancesOk(c, ks + [k], chs + [ch], now)
    ensures A.BumpedAll(c, ks + [k], chs + [ch], now) == A.Bumped(A.BumpedAll(c, ks, chs, now), k, ch, now)
  {
    assert (ks + [k])[..|ks|] == ks && (chs + [ch])[..|chs|] == chs;
  }

  lemma AdvancesSnoc(l: L.Lru, ks: seq<string>, k: string, ttl: int, now: int, draws: seq<Option<nat>>,
                     draw: Option<nat>)
    requires l.maxEntries > 0 && l.maxBytes > 0 && |draws| == |ks|
    ensures var (ok, l1) := Advances(l, ks, ttl, now, draws);
            Advances(l, ks + [k], ttl, now, draws + [draw]) ==
              if ok then Advance(l1, k, ttl, now, draw) else (false, l1)
  {
    hide Advance;
    assert (ks + [k])[..|ks|] == ks && (draws + [draw])[..|ks|] == draws;
  }

  /** The loop of Bump is the bumps of the contract over the counters it got through, whatever it evicts. */
  ghost predicate BumpsAsContract(l: L.Lru, c: A.Counters, tags: set<string>, ks: seq<string>, ttl: int, now: int,
                                  draws: seq<Option<nat>>, rest: seq<Option<nat>>, chs: seq<A.Chance>)
    requires l.maxEntries > 0 && l.maxBytes > 0 && |draws| == |ks|
  {
    && |chs| <= |ks| && A.BumpChancesOk(c, ks[..|chs|], chs, now)
    && (|chs| < |ks| ==> draws[|chs|].None?)
    && var (ok, l') := Advances(l, ks, ttl, now, draws);
       var d := A.BumpedAll(c, ks[..|chs|], chs, now);
       ok == (|chs| == |ks|) && L.Valid(l') && Backs(l', now, d, tags) && Far(d, rest)
  }

  lemma StoppedBumps(l: L.Lru, c: A.Counters, tags: set<string>, ks: seq<string>, k: string, ttl: int, now: int,
                     draws: seq<Option<nat>>, draw: Option<nat>, rest: seq<Option<nat>>, chs: seq<A.Chance>)
    requires l.maxEntries > 0 && l.maxBytes > 0 && |draws| == |ks| && |chs| < |ks|
    requires BumpsAsContract(l, c, tags, ks, ttl, now, draws, [draw] + rest, chs)
    ensures BumpsAsContract(l, c, tags, ks + [k], ttl, now, draws + [draw], rest, chs)
  {
    hide Advances, Advance, L.Valid, Backs, A.BumpedAll, A.BumpChancesOk, Far;
    AdvancesSnoc(l, ks, k, ttl, now, draws, draw);
    assert (ks + [k])[..|chs|] == ks[..|chs|];
    FarRest(A.BumpedAll(c, ks[..|chs|], chs, now), [draw], rest);
  }

  lemma OneMoreBump(l: L.Lru, c: A.Counters, tags: set<string>, ks: seq<string>, k: string, ttl: int, now: int,
                    draws: seq<Option<nat>>, draw: Option<nat>, rest: seq<Option<nat>>, chs: seq<A.Chance>)
    returns (more: seq<A.Chance>)
    requires l.maxEntries > 0 && l.maxBytes > 0 && |draws| == |ks| == |chs| && A.Valid(c) && k in tags
    requires c.bumps + |ks| < c.limit
    requires BumpsAsContract(l, c, tags, ks, ttl, now, draws, [draw] + rest, chs)
    ensures BumpsAsContract(l, c, tags, ks + [k], ttl, now, draws + [draw], rest, more)
  {
    hide Advances, Advance, L.Valid, Backs, A.BumpedAll, A.BumpChancesOk, A.ChanceOk, A.Bumped, A.Valid, Far, ChanceOf;
    assert ks[..|chs|] == ks;
    var l1 := Advances(l, ks, ttl, now, draws).1;
    var d := A.BumpedAll(c, ks, chs, now);
    BumpsValid(c, ks, chs, now);
    AdvanceStep(l1, d, tags, k, ttl, now, draw, rest);
    AdvancesSnoc(l, ks, k, ttl, now, draws, draw);
    if Advance(l1, k, ttl, now, draw).0 {
      var ch := ChanceOf(l1, k, now, draw);
      BumpSnoc(c, ks, chs, k, ch, now);
      more := chs + [ch];
      assert (ks + [k])[..|more|] == ks + [k];
    } else {
      more := chs;
      assert (ks + [k])[..|chs|] == ks;
    }
  }

  lemma BumpsValid(c: A.Counters, ks: seq<string>, chs: seq<A.Chance>, now: int)
    requires |chs| == |ks| && A.Valid(c) && A.BumpChancesOk(c, ks, chs, now) && c.bumps + |ks| < c.limit
    ensures var d := A.BumpedAll(c, ks, chs, now); A.Valid(d) && d.bumps == c.bumps + |ks| && d.limit == c.limit
  {
    A.BumpedAllFacts(c, ks, chs, now);
  }

  lemma {:induction false} AdvancesKeepContract(l: L.Lru, c: A.Counters, tags: set<string>, ks: seq<string>, ttl: int,
                                                now: int, draws: seq<Option<nat>>, rest: seq<Option<nat>>)
    returns (chs: seq<A.Chance>)
    requires L.Valid(l) && A.Valid(c) && Backs(l, now, c, tags) && |draws| == |ks| && c.bumps + |ks| <= c.limit
    requires (forall i :: 0 <= i < |ks| ==> ks[i] in tags) && Far(c, draws + rest)
    ensures BumpsAsContract(l, c, tags, ks, ttl, now, draws, rest, chs)
    decreases |ks|
  {
    if ks == [] {
      chs := [];
      assert draws + rest == rest;
    } else {
      hide BumpsAsContract, Backs, A.Valid, Far;
      var last := |ks| - 1;
      assert draws + rest == draws[..last] + ([draws[last]] + rest);
      assert ks == ks[..last] + [ks[last]] && draws == draws[..last] + [draws[last]];
      chs := AdvancesKeepContract(l, c, tags, ks[..last], ttl, now, draws[..last], [draws[last]] + rest);
      if |chs| < last {
        StoppedBumps(l, c, tags, ks[..last], ks[last], ttl, now, draws[..last], draws[last], rest, chs);
      } else {
        AtMostAllBumps(l, c, tags, ks[..last], ttl, now, draws[..last], [draws[last]] + rest, chs);
        chs := OneMoreBump(l, c, tags, ks[..last], ks[last], ttl, now, draws[..last], draws[last], rest, chs);
      }
    }
  }

  lemma AtMostAllBumps(l: L.Lru, c: A.Counters, tags: set<string>, ks: seq<string>, ttl: int, now: int,
                       draws: seq<Option<nat>>, rest: seq<Option<nat>>, chs: seq<A.Chance>)
    requires l.maxEntries > 0 && l.maxBytes > 0 && |draws| == |ks|
    requires BumpsAsContract(l, c, tags, ks, ttl, now, draws, rest, chs)
    ensures |chs| <= |ks|
  {
  }

  /** Bump, whether it succeeds, fails half way or refuses its TTL, is the bumps of the contract it made. */
  lemma BumpKeepsContract(l: L.Lru, c: A.Counters, tags: set<string>, ks: seq<string>, ttl: int, now: int,
                          draws: seq<Option<nat>>, rest: seq<Option<nat>>) returns (chs: seq<A.Chance>)
    requires L.Valid(l) && A.Valid(c) && Backs(l, now, c, tags) && |draws| == |ks| && c.bumps + |ks| <= c.limit
    requires (forall i :: 0 <= i < |ks| ==> ks[i] in tags) && Far(c, draws + rest)
    ensures |chs| <= |ks| && A.BumpChancesOk(c, ks[..|chs|], chs, now)
    ensures var (failure, l') := Bump(l, ks, ttl, now, draws);
            var d := A.BumpedAll(c, ks[..|chs|], chs, now);
            && (failure.None? ==> |chs| == |ks|)
            && L.Valid(l') && Backs(l', now, d, tags) && Far(d, rest)
  {
    assert l.maxEntries > 0 && l.maxBytes > 0;
    hide Advances, L.Valid, Backs, A.BumpedAll, Far;
    if ttl <= 0 {
      chs := [];
      FarRest(c, draws, rest);
      NoBumps(c, now);
      assert ks[..0] == [];
    } else {
      chs := AdvancesKeepContract(l, c, tags, ks, ttl, now, draws, rest);
    }
  }

  lemma NoBumps(c: A.Counters, now: int)
    ensures A.BumpChancesOk(c, [], [], now) && A.BumpedAll(c, [], [], now) == c
  {
  }

  /**
    GetTagged answers what Get answers for the entry, and for the counters what the contract's Read
    answers; when it fails, the counters it left are those of a Read of the ones it got through.
   */
  lemma GetTaggedKeepsContract(l: L.Lru, c: A.Counters, tags: set<string>, key: string, ks: seq<string>, ttl: int,
                               now: int, draws: seq<Option<nat>>, rest: seq<Option<nat>>)
    returns (chs: seq<A.Chance>)
    requires L.Valid(l) && A.Valid(c) && Backs(l, now, c, tags) && |draws| == |ks| && key !in tags
    requires (forall i :: 0 <= i < |ks| ==> ks[i] in tags) && Far(c, draws + rest)
    ensures |chs| <= |ks| && A.ChancesOk(c, ks[..|chs|], chs)
    ensures var (r, l') := GetTagged(l, key, ks, ttl, now, draws);
            var (gens, d) := A.Read(c, ks[..|chs|], chs);
            && (r.Ok? ==> |chs| == |ks| && r.value == Tagged(L.Get(l, key, now).0, gens))
            && L.Valid(l') && Backs(l', now, d, tags) && Far(d, rest)
  {
    assert l.maxEntries > 0 && l.maxBytes > 0;
    hide Counters, L.Valid, Backs, A.Read, A.ChancesOk, Far;
    if ttl <= 0 {
      chs := [];
      FarRest(c, draws, rest);
      NoReads(c);
      assert ks[..0] == [];
    } else {
      EntriesKeepContract(l, key, [], 0, now, now, c, tags);
      L.GetValid(l, key, now);
      chs := CountersKeepContract(L.Get(l, key, now).1, c, tags, ks, ttl, now, draws, rest);
    }
  }

  lemma NoReads(c: A.Counters)
    ensures A.ChancesOk(c, [], []) && A.Read(c, [], []) == ([], c)
  {
  }
}
