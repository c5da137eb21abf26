/**
  Whole runs of the in-memory store (memory/memory.go): over every sequence of calls, failed ones
  included, its counters keep the contract of Authority.dfy, and an entry is what was last set or gone.
 */
module MemoryRuns {
  import opened Common
  import opened BigEndian
  import A = Authority
  import L = Lru
  import opened MemoryTags

  datatype Call =
    | GetCall(key: string)
    | SetCall(key: string, value: Bytes, ttl: int)
    | DeleteCall(key: string)
    | GetTaggedCall(key: string, genKeys: seq<string>, genTTL: int, draws: seq<Option<nat>>)
    | BumpCall(genKeys: seq<string>, genTTL: int, draws: seq<Option<nat>>)

  /** A call and the clock it reads. */
  datatype Timed = Timed(call: Call, at: int)

  predicate CallOk(call: Call) {
    call.GetTaggedCall? || call.BumpCall? ==> |call.draws| == |call.genKeys|
  }

  predicate AllOk(calls: seq<Timed>) {
    forall i :: 0 <= i < |calls| ==> CallOk(calls[i].call)
  }

  function Perform(l: L.Lru, t: Timed): (r: L.Lru)
    requires l.maxEntries > 0 && l.maxBytes > 0 && CallOk(t.call)
    ensures r.maxEntries == l.maxEntries && r.maxBytes == l.maxBytes
  {
    match t.call
    case GetCall(key) => L.Get(l, key, t.at).1
    case SetCall(key, value, ttl) => if ttl <= 0 then l else L.Set(l, L.Item(key, value, t.at + ttl))
    case DeleteCall(key) => L.Delete(l, key)
    case GetTaggedCall(key, ks, ttl, draws) => GetTagged(l, key, ks, ttl, t.at, draws).1
    case BumpCall(ks, ttl, draws) => Bump(l, ks, ttl, t.at, draws).1
  }

  function Run(l: L.Lru, calls: seq<Timed>): (r: L.Lru)
    requires l.maxEntries > 0 && l.maxBytes > 0 && AllOk(calls)
    ensures r.maxEntries == l.maxEntries && r.maxBytes == l.maxBytes
    decreases |calls|
  {
    if calls == [] then l else Run(Perform(l, calls[0]), calls[1..])
  }

  // ---- The counters ----

  /** Entries and counters live under different keys, as physicalKey and genKey make them. */
  predicate Tidy(call: Call, tags: set<string>) {
    && CallOk(call)
    && (!call.BumpCall? ==> call.key !in tags)
    && (call.GetTaggedCall? || call.BumpCall? ==> forall i :: 0 <= i < |call.genKeys| ==> call.genKeys[i] in tags)
  }

  predicate AllTidy(calls: seq<Timed>, tags: set<string>) {
    AllOk(calls) && forall i :: 0 <= i < |calls| ==> Tidy(calls[i].call, tags)
  }

  function DrawsOf(call: Call): seq<Option<nat>> {
    if call.GetTaggedCall? || call.BumpCall? then call.draws else []
  }

  function BumpsOf(call: Call): nat {
    if call.BumpCall? then |call.genKeys| else 0
  }

  function AllDraws(calls: seq<Timed>): seq<Option<nat>> {
    if calls == [] then [] else DrawsOf(calls[0].call) + AllDraws(calls[1..])
  }

  function AllBumps(calls: seq<Timed>): nat {
    if calls == [] then 0 else BumpsOf(calls[0].call) + AllBumps(calls[1..])
  }

  /** The clock of a run never goes back. */
  predicate Ordered(start: int, calls: seq<Timed>)
    decreases |calls|
  {
    calls == [] || (start <= calls[0].at && Ordered(calls[0].at, calls[1..]))
  }

  function EndOf(start: int, calls: seq<Timed>): int
    decreases |calls|
  {
    if calls == [] then start else EndOf(calls[0].at, calls[1..])
  }

  lemma BacksLater(l: L.Lru, now: int, later: int, c: A.Counters, tags: set<string>)
    requires Backs(l, now, c, tags) && now <= later
    ensures Backs(l, later, c, tags)
  {
    forall k | k in tags && LiveCounter(l, k, later).Some?
      ensures k in c.live && c.live[k] == LiveCounter(l, k, later).value
    {
      assert LiveCounter(l, k, now) == LiveCounter(l, k, later);
    }
  }

  lemma EntryCallKeeps(l: L.Lru, c: A.Counters, tags: set<string>, t: Timed)
    requires L.Valid(l) && Backs(l, t.at, c, tags) && Tidy(t.call, tags)
    requires t.call.GetCall? || t.call.SetCall? || t.call.DeleteCall?
    ensures L.Valid(Perform(l, t)) && Backs(Perform(l, t), t.at, c, tags)
  {
    hide L.Valid, Backs, L.Get, L.Set, L.Delete;
    match t.call {
      case GetCall(key) =>
        EntriesKeepContract(l, key, [], 0, t.at, t.at, c, tags);
        L.GetValid(l, key, t.at);
      case SetCall(key, value, ttl) =>
        if ttl > 0 {
          EntriesKeepContract(l, key, value, t.at + ttl, t.at, t.at, c, tags);
          L.SetValid(l, L.Item(key, value, t.at + ttl));
        }
      case DeleteCall(key) =>
        EntriesKeepContract(l, key, [], 0, t.at, t.at, c, tags);
        L.DeleteValid(l, key);
    }
  }

  lemma GetTaggedCallKeeps(l: L.Lru, c: A.Counters, tags: set<string>, t: Timed, rest: seq<Option<nat>>)
    returns (d: A.Counters)
    requires L.Valid(l) && A.Valid(c) && Backs(l, t.at, c, tags) && Tidy(t.call, tags) && t.call.GetTaggedCall?
    requires Far(c, t.call.draws + rest)
    ensures A.Evolves(c, d, t.at) && d.bumps == c.bumps
    ensures L.Valid(Perform(l, t)) && Backs(Perform(l, t), t.at, d, tags) && Far(d, rest)
    ensures var r := GetTagged(l, t.call.key, t.call.genKeys, t.call.genTTL, t.at, t.call.draws).0;
            r.Ok? ==> A.CurrentGens(c, d, t.call.genKeys, r.value.gens)
  {
    LimitsPositive(l);
    hide L.Valid, Backs, A.Valid, A.Evolves, A.CurrentGens, Far, GetTagged, A.Read;
    var ks := t.call.genKeys;
    var chs := GetTaggedKeepsContract(l, c, tags, t.call.key, ks, t.call.genTTL, t.at, t.call.draws, rest);
    d := A.Read(c, ks[..|chs|], chs).1;
    A.ReadFacts(c, ks[..|chs|], chs, t.at);
    assert ks[..|ks|] == ks;
  }

  lemma PerformsBump(l: L.Lru, t: Timed)
    requires l.maxEntries > 0 && l.maxBytes > 0 && CallOk(t.call) && t.call.BumpCall?
    ensures Perform(l, t) == Bump(l, t.call.genKeys, t.call.genTTL, t.at, t.call.draws).1
  {
  }

  ghost predicate AllBumped(c: A.Counters, d: A.Counters, ks: seq<string>) {
    forall i :: 0 <= i < |ks| ==> A.Era(c.log, ks[i]) < A.Era(d.log, ks[i])
  }

  lemma BumpCallKeeps(l: L.Lru, c: A.Counters, tags: set<string>, ks: seq<string>, ttl: int, now: int,
                      draws: seq<Option<nat>>, rest: seq<Option<nat>>) returns (d: A.Counters)
    requires L.Valid(l) && A.Valid(c) && Backs(l, now, c, tags) && |draws| == |ks|
    requires (forall i :: 0 <= i < |ks| ==> ks[i] in tags) && Far(c, draws + rest) && c.bumps + |ks| <= c.limit
    ensures A.Evolves(c, d, now) && d.bumps <= c.bumps + |ks|
    ensures var (failure, l') := Bump(l, ks, ttl, now, draws);
            L.Valid(l') && Backs(l', now, d, tags) && Far(d, rest) && (failure.None? ==> AllBumped(c, d, ks))
  {
    LimitsPositive(l);
    hide L.Valid, Backs, A.Valid, A.Evolves, Far, Bump, A.BumpedAll, A.BumpChancesOk, AllBumped;
    var chs := BumpKeepsContract(l, c, tags, ks, ttl, now, draws, rest);
    var done := ks[..|chs|];
    d := A.BumpedAll(c, done, chs, now);
    BumpsEvolve(c, done, chs, now);
    assert |chs| == |ks| ==> done == ks;
  }

  lemma BumpsEvolve(c: A.Counters, ks: seq<string>, chs: seq<A.Chance>, now: int)
    requires |chs| == |ks| && A.Valid(c) && A.BumpChancesOk(c, ks, chs, now) && c.bumps + |ks| <= c.limit
    ensures var d := A.BumpedAll(c, ks, chs, now);
            A.Evolves(c, d, now) && d.bumps == c.bumps + |ks| && AllBumped(c, d, ks)
  {
    A.BumpedAllFacts(c, ks, chs, now);
    forall i | 0 <= i < |ks|
      ensures A.Era(c.log, ks[i]) < A.Era(A.BumpedAll(c, ks, chs, now).log, ks[i])
    {
      A.BumpedAllEras(c, ks, chs, now, ks[i]);
    }
  }

  /** One call, whether it succeeds or fails, is a step the contract allows. */
  lemma CallKeepsContract(l: L.Lru, c: A.Counters, tags: set<string>, t: Timed, rest: seq<Option<nat>>)
    returns (d: A.Counters)
    requires L.Valid(l) && A.Valid(c) && Backs(l, t.at, c, tags) && Tidy(t.call, tags)
    requires Far(c, DrawsOf(t.call) + rest) && c.bumps + BumpsOf(t.call) <= c.limit
    ensures A.Evolves(c, d, t.at) && d.bumps <= c.bumps + BumpsOf(t.call)
    ensures L.Valid(Perform(l, t)) && Backs(Perform(l, t), t.at, d, tags) && Far(d, rest)
    ensures t.call.GetTaggedCall? ==>
              var r := GetTagged(l, t.call.key, t.call.genKeys, t.call.genTTL, t.at, t.call.draws).0;
              r.Ok? ==> A.CurrentGens(c, d, t.call.genKeys, r.value.gens)
    ensures t.call.BumpCall? && Bump(l, t.call.genKeys, t.call.genTTL, t.at, t.call.draws).0.None? ==>
              AllBumped(c, d, t.call.genKeys)
  {
    LimitsPositive(l);
    hide L.Valid, Backs, A.Valid, A.Evolves, A.CurrentGens, Far, GetTagged, Bump, Perform, AllBumped;
    match t.call {
      case GetTaggedCall(_, _, _, _) => d := GetTaggedCallKeeps(l, c, tags, t, rest);
      case BumpCall(ks, ttl, draws) =>
        PerformsBump(l, t);
        d := BumpCallKeeps(l, c, tags, ks, ttl, t.at, draws, rest);
      case _ =>
        d := c;
        EntryCallKeeps(l, c, tags, t);
        A.EvolvesReflexive(c, t.at);
        assert DrawsOf(t.call) + rest == rest;
    }
  }

  lemma LimitsPositive(l: L.Lru)
    requires L.Valid(l)
    ensures l.maxEntries > 0 && l.maxBytes > 0
  {
  }

  lemma EvolvesValid(c: A.Counters, d: A.Counters, since: int)
    requires A.Evolves(c, d, since)
    ensures A.Valid(d) && d.limit == c.limit
  {
  }

  /**
    Over every sequence of calls, failed ones included, the counters the store holds are those of an
    authority that evolved as the contract allows: no retired generation is ever in use again.
   */
  lemma {:induction false} RunKeepsContract(l: L.Lru, c: A.Counters, tags: set<string>, start: int, calls: seq<Timed>,
                                            rest: seq<Option<nat>>) returns (d: A.Counters)
    requires L.Valid(l) && A.Valid(c) && Backs(l, start, c, tags) && Ordered(start, calls) && AllTidy(calls, tags)
    requires Far(c, AllDraws(calls) + rest) && c.bumps + AllBumps(calls) <= c.limit
    ensures A.Evolves(c, d, start) && d.bumps <= c.bumps + AllBumps(calls) && Far(d, rest)
    ensures L.Valid(Run(l, calls)) && Backs(Run(l, calls), EndOf(start, calls), d, tags)
    decreases |calls|
  {
    LimitsPositive(l);
    hide L.Valid, Backs, A.Valid, A.Evolves, Far, Perform;
    if calls == [] {
      d := c;
      A.EvolvesReflexive(c, start);
      assert AllDraws(calls) + rest == rest;
    } else {
      var t := calls[0];
      BacksLater(l, start, t.at, c, tags);
      assert AllDraws(calls) + rest == DrawsOf(t.call) + (AllDraws(calls[1..]) + rest);
      var mid := CallKeepsContract(l, c, tags, t, AllDraws(calls[1..]) + rest);
      EvolvesValid(c, mid, t.at);
      d := RunKeepsContract(Perform(l, t), mid, tags, t.at, calls[1..], rest);
      A.EvolvesTransitive(c, mid, d, t.at);
      A.EvolvesSince(c, d, t.at, start);
    }
  }

  /** The same from an empty store and an authority that has issued nothing. */
  lemma StoreKeepsContract(entries: int, bytes: int, reporting: bool, limit: nat, tags: set<string>, start: int,
                           calls: seq<Timed>)
    returns (d: A.Counters)
    requires entries > 0 && bytes > 0 && limit < A.TWO_TO_62 && Ordered(start, calls) && AllTidy(calls, tags)
    requires Far(A.Counters(map[], map[], map[], 0, limit), AllDraws(calls)) && AllBumps(calls) <= limit
    ensures A.Evolves(A.Counters(map[], map[], map[], 0, limit), d, start)
    ensures L.Valid(Run(L.Lru(entries, bytes, reporting, [], []), calls))
    ensures Backs(Run(L.Lru(entries, bytes, reporting, [], []), calls), EndOf(start, calls), d, tags)
  {
    assert AllDraws(calls) + [] == AllDraws(calls);
    var c := A.Counters(map[], map[], map[], 0, limit);
    d := RunKeepsContract(L.Lru(entries, bytes, reporting, [], []), c, tags, start, calls, []);
  }

  /**
    A generation GetTagged answered before a Bump of its counter is never answered after it, whatever
    calls come between, and whatever they, or these three, evict, expire and create anew.
   */
  lemma {:induction false} BumpedGenerationNeverAnswered(l: L.Lru, c: A.Counters, tags: set<string>, first: Timed,
      mid: seq<Timed>, bump: Timed, tail: seq<Timed>, second: Timed, i: nat, j: nat)
    requires L.Valid(l) && A.Valid(c) && Backs(l, first.at, c, tags)
    requires first.call.GetTaggedCall? && bump.call.BumpCall? && second.call.GetTaggedCall?
    requires Tidy(first.call, tags) && Tidy(bump.call, tags) && Tidy(second.call, tags) && AllTidy(mid, tags) &&
             AllTidy(tail, tags)
    requires Ordered(first.at, mid) && EndOf(first.at, mid) <= bump.at && Ordered(bump.at, tail) &&
             EndOf(bump.at, tail) <= second.at
    requires var draws := bump.call.draws + (AllDraws(tail) + (second.call.draws + []));
             Far(c, first.call.draws + (AllDraws(mid) + draws))
    requires c.bumps + AllBumps(mid) + |bump.call.genKeys| + AllBumps(tail) <= c.limit
    requires i < |first.call.genKeys| && j < |second.call.genKeys| && first.call.genKeys[i] == second.call.genKeys[j]
    requires first.call.genKeys[i] in bump.call.genKeys
    ensures var l2 := Run(Perform(l, first), mid);
            var l4 := Run(Perform(l2, bump), tail);
            var r1 := GetTagged(l, first.call.key, first.call.genKeys, first.call.genTTL, first.at, first.call.draws).0;
            var failure := Bump(l2, bump.call.genKeys, bump.call.genTTL, bump.at, bump.call.draws).0;
            var r2 := GetTagged(l4, second.call.key, second.call.genKeys, second.call.genTTL, second.at,
              second.call.draws).0;
            r1.Ok? && failure.None? && r2.Ok? ==>
              |r1.value.gens| > i && |r2.value.gens| > j && r1.value.gens[i] != r2.value.gens[j]
  {
    LimitsPositive(l);
    hide L.Valid, Backs, A.Valid, A.Evolves, Far, Perform, Run, GetTagged, Bump;
    var restAfterBump := AllDraws(tail) + (second.call.draws + []);
    var c1 := CallKeepsContract(l, c, tags, first, AllDraws(mid) + (bump.call.draws + restAfterBump));
    EvolvesValid(c, c1, first.at);
    var c2 := RunKeepsContract(Perform(l, first), c1, tags, first.at, mid, bump.call.draws + restAfterBump);
    EvolvesValid(c1, c2, first.at);
    var l2 := Run(Perform(l, first), mid);
    BacksLater(l2, EndOf(first.at, mid), bump.at, c2, tags);
    var c3 := CallKeepsContract(l2, c2, tags, bump, restAfterBump);
    EvolvesValid(c2, c3, bump.at);
    var c4 := RunKeepsContract(Perform(l2, bump), c3, tags, bump.at, tail, second.call.draws + []);
    EvolvesValid(c3, c4, bump.at);
    var l4 := Run(Perform(l2, bump), tail);
    BacksLater(l4, EndOf(bump.at, tail), second.at, c4, tags);
    var c5 := CallKeepsContract(l4, c4, tags, second, []);
    var r1 := GetTagged(l, first.call.key, first.call.genKeys, first.call.genTTL, first.at, first.call.draws).0;
    if r1.Ok? && Bump(l2, bump.call.genKeys, bump.call.genTTL, bump.at, bump.call.draws).0.None? {
      OrderedEnds(first.at, mid);
      BumpedGensRetire(c, c1, c2, c3, c4, first.at, bump.at, first.call.genKeys, r1.value.gens, i, bump.call.genKeys);
    }
  }

  lemma {:induction false} OrderedEnds(start: int, calls: seq<Timed>)
    requires Ordered(start, calls)
    ensures start <= EndOf(start, calls)
    decreases |calls|
  {
    if calls == [] {
    } else {
      OrderedEnds(calls[0].at, calls[1..]);
    }
  }

  lemma BumpedGensRetire(c: A.Counters, c1: A.Counters, c2: A.Counters, c3: A.Counters, c4: A.Counters, since: int,
                         later: int, ks: seq<string>, gens: seq<nat>, i: nat, bumped: seq<string>)
    requires A.CurrentGens(c, c1, ks, gens) && i < |ks| && ks[i] in bumped && since <= later && A.Evolves(c, c1, since)
    requires A.Evolves(c1, c2, since) && A.Evolves(c2, c3, later) && A.Evolves(c3, c4, later) &&
             AllBumped(c2, c3, bumped)
    ensures A.Retired(c4, gens[i])
  {
    hide A.Valid, A.StaysRetired;
    A.EraGrows(c, c1, ks[i], since);
    A.EraGrows(c1, c2, ks[i], since);
    OldGenRetired(c3, gens[i], ks[i]);
    StaysSo(c3, c4, later, gens[i]);
  }

  lemma OldGenRetired(c: A.Counters, g: nat, k: string)
    requires A.Valid(c) && g in c.issued && c.issued[g].key == k && c.issued[g].era < A.Era(c.log, k)
    ensures A.Retired(c, g)
  {
  }

  lemma StaysSo(c: A.Counters, d: A.Counters, since: int, g: nat)
    requires A.Evolves(c, d, since) && A.Retired(c, g)
    ensures A.Retired(d, g)
  {
  }

  // ---- The entries ----

  /** What the last accepted Set under `key` stored, unless it was deleted since. */
  function LastSet(calls: seq<Timed>, key: string): Option<L.Item>
    decreases |calls|
  {
    if calls == [] then None
    else
      var last := calls[|calls| - 1];
      match last.call
      case SetCall(k, value, ttl) =>
        if k == key && ttl > 0 then Some(L.Item(key, value, last.at + ttl)) else LastSet(calls[..|calls| - 1], key)
      case DeleteCall(k) => if k == key then None else LastSet(calls[..|calls| - 1], key)
      case _ => LastSet(calls[..|calls| - 1], key)
  }

  /** What is under `key` is as it was, or gone. */
  ghost predicate KeptOrGone(a: seq<L.Item>, b: seq<L.Item>, key: string) {
    Find(b, key) == None || Find(b, key) == Find(a, key)
  }

  lemma CounterKeepsEntries(l: L.Lru, k: string, ttl: int, now: int, draw: Option<nat>, key: string)
    requires L.Valid(l) && key != k
    ensures KeptOrGone(l.items, Counter(l, k, ttl, now, draw).1.items, key)
  {
    hide L.Get, L.Set, Find, DrawnFrom;
    var l1 := L.Get(l, k, now).1;
    L.GetValid(l, k, now);
    GetDraws(l, k, now);
    FindDrawn(l1.items, l.items, k, key);
    if draw.Some? {
      var item := L.Item(k, PutUint64(A.NewGeneration(draw.value)), now + ttl);
      SetDraws(l1, item);
      FindDrawn(L.Set(l1, item).items, l1.items, k, key);
    }
  }

  lemma {:induction false} CountersKeepEntries(l: L.Lru, ks: seq<string>, ttl: int, now: int, draws: seq<Option<nat>>,
                                               key: string)
    requires L.Valid(l) && |draws| == |ks| && key !in ks
    ensures KeptOrGone(l.items, Counters(l, ks, ttl, now, draws).1.items, key)
    decreases |ks|
  {
    hide Counter, Find;
    if ks == [] {
    } else {
      var last := |ks| - 1;
      CountersKeepEntries(l, ks[..last], ttl, now, draws[..last], key);
      CountersValid(l, ks[..last], ttl, now, draws[..last]);
      CounterKeepsEntries(Counters(l, ks[..last], ttl, now, draws[..last]).1, ks[last], ttl, now, draws[last], key);
    }
  }

  lemma AdvanceKeepsEntries(l: L.Lru, k: string, ttl: int, now: int, draw: Option<nat>, key: string)
    requires L.Valid(l) && key != k
    ensures KeptOrGone(l.items, Advance(l, k, ttl, now, draw).1.items, key)
  {
    hide Counter, L.Set, Find, DrawnFrom;
    CounterKeepsEntries(l, k, ttl, now, draw, key);
    CounterValid(l, k, ttl, now, draw);
    var (g, l1) := Counter(l, k, ttl, now, draw);
    if g.Some? {
      var item := L.Item(k, PutUint64((g.value + 1) % TWO_TO_64), now + ttl);
      SetDraws(l1, item);
      FindDrawn(L.Set(l1, item).items, l1.items, k, key);
    }
  }

  lemma {:induction false} AdvancesKeepEntries(l: L.Lru, ks: seq<string>, ttl: int, now: int, draws: seq<Option<nat>>,
                                               key: string)
    requires L.Valid(l) && |draws| == |ks| && key !in ks
    ensures KeptOrGone(l.items, Advances(l, ks, ttl, now, draws).1.items, key)
    decreases |ks|
  {
    hide Advance, Find;
    if ks == [] {
    } else {
      var last := |ks| - 1;
      AdvancesKeepEntries(l, ks[..last], ttl, now, draws[..last], key);
      AdvancesValid(l, ks[..last], ttl, now, draws[..last]);
      AdvanceKeepsEntries(Advances(l, ks[..last], ttl, now, draws[..last]).1, ks[last], ttl, now, draws[last], key);
    }
  }

  lemma GetKeepsEntries(l: L.Lru, k: string, now: int, key: string)
    requires L.Valid(l)
    ensures KeptOrGone(l.items, L.Get(l, k, now).1.items, key)
  {
    if key != k {
      GetDraws(l, k, now);
      FindDrawn(L.Get(l, k, now).1.items, l.items, k, key);
    } else {
      GetFindsOwn(l, k, now);
    }
  }

  lemma GetFindsOwn(l: L.Lru, k: string, now: int)
    requires L.Valid(l)
    ensures KeptOrGone(l.items, L.Get(l, k, now).1.items, k)
  {
    L.GetValid(l, k, now);
    L.WithoutHasNot(l.items, k);
    var items := L.Get(l, k, now).1.items;
    var i := L.IndexOf(l.items, k);
    if i < |l.items| && now < l.items[i].expires {
      FindAt(items, k, 0);
    }
  }

  lemma GetTaggedKeepsEntries(l: L.Lru, k: string, ks: seq<string>, ttl: int, now: int, draws: seq<Option<nat>>,
                              key: string)
    requires L.Valid(l) && |draws| == |ks| && key !in ks
    ensures KeptOrGone(l.items, GetTagged(l, k, ks, ttl, now, draws).1.items, key)
    ensures L.Valid(GetTagged(l, k, ks, ttl, now, draws).1)
  {
    hide L.Get, Counters, Find;
    GetKeepsEntries(l, k, now, key);
    L.GetValid(l, k, now);
    CountersKeepEntries(L.Get(l, k, now).1, ks, ttl, now, draws, key);
    CountersValid(L.Get(l, k, now).1, ks, ttl, now, draws);
  }

  /** A call leaves under `key` what it set there, or what was there, or nothing. */
  lemma CallKeepsEntries(l: L.Lru, t: Timed, tags: set<string>, key: string)
    requires L.Valid(l) && Tidy(t.call, tags) && key !in tags
    ensures L.Valid(Perform(l, t))
    ensures t.call.SetCall? && t.call.key == key && t.call.ttl > 0 ==>
              var found := Find(Perform(l, t).items, key);
              found == None || found == Some(L.Item(key, t.call.value, t.at + t.call.ttl))
    ensures t.call.DeleteCall? && t.call.key == key ==> Find(Perform(l, t).items, key) == None
    ensures !(t.call.SetCall? && t.call.key == key && t.call.ttl > 0) && !(t.call.DeleteCall? && t.call.key == key) ==>
              KeptOrGone(l.items, Perform(l, t).items, key)
  {
    hide L.Get, L.Set, Counters, Advances, Find, DrawnFrom, GetTagged;
    match t.call {
      case GetCall(k) =>
        L.GetValid(l, k, t.at);
        GetKeepsEntries(l, k, t.at, key);
      case SetCall(k, value, ttl) =>
        var item := L.Item(k, value, t.at + ttl);
        L.SetValid(l, item);
        SetDraws(l, item);
        if k != key {
          FindDrawn(L.Set(l, item).items, l.items, k, key);
        }
      case DeleteCall(k) =>
        L.DeleteValid(l, k);
        DeleteFinds(l, k, key);
      case GetTaggedCall(k, ks, ttl, draws) => GetTaggedKeepsEntries(l, k, ks, ttl, t.at, draws, key);
      case BumpCall(ks, ttl, draws) =>
        AdvancesKeepEntries(l, ks, ttl, t.at, draws, key);
        AdvancesValid(l, ks, ttl, t.at, draws);
    }
  }

  lemma DeleteFinds(l: L.Lru, k: string, key: string)
    requires L.Valid(l)
    ensures KeptOrGone(l.items, L.Delete(l, k).items, key)
    ensures k == key ==> Find(L.Delete(l, k).items, key) == None
  {
    L.WithoutHasNot(l.items, k);
    if k != key {
      FindDrawn(L.Delete(l, k).items, l.items, k, key);
    }
  }

  lemma {:induction false} RunSnoc(l: L.Lru, calls: seq<Timed>, last: Timed)
    requires l.maxEntries > 0 && l.maxBytes > 0 && CallOk(last.call) && AllOk(calls)
    ensures Run(l, calls + [last]) == Perform(Run(l, calls), last)
    decreases |calls|
  {
    hide Perform;
    if calls == [] {
      assert [] + [last] == [last];
    } else {
      RunSnoc(Perform(l, calls[0]), calls[1..], last);
      assert (calls + [last])[1..] == calls[1..] + [last];
    }
  }

  /** What a run leaves under an entry's key is what was last set there and not deleted, or nothing. */
  lemma {:induction false} RunKeepsEntries(l: L.Lru, tags: set<string>, calls: seq<Timed>, key: string)
    requires L.Valid(l) && l.items == [] && key !in tags
    requires AllTidy(calls, tags)
    ensures L.Valid(Run(l, calls))
    ensures Find(Run(l, calls).items, key) == None || Find(Run(l, calls).items, key) == LastSet(calls, key)
    decreases |calls|
  {
    hide Find, Perform, Run;
    if calls == [] {
      EmptyRun(l, key);
    } else {
      var last := |calls| - 1;
      var before := calls[..last];
      assert calls == before + [calls[last]];
      RunKeepsEntries(l, tags, before, key);
      RunSnoc(l, before, calls[last]);
      CallKeepsEntries(Run(l, before), calls[last], tags, key);
    }
  }

  lemma EmptyRun(l: L.Lru, key: string)
    requires L.Valid(l) && l.items == []
    ensures Run(l, []) == l && Find(l.items, key) == None
  {
  }

  /** Over every sequence of calls, an answer is the value last set under its key, unexpired and not deleted. */
  lemma AnswersAreLastSet(entries: int, bytes: int, reporting: bool, tags: set<string>, calls: seq<Timed>, key: string,
                          now: int)
    requires entries > 0 && bytes > 0 && key !in tags
    requires AllTidy(calls, tags)
    ensures var answer := L.Get(Run(L.Lru(entries, bytes, reporting, [], []), calls), key, now).0;
            answer.Some? ==>
              LastSet(calls, key).Some? && LastSet(calls, key).value.value == answer.value &&
                now < LastSet(calls, key).value.expires
  {
    RunKeepsEntries(L.Lru(entries, bytes, reporting, [], []), tags, calls, key);
  }
}
