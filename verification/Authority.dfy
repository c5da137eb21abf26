/**
  The authority's generation counters: the contract of `TagStore` (tagstore.go).

  `live` is what the store holds. `issued` and `log` are history: every generation any counter ever
  held, and when each counter was bumped. Two assumptions replace "unpredictable" by something
  provable: at most `limit` bumps ever happen, and no draw lies within `limit` of a generation any
  counter ever held.
 */
module Authority {
  import opened Common

  const TWO_TO_62: nat := 0x4000_0000_0000_0000

  /** `root` is the draw the generation descends from by bumps; `era` counts its counter's bumps until it was issued. */
  datatype Issue = Issue(key: string, root: nat, era: nat)

  /** For each counter, the times of its bumps, oldest first. */
  type Log = map<string, seq<int>>

  datatype Counters = Counters(live: map<string, nat>, issued: map<nat, Issue>, log: Log, bumps: nat, limit: nat)

  function BumpTimes(log: Log, k: string): seq<int> {
    if k in log then log[k] else []
  }

  function Era(log: Log, k: string): nat {
    |BumpTimes(log, k)|
  }

  /** NewGeneration: the drawn 64 bits, reduced to [1, 2^62). */
  function NewGeneration(bits: nat): (g: nat)
    ensures 1 <= g < TWO_TO_62
  {
    bits % (TWO_TO_62 - 1) + 1
  }

  ghost predicate FreshDraw(c: Counters, draw: nat) {
    && 1 <= draw < TWO_TO_62
    && forall v :: v in c.issued ==> draw > v + c.limit || draw + c.limit < v
  }

  // ---- Operations ----

  /** What the environment decides while one counter is looked at: losses before and after, and the draw. */
  datatype Chance = Chance(before: set<string>, draw: nat, after: set<string>)

  /** Eviction, expiry and deletion of counters. */
  function Lose(c: Counters, ks: set<string>): Counters {
    c.(live := c.live - ks)
  }

  function Held(c: Counters, k: string, draw: nat): (r: Counters)
    ensures k in r.live
  {
    if k in c.live then c else Created(c, k, draw)
  }

  function Advanced(c: Counters, k: string, now: int): Counters
    requires k in c.live
  {
    var g := c.live[k];
    var root := if g in c.issued then c.issued[g].root else g;
    c.(live := c.live[k := g + 1],
       issued := c.issued[g + 1 := Issue(k, root, Era(c.log, k) + 1)],
       log := c.log[k := BumpTimes(c.log, k) + [now]],
       bumps := c.bumps + 1)
  }

  ghost predicate ChanceOk(c: Counters, k: string, ch: Chance) {
    k !in Lose(c, ch.before).live ==> FreshDraw(c, ch.draw)
  }

  /** The generation a read of counter `k` answers, and the counters it leaves. */
  function Fetched(c: Counters, k: string, ch: Chance): (nat, Counters) {
    var held := Held(Lose(c, ch.before), k, ch.draw);
    (held.live[k], Lose(held, ch.after))
  }

  /** GetTagged's loop over the counters: each generation was held during the step, in order. */
  function Read(c: Counters, ks: seq<string>, chs: seq<Chance>): (seq<nat>, Counters)
    requires |chs| == |ks|
    decreases |ks|
  {
    if ks == [] then ([], c)
    else
      var last := |ks| - 1;
      var (gens, mid) := Read(c, ks[..last], chs[..last]);
      var (g, end) := Fetched(mid, ks[last], chs[last]);
      (gens + [g], end)
  }

  ghost predicate ChancesOk(c: Counters, ks: seq<string>, chs: seq<Chance>)
    requires |chs| == |ks|
    decreases |ks|
  {
    ks == [] ||
    var last := |ks| - 1;
    ChancesOk(c, ks[..last], chs[..last]) && ChanceOk(Read(c, ks[..last], chs[..last]).1, ks[last], chs[last])
  }

  /** Bump of one counter at time `now`. */
  function Bumped(c: Counters, k: string, ch: Chance, now: int): Counters {
    Lose(Advanced(Held(Lose(c, ch.before), k, ch.draw), k, now), ch.after)
  }

  /** Bump's loop over several counters. */
  function BumpedAll(c: Counters, ks: seq<string>, chs: seq<Chance>, now: int): Counters
    requires |chs| == |ks|
    decreases |ks|
  {
    if ks == [] then c
    else
      var last := |ks| - 1;
      Bumped(BumpedAll(c, ks[..last], chs[..last], now), ks[last], chs[last], now)
  }

  ghost predicate BumpChancesOk(c: Counters, ks: seq<string>, chs: seq<Chance>, now: int)
    requires |chs| == |ks|
    decreases |ks|
  {
    ks == [] ||
    var last := |ks| - 1;
    BumpChancesOk(c, ks[..last], chs[..last], now) &&
      ChanceOk(BumpedAll(c, ks[..last], chs[..last], now), ks[last], chs[last])
  }

  // ---- The invariant ----

  ghost predicate SameRun(issued: map<nat, Issue>, v: nat, w: nat)
    requires v in issued && w in issued
  {
    issued[v].root == issued[w].root
  }

  /** Generations descending from different draws keep a distance the `slack` remaining bumps cannot bridge. */
  ghost predicate Apart(issued: map<nat, Issue>, slack: int) {
    forall v, w :: v in issued && w in issued && issued[v].root < issued[w].root ==> v + slack < issued[w].root
  }

  ghost predicate IssuesOk(issued: map<nat, Issue>, log: Log, bumps: nat) {
    && (forall v :: v in issued ==>
          && issued[v].root <= v <= issued[v].root + bumps
          && 1 <= issued[v].root < TWO_TO_62
          && issued[v].era <= Era(log, issued[v].key))
    && (forall v, w :: v in issued && w in issued && SameRun(issued, v, w) ==> issued[v].key == issued[w].key)
  }

  ghost predicate Rooted(issued: map<nat, Issue>, v: nat)
    requires v in issued
  {
    issued[v].root in issued
  }

  /** Every generation descends from a draw some counter held. */
  ghost predicate RootsHeld(issued: map<nat, Issue>) {
    forall v {:trigger Rooted(issued, v)} :: v in issued ==> Rooted(issued, v)
  }

  /** A counter holds the newest generation of its run, issued in its present era. */
  ghost predicate LiveOk(live: map<string, nat>, issued: map<nat, Issue>, log: Log) {
    forall k :: k in live ==>
      && live[k] in issued
      && issued[live[k]].key == k
      && issued[live[k]].era == Era(log, k)
      && (forall v :: v in issued && SameRun(issued, v, live[k]) ==> v <= live[k])
  }

  ghost predicate Valid(c: Counters) {
    && c.bumps <= c.limit < TWO_TO_62
    && IssuesOk(c.issued, c.log, c.bumps)
    && RootsHeld(c.issued)
    && Apart(c.issued, c.limit - c.bumps)
    && LiveOk(c.live, c.issued, c.log)
  }

  function Created(c: Counters, k: string, draw: nat): Counters {
    c.(live := c.live[k := draw], issued := c.issued[draw := Issue(k, draw, Era(c.log, k))])
  }

  lemma CreatedApart(c: Counters, k: string, draw: nat)
    requires Valid(c) && FreshDraw(c, draw)
    ensures Apart(Created(c, k, draw).issued, c.limit - c.bumps)
  {
  }

  lemma CreatedRoots(c: Counters, k: string, draw: nat)
    requires Valid(c) && FreshDraw(c, draw)
    ensures RootsHeld(Created(c, k, draw).issued)
  {
    var d := Created(c, k, draw);
    forall v | v in d.issued
      ensures Rooted(d.issued, v)
    {
      if v != draw {
        assert Rooted(c.issued, v);
      }
    }
  }

  lemma CreatedIssues(c: Counters, k: string, draw: nat)
    requires Valid(c) && FreshDraw(c, draw)
    ensures IssuesOk(Created(c, k, draw).issued, c.log, c.bumps)
  {
    var d := Created(c, k, draw);
    assert draw !in c.issued;
    forall v, w | v in d.issued && w in d.issued && SameRun(d.issued, v, w)
      ensures d.issued[v].key == d.issued[w].key
    {
      if v != draw && w != draw {
        assert SameRun(c.issued, v, w);
      } else {
        RootsIssued(c, draw, if v == draw then w else v);
      }
    }
  }

  /** No generation issued so far descends from a fresh draw. */
  lemma RootsIssued(c: Counters, draw: nat, v: nat)
    requires Valid(c) && FreshDraw(c, draw)
    ensures v in c.issued ==> c.issued[v].root != draw
  {
  }

  lemma CreatedLive(c: Counters, k: string, draw: nat)
    requires Valid(c) && FreshDraw(c, draw)
    ensures LiveOk(Created(c, k, draw).live, Created(c, k, draw).issued, c.log)
  {
    var d := Created(c, k, draw);
    assert draw !in c.issued;
    forall l | l in d.live
      ensures d.live[l] in d.issued && d.issued[d.live[l]].key == l
      ensures d.issued[d.live[l]].era == Era(d.log, l)
      ensures forall v :: v in d.issued && SameRun(d.issued, v, d.live[l]) ==> v <= d.live[l]
    {
      forall v | v in d.issued && SameRun(d.issued, v, d.live[l])
        ensures v <= d.live[l]
      {
        if v != draw && d.live[l] != draw {
          assert SameRun(c.issued, v, d.live[l]);
        } else {
          RootsIssued(c, draw, if v == draw then d.live[l] else v);
        }
      }
    }
  }

  lemma HeldValid(c: Counters, k: string, ch: Chance)
    requires Valid(c) && ChanceOk(c, k, ch)
    ensures Valid(Held(Lose(c, ch.before), k, ch.draw))
  {
    LoseValid(c, ch.before);
    var c1 := Lose(c, ch.before);
    if k !in c1.live {
      assert FreshDraw(c1, ch.draw);
      CreatedIssues(c1, k, ch.draw);
      CreatedRoots(c1, k, ch.draw);
      CreatedApart(c1, k, ch.draw);
      CreatedLive(c1, k, ch.draw);
    }
  }

  /** A bump moves a counter to a generation no counter ever held. */
  lemma NextIsNew(c: Counters, k: string)
    requires Valid(c) && k in c.live && c.bumps < c.limit
    ensures c.live[k] + 1 !in c.issued
    ensures c.live[k] + 1 < TWO_TO_64
  {
  }

  lemma AdvancedValid(c: Counters, k: string, now: int)
    requires Valid(c) && k in c.live && c.bumps < c.limit
    ensures Valid(Advanced(c, k, now))
  {
    NextIsNew(c, k);
    var g := c.live[k];
    var c' := Advanced(c, k, now);
    forall v | v in c.issued
      ensures c'.issued[v] == c.issued[v]
    {
    }
    forall l | l != k
      ensures BumpTimes(c'.log, l) == BumpTimes(c.log, l)
    {
    }
    assert RootsHeld(c'.issued) by {
      forall v | v in c'.issued
        ensures Rooted(c'.issued, v)
      {
        assert Rooted(c.issued, if v == g + 1 then g else v);
      }
    }
    AdvancedIssues(c, k, now);
    AdvancedApart(c, k, now);
    AdvancedLive(c, k, now);
  }

  lemma AdvancedIssues(c: Counters, k: string, now: int)
    requires Valid(c) && k in c.live && c.bumps < c.limit && c.live[k] + 1 !in c.issued
    ensures IssuesOk(Advanced(c, k, now).issued, Advanced(c, k, now).log, c.bumps + 1)
  {
    var g := c.live[k];
    var c' := Advanced(c, k, now);
    forall v | v in c'.issued
      ensures c'.issued[v].root <= v <= c'.issued[v].root + c'.bumps
      ensures c'.issued[v].era <= Era(c'.log, c'.issued[v].key)
    {
      if v != g + 1 {
        assert c'.issued[v] == c.issued[v];
      }
    }
    forall v, w | v in c'.issued && w in c'.issued && SameRun(c'.issued, v, w)
      ensures c'.issued[v].key == c'.issued[w].key
    {
      var v0 := if v == g + 1 then g else v;
      var w0 := if w == g + 1 then g else w;
      assert SameRun(c.issued, v0, w0);
    }
  }

  lemma AdvancedApart(c: Counters, k: string, now: int)
    requires Valid(c) && k in c.live && c.bumps < c.limit && c.live[k] + 1 !in c.issued
    ensures Apart(Advanced(c, k, now).issued, c.limit - c.bumps - 1)
  {
  }

  lemma AdvancedLive(c: Counters, k: string, now: int)
    requires Valid(c) && k in c.live && c.bumps < c.limit && c.live[k] + 1 !in c.issued
    ensures LiveOk(Advanced(c, k, now).live, Advanced(c, k, now).issued, Advanced(c, k, now).log)
  {
    var g := c.live[k];
    var c' := Advanced(c, k, now);
    forall l | l in c'.live
      ensures c'.live[l] in c'.issued && c'.issued[c'.live[l]].key == l
      ensures c'.issued[c'.live[l]].era == Era(c'.log, l)
      ensures forall v :: v in c'.issued && SameRun(c'.issued, v, c'.live[l]) ==> v <= c'.live[l]
    {
      if l != k {
        assert c'.live[l] == c.live[l] && c'.issued[c.live[l]] == c.issued[c.live[l]];
        assert !SameRun(c.issued, g, c.live[l]);
      }
      forall v | v in c'.issued && SameRun(c'.issued, v, c'.live[l])
        ensures v <= c'.live[l]
      {
        if v != g + 1 {
          assert SameRun(c.issued, v, c.live[l]);
        }
      }
    }
  }

  lemma LoseValid(c: Counters, ks: set<string>)
    requires Valid(c)
    ensures Valid(Lose(c, ks))
  {
  }

  // ---- Growth ----

  /** `d` is `c` later: history only grows, and every bump since carries a time of `since` or later. */
  ghost predicate Later(c: Counters, d: Counters, since: int) {
    && c.limit == d.limit
    && (forall v :: v in c.issued ==> v in d.issued && d.issued[v] == c.issued[v])
    && (forall k :: BumpTimes(c.log, k) <= BumpTimes(d.log, k))
    && (forall k, n :: Era(c.log, k) <= n < Era(d.log, k) ==> BumpTimes(d.log, k)[n] >= since)
  }

  /** A generation that is not its counter's value now: bumped away, lost, or replaced. */
  predicate Retired(c: Counters, g: nat) {
    g in c.issued && !(c.issued[g].key in c.live && c.live[c.issued[g].key] == g)
  }

  /** Nothing retired at `c` is in use at `d`. */
  ghost predicate StaysRetired(c: Counters, d: Counters) {
    forall g :: Retired(c, g) ==> Retired(d, g)
  }

  ghost predicate Evolves(c: Counters, d: Counters, since: int) {
    Valid(d) && Later(c, d, since) && StaysRetired(c, d)
  }

  lemma EvolvesTransitive(a: Counters, b: Counters, c: Counters, since: int)
    requires Evolves(a, b, since) && Evolves(b, c, since)
    ensures Evolves(a, c, since)
  {
  }

  lemma EvolvesReflexive(c: Counters, since: int)
    requires Valid(c)
    ensures Evolves(c, c, since)
  {
  }

  lemma LoseEvolves(c: Counters, ks: set<string>, since: int)
    requires Valid(c)
    ensures Evolves(c, Lose(c, ks), since)
  {
  }

  lemma HeldEvolves(c: Counters, k: string, ch: Chance, since: int)
    requires Valid(c) && ChanceOk(c, k, ch)
    ensures Evolves(c, Held(Lose(c, ch.before), k, ch.draw), since)
    ensures Held(Lose(c, ch.before), k, ch.draw).log == c.log
    ensures Held(Lose(c, ch.before), k, ch.draw).bumps == c.bumps
  {
    HeldValid(c, k, ch);
    var c1 := Lose(c, ch.before);
    var c2 := Held(c1, k, ch.draw);
    forall g | Retired(c, g)
      ensures Retired(c2, g)
    {
      assert k !in c1.live ==> ch.draw !in c.issued;
    }
  }

  lemma AdvancedLater(c: Counters, k: string, now: int)
    requires k in c.live && c.live[k] + 1 !in c.issued
    ensures Later(c, Advanced(c, k, now), now)
  {
    var d := Advanced(c, k, now);
    forall l
      ensures BumpTimes(d.log, l) == BumpTimes(c.log, l) + if l == k then [now] else []
    {
    }
  }

  lemma AdvancedEvolves(c: Counters, k: string, now: int)
    requires Valid(c) && k in c.live && c.bumps < c.limit
    ensures Evolves(c, Advanced(c, k, now), now)
  {
    NextIsNew(c, k);
    AdvancedValid(c, k, now);
    AdvancedLater(c, k, now);
  }

  /** One read of a counter: what it answers is the counter's current generation, held during the step. */
  lemma FetchedFacts(c: Counters, k: string, ch: Chance, since: int)
    requires Valid(c) && ChanceOk(c, k, ch)
    ensures var (g, d) := Fetched(c, k, ch);
            && Evolves(c, d, since)
            && d.log == c.log && d.bumps == c.bumps
            && g in d.issued && d.issued[g].key == k && d.issued[g].era == Era(c.log, k)
            && !Retired(c, g)
  {
    HeldEvolves(c, k, ch, since);
    var held := Held(Lose(c, ch.before), k, ch.draw);
    LoseEvolves(held, ch.after, since);
    EvolvesTransitive(c, held, Lose(held, ch.after), since);
    assert k in Lose(c, ch.before).live || ch.draw !in c.issued;
  }

  /** `gens` are generations the counters of `ks` held, one each. */
  ghost predicate GensOf(c: Counters, ks: seq<string>, gens: seq<nat>) {
    && |gens| == |ks|
    && forall i :: 0 <= i < |ks| ==> gens[i] in c.issued && c.issued[gens[i]].key == ks[i]
  }

  /** `gens` were the current generations of `ks` while the counters went from `c` to `d`. */
  ghost predicate CurrentGens(c: Counters, d: Counters, ks: seq<string>, gens: seq<nat>) {
    && GensOf(d, ks, gens)
    && forall i :: 0 <= i < |ks| ==> d.issued[gens[i]].era == Era(c.log, ks[i]) && !Retired(c, gens[i])
  }

  lemma CurrentGensAppend(c: Counters, mid: Counters, d: Counters, ks: seq<string>, gens: seq<nat>, g: nat)
    requires ks != [] && CurrentGens(c, mid, ks[..|ks| - 1], gens) && Later(mid, d, 0)
    requires g in d.issued && d.issued[g].key == ks[|ks| - 1]
    requires d.issued[g].era == Era(c.log, ks[|ks| - 1]) && !Retired(c, g)
    ensures CurrentGens(c, d, ks, gens + [g])
  {
  }

  /** GetTagged answers, for every counter, a generation that is current, and disturbs no history. */
  lemma {:induction false} ReadFacts(c: Counters, ks: seq<string>, chs: seq<Chance>, since: int)
    requires |chs| == |ks| && Valid(c) && ChancesOk(c, ks, chs)
    ensures var (gens, d) := Read(c, ks, chs);
            && Evolves(c, d, since) && d.log == c.log && d.bumps == c.bumps
            && CurrentGens(c, d, ks, gens)
    decreases |ks|
  {
    if ks == [] {
      EvolvesReflexive(c, since);
    } else {
      var last := |ks| - 1;
      ReadFacts(c, ks[..last], chs[..last], since);
      var (gens, mid) := Read(c, ks[..last], chs[..last]);
      FetchedFacts(mid, ks[last], chs[last], since);
      FetchedFacts(mid, ks[last], chs[last], 0);
      var (g, d) := Fetched(mid, ks[last], chs[last]);
      EvolvesTransitive(c, mid, d, since);
      assert !Retired(c, g);
      CurrentGensAppend(c, mid, d, ks, gens, g);
    }
  }

  /** A bump adds exactly one entry to its counter's log, and retires every generation the counter had. */
  lemma BumpedFacts(c: Counters, k: string, ch: Chance, now: int)
    requires Valid(c) && ChanceOk(c, k, ch) && c.bumps < c.limit
    ensures var d := Bumped(c, k, ch, now);
            && Evolves(c, d, now)
            && d.log == c.log[k := BumpTimes(c.log, k) + [now]]
            && (forall g :: g in c.issued && c.issued[g].key == k ==> Retired(d, g))
  {
    HeldEvolves(c, k, ch, now);
    var held := Held(Lose(c, ch.before), k, ch.draw);
    AdvancedEvolves(held, k, now);
    var adv := Advanced(held, k, now);
    LoseEvolves(adv, ch.after, now);
    EvolvesTransitive(c, held, adv, now);
    EvolvesTransitive(c, adv, Lose(adv, ch.after), now);
    NextIsNew(held, k);
  }

  /** Bumps of several counters, one after the other, are bumps all the same. */
  lemma {:induction false} BumpedAllFacts(c: Counters, ks: seq<string>, chs: seq<Chance>, now: int)
    requires |chs| == |ks| && Valid(c) && BumpChancesOk(c, ks, chs, now) && c.bumps + |ks| <= c.limit
    ensures Evolves(c, BumpedAll(c, ks, chs, now), now)
    ensures BumpedAll(c, ks, chs, now).bumps == c.bumps + |ks|
    decreases |ks|
  {
    if ks == [] {
      EvolvesReflexive(c, now);
    } else {
      var last := |ks| - 1;
      var mid := BumpedAll(c, ks[..last], chs[..last], now);
      BumpedAllFacts(c, ks[..last], chs[..last], now);
      BumpedFacts(mid, ks[last], chs[last], now);
      BumpedCount(mid, ks[last], chs[last], now);
      EvolvesTransitive(c, mid, Bumped(mid, ks[last], chs[last], now), now);
    }
  }

  lemma BumpedLog(c: Counters, k: string, ch: Chance, now: int)
    ensures Bumped(c, k, ch, now).log == c.log[k := BumpTimes(c.log, k) + [now]]
  {
  }

  /** Each counter named is bumped at least once, and no other at all. */
  lemma {:induction false} BumpedAllEras(c: Counters, ks: seq<string>, chs: seq<Chance>, now: int, k: string)
    requires |chs| == |ks|
    ensures Era(c.log, k) <= Era(BumpedAll(c, ks, chs, now).log, k)
    ensures k in ks <==> Era(c.log, k) < Era(BumpedAll(c, ks, chs, now).log, k)
    decreases |ks|
  {
    hide Bumped;
    if ks == [] {
    } else {
      var last := |ks| - 1;
      BumpedAllEras(c, ks[..last], chs[..last], now, k);
      BumpedLog(BumpedAll(c, ks[..last], chs[..last], now), ks[last], chs[last], now);
      assert ks == ks[..last] + [ks[last]];
    }
  }

  lemma EraGrows(c: Counters, d: Counters, k: string, since: int)
    requires Evolves(c, d, since)
    ensures Era(c.log, k) <= Era(d.log, k)
  {
    assert BumpTimes(c.log, k) <= BumpTimes(d.log, k);
  }

  lemma BumpedCount(c: Counters, k: string, ch: Chance, now: int)
    ensures Bumped(c, k, ch, now).bumps == c.bumps + 1 && Bumped(c, k, ch, now).limit == c.limit
  {
  }

  /** What evolved since a later time has evolved since an earlier one. */
  lemma EvolvesSince(c: Counters, d: Counters, since: int, earlier: int)
    requires Evolves(c, d, since) && earlier <= since
    ensures Evolves(c, d, earlier)
  {
  }

  /** Equal generations are of the same counters: draws are fresh across all of them. */
  lemma GensNameTheirCounters(c: Counters, ks1: seq<string>, ks2: seq<string>, gens: seq<nat>)
    requires GensOf(c, ks1, gens) && GensOf(c, ks2, gens)
    ensures ks1 == ks2
  {
  }

  // ---- With nothing lost ----

  ghost predicate NothingLost(chs: seq<Chance>) {
    forall i :: 0 <= i < |chs| ==> chs[i].before == {} && chs[i].after == {}
  }

  /** A counter that is held answers what it holds, whatever would be drawn, and the read changes nothing. */
  lemma {:induction false} ReadOfLive(c: Counters, ks: seq<string>, chs: seq<Chance>)
    requires |chs| == |ks| && NothingLost(chs) && forall i :: 0 <= i < |ks| ==> ks[i] in c.live
    ensures Read(c, ks, chs).1 == c && |Read(c, ks, chs).0| == |ks|
    ensures forall i :: 0 <= i < |ks| ==> Read(c, ks, chs).0[i] == c.live[ks[i]]
    decreases |ks|
  {
    if ks == [] {
    } else {
      var last := |ks| - 1;
      ReadOfLive(c, ks[..last], chs[..last]);
      FetchedOfLive(c, ks[last], chs[last]);
      assert forall i :: 0 <= i < last ==> ks[..last][i] == ks[i];
    }
  }

  lemma FetchedOfLive(c: Counters, k: string, ch: Chance)
    requires k in c.live && ch.before == {} && ch.after == {}
    ensures Fetched(c, k, ch) == (c.live[k], c)
  {
    assert c.live - {} == c.live;
  }

  /** What a read answered is what the next one answers, until a counter is bumped or lost. */
  lemma ReadAgain(c: Counters, ks: seq<string>, chs: seq<Chance>, again: seq<Chance>)
    requires |chs| == |ks| == |again| && NothingLost(chs) && NothingLost(again)
    ensures Read(Read(c, ks, chs).1, ks, again) == Read(c, ks, chs)
  {
    var (gens, d) := Read(c, ks, chs);
    ReadHolds(c, ks, chs);
    ReadOfLive(d, ks, again);
    assert Read(d, ks, again).0 == gens;
  }

  lemma {:induction false} ReadHolds(c: Counters, ks: seq<string>, chs: seq<Chance>)
    requires |chs| == |ks| && NothingLost(chs)
    ensures var (gens, d) := Read(c, ks, chs);
            && |gens| == |ks| && (forall i :: 0 <= i < |ks| ==> ks[i] in d.live && d.live[ks[i]] == gens[i])
            && (forall l :: l in c.live ==> l in d.live && d.live[l] == c.live[l])
    decreases |ks|
  {
    if ks == [] {
    } else {
      var last := |ks| - 1;
      ReadHolds(c, ks[..last], chs[..last]);
      FetchedHolds(Read(c, ks[..last], chs[..last]).1, ks[last], chs[last]);
      assert forall i :: 0 <= i < last ==> ks[..last][i] == ks[i];
    }
  }

  lemma FetchedHolds(c: Counters, k: string, ch: Chance)
    requires ch.before == {} && ch.after == {}
    ensures var (g, d) := Fetched(c, k, ch);
            && k in d.live && d.live[k] == g && (forall l :: l in c.live ==> l in d.live && d.live[l] == c.live[l])
  {
  }

  /** A bump moves a held counter on by one, a new one from its draw, and leaves every other counter alone. */
  lemma BumpMovesOne(c: Counters, k: string, ch: Chance, now: int)
    requires ch.before == {} && ch.after == {}
    ensures Bumped(c, k, ch, now).live == c.live[k := (if k in c.live then c.live[k] else ch.draw) + 1]
  {
  }

  /** Every generation from 1 to 2^62 - 1 can be drawn, from the bits that say so among others. */
  lemma EveryGenerationDrawn(g: nat, high: nat)
    requires 1 <= g < 0x4000_0000_0000_0000
    ensures NewGeneration(high * 0x3FFF_FFFF_FFFF_FFFF + (g - 1)) == g
  {
  }
}
