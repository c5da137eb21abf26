/**
  The staleness bound of TagSafety.dfy is the exact one: for every L1 TTL and every delay between a
  read's GetTagged and its put there is a run, with every event lost, that serves an invalidated value
  one tick before the bound, with the value written to L1 in the instant of the hit. So the L1 TTL alone
  is not a bound, and what makes this one is the expiry of the copied generations.
 */
module TagStaleness {
  import opened Common
  import opened TagProtocol
  import opened TagSafety
  import A = Authority
  import G = GenCopy
  import K = Keys

  const VALUE := Present("stale")

  /** One more step of a run. */
  lemma {:induction false} Step(cfg: Config, s: State, acts: seq<Action>, a: Action)
    requires Runs(cfg, s, acts) && Enabled(cfg, After(cfg, s, acts), a)
    ensures Runs(cfg, s, acts + [a]) && After(cfg, s, acts + [a]) == Next(cfg, After(cfg, s, acts), a)
    decreases |acts|
  {
    if acts == [] {
      assert [] + [a] == [a];
      assert Runs(cfg, Next(cfg, s, a), []);
    } else {
      Step(cfg, Next(cfg, s, acts[0]), acts[1..], a);
      assert (acts + [a])[0] == acts[0] && (acts + [a])[1..] == acts[1..] + [a];
    }
  }

  /** `acts` runs from an empty cache of two replicas to `s`. */
  ghost predicate Reaches(cfg: Config, limit: nat, acts: seq<Action>, s: State) {
    Runs(cfg, Init({0, 1}, 0, limit), acts) && After(cfg, Init({0, 1}, 0, limit), acts) == s
  }

  lemma Reach(cfg: Config, limit: nat, acts: seq<Action>, s: State, a: Action) returns (more: seq<Action>, t: State)
    requires Reaches(cfg, limit, acts, s) && Enabled(cfg, s, a)
    ensures more == acts + [a] && t == Next(cfg, s, a) && Reaches(cfg, limit, more, t)
  {
    Step(cfg, Init({0, 1}, 0, limit), acts, a);
    more, t := acts + [a], Next(cfg, s, a);
  }

  // ---- The states of the run ----

  const BLANK := Replica(map[], G.EMPTY_COPY, map[])

  function Chances(): seq<A.Chance> {
    [A.Chance({}, 1, {})]
  }

  /** The counter of the slot's tag, created with generation 1. */
  function FirstCounters(key: string, limit: nat): A.Counters {
    A.Counters(map[key := 1], map[1 := A.Issue(key, 1, 0)], map[], 0, limit)
  }

  function BumpedCounters(key: string, limit: nat): A.Counters {
    A.Counters(map[key := 2], map[1 := A.Issue(key, 1, 0), 2 := A.Issue(key, 1, 1)], map[key := [0]], 1, limit)
  }

  /** A Set has read its generations. */
  function SetBegun(slot: Slot, limit: nat): State
    requires |slot.genKeys| == 1
  {
    State(0, FirstCounters(slot.genKeys[0], limit), map[], map[0 := BLANK, 1 := BLANK], map[],
          map[0 := Call(0, false, slot, Some([1]), Loaded(map[], VALUE))], map[], {})
  }

  /** A reader of the same replica has read them too, and is slow to put them. */
  function ReadBegun(slot: Slot, limit: nat): State
    requires |slot.genKeys| == 1
  {
    SetBegun(slot, limit).(readers := map[0 := Reader(0, slot, map[], Fetched(None, G.Epoch(0, [0]), [1], None, 0))])
  }

  /** Another replica has bumped the tag, and its event is lost. */
  function Invalidated(slot: Slot, limit: nat): State
    requires |slot.genKeys| == 1
  {
    ReadBegun(slot, limit).(auth := BumpedCounters(slot.genKeys[0], limit),
                            invalidations := map[0 := Invalidation(1, slot.genKeys[0], Bumped(1))])
  }

  /** `delay` later the reader puts the old generation. */
  function PutLate(cfg: Config, slot: Slot, limit: nat): State
    requires |slot.genKeys| == 1
  {
    var copy := G.Copy(map[slot.genKeys[0] := G.CachedGen(1, cfg.delay + cfg.ttl)], map[], 0);
    Invalidated(slot, limit).(now := cfg.delay, replicas := map[0 := Replica(map[], copy, map[]), 1 := BLANK],
                              readers := map[0 := Reader(0, slot, map[], Stored(None, [1], None, 0))])
  }

  function LateEntry(cfg: Config, slot: Slot): Entry {
    Entry(slot, [1], VALUE, map[], cfg.delay + cfg.ttl)
  }

  function TimePassed(cfg: Config, slot: Slot, limit: nat): State
    requires |slot.genKeys| == 1
  {
    PutLate(cfg, slot, limit).(now := cfg.delay + cfg.ttl - 1)
  }

  /** And the Set writes L2 */
  function WrittenL2(cfg: Config, slot: Slot, limit: nat): State
    requires |slot.genKeys| == 1
  {
    var e := LateEntry(cfg, slot);
    TimePassed(cfg, slot, limit).(l2 := map[slot.pk := e],
      calls := map[0 := Call(0, false, slot, Some([1]), Writing(e))])
  }

  /** and then L1, one tick before the copied generation expires. */
  function WrittenLate(cfg: Config, slot: Slot, limit: nat): State
    requires |slot.genKeys| == 1
  {
    var s := WrittenL2(cfg, slot, limit);
    s.(replicas := map[0 := s.replicas[0].(l1 := map[slot.pk := LateEntry(cfg, slot)]), 1 := BLANK],
       calls := map[0 := Call(0, false, slot, Some([1]), Finished(map[], VALUE))])
  }

  /**
    A reader was served from L1, `delay + ttl - 1` after the slot's tag was bumped, what was set before
    that, on a replica that handled no invalidation.
   */
  ghost predicate ServesInvalidated(cfg: Config, slot: Slot, t: State)
    requires |slot.genKeys| == 1
  {
    && 1 in t.readers && t.readers[1].slot == slot && t.readers[1].phase.Answered?
    && var answer := t.readers[1].phase.answer;
       && answer.source == L1 && answer.payload == VALUE
       && A.BumpTimes(t.auth.log, slot.genKeys[0]) == [0] && answer.at == cfg.delay + cfg.ttl - 1
       && A.Era(answer.asOf, slot.genKeys[0]) == 0
       && t.readers[1].replica in t.replicas && t.replicas[t.readers[1].replica].seen == map[]
  }

  lemma ReadOne(c: A.Counters, ks: seq<string>)
    requires |ks| == 1
    ensures A.Read(c, ks, Chances()) == ([A.Held(c, ks[0], 1).live[ks[0]]], A.Held(c, ks[0], 1))
    ensures A.ChancesOk(c, ks, Chances()) <==> (ks[0] !in c.live ==> A.FreshDraw(c, 1))
  {
    assert A.Read(c, ks[..0], Chances()[..0]) == ([], c);
    NoLoss(c);
    NoLoss(A.Held(c, ks[0], 1));
    assert [] + [A.Held(c, ks[0], 1).live[ks[0]]] == [A.Held(c, ks[0], 1).live[ks[0]]];
  }

  lemma NoLoss(c: A.Counters)
    ensures A.Lose(c, {}) == c
  {
  }

  lemma SetBegins(cfg: Config, slot: Slot, limit: nat) returns (acts: seq<Action>)
    requires |slot.genKeys| == 1 && K.FlightSafe(slot.pk, slot.genKeys)
    ensures Reaches(cfg, limit, acts, SetBegun(slot, limit))
  {
    hide Runs, After;
    var s := Init({0, 1}, 0, limit);
    ReadOne(s.auth, slot.genKeys);
    assert s.replicas == map[0 := BLANK, 1 := BLANK];
    Nothing(cfg, limit);
    acts, s := Reach(cfg, limit, [], s, OfLoad(SetReads(0, 0, slot, VALUE, Chances())));
    assert s == SetBegun(slot, limit);
  }

  lemma Nothing(cfg: Config, limit: nat)
    ensures Reaches(cfg, limit, [], Init({0, 1}, 0, limit))
  {
  }

  lemma ReadBegins(cfg: Config, slot: Slot, limit: nat, before: seq<Action>) returns (acts: seq<Action>)
    requires |slot.genKeys| == 1 && K.FlightSafe(slot.pk, slot.genKeys)
    requires Reaches(cfg, limit, before, SetBegun(slot, limit))
    ensures Reaches(cfg, limit, acts, ReadBegun(slot, limit))
  {
    hide Reaches;
    var s := SetBegun(slot, limit);
    acts, s := Reach(cfg, limit, before, s, OfReader(StartRead(0, 0, slot)));
    acts, s := Reach(cfg, limit, acts, s, OfReader(ReadLocal(0, false)));
    acts, s := Reach(cfg, limit, acts, s, OfReader(CheckLocal(0, true)));
    acts, s := Reach(cfg, limit, acts, s, OfReader(TakeEpoch(0)));
    assert G.Snapshot(G.EMPTY_COPY, slot.genKeys) == G.Epoch(0, [0]);
    ReadOne(s.auth, slot.genKeys);
    acts, s := Reach(cfg, limit, acts, s, OfReader(Fetch(0, Chances())));
    assert s == ReadBegun(slot, limit);
  }

  lemma BumpHappens(cfg: Config, slot: Slot, limit: nat, before: seq<Action>) returns (acts: seq<Action>)
    requires |slot.genKeys| == 1 && limit > 0
    requires Reaches(cfg, limit, before, ReadBegun(slot, limit))
    ensures Reaches(cfg, limit, acts, Invalidated(slot, limit))
  {
    hide Reaches;
    var key := slot.genKeys[0];
    var s := ReadBegun(slot, limit);
    acts, s := Reach(cfg, limit, before, s, OfWorld(BeginInvalidate(0, 1, key)));
    BumpOfFirst(key, limit);
    acts, s := Reach(cfg, limit, acts, s, OfWorld(BumpTag(0, A.Chance({}, 1, {}))));
    assert s == Invalidated(slot, limit);
  }

  lemma BumpOfFirst(key: string, limit: nat)
    ensures A.ChanceOk(FirstCounters(key, limit), key, A.Chance({}, 1, {}))
    ensures A.Bumped(FirstCounters(key, limit), key, A.Chance({}, 1, {}), 0) == BumpedCounters(key, limit)
  {
    var c := FirstCounters(key, limit);
    NoLoss(c);
    NoLoss(A.Advanced(c, key, 0));
    assert c.live[key := 2] == map[key := 2];
    assert c.issued[2 := A.Issue(key, 1, 1)] == map[1 := A.Issue(key, 1, 0), 2 := A.Issue(key, 1, 1)];
    assert A.BumpTimes(c.log, key) + [0] == [0];
    assert c.log[key := [0]] == map[key := [0]];
  }

  lemma ReaderPuts(cfg: Config, slot: Slot, limit: nat, before: seq<Action>) returns (acts: seq<Action>)
    requires ConfigOk(cfg) && |slot.genKeys| == 1
    requires Reaches(cfg, limit, before, Invalidated(slot, limit))
    ensures Reaches(cfg, limit, acts, PutLate(cfg, slot, limit))
  {
    hide Reaches, G.Store;
    var s := Invalidated(slot, limit);
    acts, s := Reach(cfg, limit, before, s, OfWorld(Tick(cfg.delay)));
    PutOfFirst(slot.genKeys, cfg.delay + cfg.ttl);
    acts, s := Reach(cfg, limit, acts, s, OfReader(StoreGens(0)));
    assert s == PutLate(cfg, slot, limit);
  }

  lemma PutOfFirst(ks: seq<string>, expires: int)
    requires |ks| == 1
    ensures G.Store(G.EMPTY_COPY, ks, [1], G.Epoch(0, [0]), expires) ==
            G.Copy(map[ks[0] := G.CachedGen(1, expires)], map[], 0)
  {
    assert G.Filled(map[], ks[..0], [1][..0], expires) == map[];
  }

  lemma TimePasses(cfg: Config, slot: Slot, limit: nat, before: seq<Action>) returns (acts: seq<Action>)
    requires ConfigOk(cfg) && |slot.genKeys| == 1
    requires Reaches(cfg, limit, before, PutLate(cfg, slot, limit))
    ensures Reaches(cfg, limit, acts, TimePassed(cfg, slot, limit))
  {
    hide Reaches;
    var s;
    acts, s := Reach(cfg, limit, before, PutLate(cfg, slot, limit), OfWorld(Tick(cfg.ttl - 1)));
  }

  lemma SetWritesL2(cfg: Config, slot: Slot, limit: nat, before: seq<Action>) returns (acts: seq<Action>)
    requires ConfigOk(cfg) && |slot.genKeys| == 1
    requires Reaches(cfg, limit, before, TimePassed(cfg, slot, limit))
    ensures Reaches(cfg, limit, acts, WrittenL2(cfg, slot, limit))
  {
    hide Reaches;
    var s := TimePassed(cfg, slot, limit);
    acts, s := Reach(cfg, limit, before, s, OfLoad(WriteL2(0, cfg.delay + cfg.ttl, true)));
    assert s == WrittenL2(cfg, slot, limit);
  }

  lemma SetWritesL1(cfg: Config, slot: Slot, limit: nat, before: seq<Action>) returns (acts: seq<Action>)
    requires ConfigOk(cfg) && |slot.genKeys| == 1
    requires Reaches(cfg, limit, before, WrittenL2(cfg, slot, limit))
    ensures Reaches(cfg, limit, acts, WrittenLate(cfg, slot, limit)) && acts == before + [OfLoad(WriteL1(0, true))]
  {
    hide Reaches;
    var s := WrittenL2(cfg, slot, limit);
    acts, s := Reach(cfg, limit, before, s, OfLoad(WriteL1(0, true)));
    assert s == WrittenLate(cfg, slot, limit);
  }

  lemma LookupOfLate(ks: seq<string>, expires: int, now: int)
    requires |ks| == 1 && now < expires
    ensures G.Lookup(G.Copy(map[ks[0] := G.CachedGen(1, expires)], map[], 0), ks, now) == Some([1])
  {
    var c := G.Copy(map[ks[0] := G.CachedGen(1, expires)], map[], 0);
    assert G.Live(c, ks[0], now);
    assert G.Lookup(c, ks, now).value == [1];
  }

  lemma StaleHit(cfg: Config, slot: Slot, limit: nat, before: seq<Action>) returns (acts: seq<Action>, t: State)
    requires ConfigOk(cfg) && |slot.genKeys| == 1 && K.FlightSafe(slot.pk, slot.genKeys)
    requires Reaches(cfg, limit, before, WrittenLate(cfg, slot, limit))
    ensures Reaches(cfg, limit, acts, t) && before <= acts && ServesInvalidated(cfg, slot, t)
  {
    hide Reaches, G.Lookup, G.Store, G.Dropped;
    var s := WrittenLate(cfg, slot, limit);
    acts, s := Reach(cfg, limit, before, s, OfReader(StartRead(1, 0, slot)));
    acts, s := Reach(cfg, limit, acts, s, OfReader(ReadLocal(1, true)));
    assert s.readers[1].phase.local == Some(LateEntry(cfg, slot));
    LookupOfLate(slot.genKeys, cfg.delay + cfg.ttl, s.now);
    acts, t := Reach(cfg, limit, acts, s, OfReader(CheckLocal(1, true)));
  }

  /**
    For every L1 TTL and every delay there is a run that serves, `delay + ttl - 1` after a bump, a value
    from before it that L1 was given in that very instant: no expiry of L1's own could have stopped it.
   */
  lemma BoundIsTight(cfg: Config, slot: Slot, limit: nat) returns (acts: seq<Action>, n: nat)
    requires ConfigOk(cfg) && limit > 0 && |slot.genKeys| == 1 && K.FlightSafe(slot.pk, slot.genKeys)
    ensures Runs(cfg, Init({0, 1}, 0, limit), acts)
    ensures ServesInvalidated(cfg, slot, After(cfg, Init({0, 1}, 0, limit), acts))
    ensures n < |acts| && acts[n] == OfLoad(WriteL1(0, true))
    ensures var end := After(cfg, Init({0, 1}, 0, limit), acts);
            && Runs(cfg, Init({0, 1}, 0, limit), acts[..n])
            && After(cfg, Init({0, 1}, 0, limit), acts[..n]).now == end.readers[1].phase.answer.at
  {
    hide Runs, After;
    acts := SetBegins(cfg, slot, limit);
    acts := ReadBegins(cfg, slot, limit, acts);
    acts := BumpHappens(cfg, slot, limit, acts);
    acts := ReaderPuts(cfg, slot, limit, acts);
    acts := TimePasses(cfg, slot, limit, acts);
    var early := SetWritesL2(cfg, slot, limit, acts);
    var written := SetWritesL1(cfg, slot, limit, early);
    var t;
    acts, t := StaleHit(cfg, slot, limit, written);
    n := |early|;
    assert acts[..n] == written[..n] == early && acts[n] == written[n];
  }

  // ---- The bound, exactly ----

  /**
    A run serves from L1 or L2, `late` or more after a bump of one of the slot's tags, a value loaded
    before that bump.
   */
  ghost predicate ServesLate(cfg: Config, late: int, ids: set<nat>, now: int, limit: nat, acts: seq<Action>, id: nat,
                             i: nat, n: nat) {
    && limit < A.TWO_TO_62 && Runs(cfg, Init(ids, now, limit), acts)
    && var s := After(cfg, Init(ids, now, limit), acts);
       && HitAfter(s, id, i, n, late)
       && A.Era(s.readers[id].phase.answer.asOf, s.readers[id].slot.genKeys[i]) <= n
  }

  ghost predicate CanServeLate(cfg: Config, late: int) {
    exists ids, now, limit, acts, id, i, n :: ServesLate(cfg, late, ids, now, limit, acts, id, i, n)
  }

  /** A hit can be as stale as `late` exactly when that is less than the L1 TTL and the delay together. */
  lemma StalenessExactly(cfg: Config, late: int)
    requires ConfigOk(cfg)
    ensures CanServeLate(cfg, late) <==> late < cfg.delay + cfg.ttl
  {
    if late < cfg.delay + cfg.ttl {
      var slot := Slot("p", ["t"]);
      var acts, n := BoundIsTight(cfg, slot, 1);
      assert ServesLate(cfg, late, {0, 1}, 0, 1, acts, 1, 0, 0);
    } else {
      forall ids, now, limit, acts, id, i, n | ServesLate(cfg, late, ids, now, limit, acts, id, i, n)
        ensures false
      {
        StalenessBound(cfg, ids, now, limit, acts, id, i, n);
      }
    }
  }

  /** The documented bound, one L1 TTL, holds exactly when no read is ever slow to put what it fetched. */
  lemma DocumentedBoundExactly(cfg: Config)
    requires ConfigOk(cfg)
    ensures !CanServeLate(cfg, cfg.ttl) <==> cfg.delay == 0
  {
    StalenessExactly(cfg, cfg.ttl);
  }
}
