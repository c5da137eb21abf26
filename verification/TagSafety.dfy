/**
  What every run of the protocol in TagProtocol.dfy keeps, and what it gives a reader: freshness
  after an invalidation, a bound on staleness when every event is lost, no resurrection, isolation.
 */
module TagSafety {
  import opened Common
  import opened TagProtocol
  import A = Authority
  import G = GenCopy
  import K = Keys
  import S = Slots

  // ---- History only grows ----

  lemma GrowCovers(c: A.Counters, d: A.Counters, since: int, ks: seq<string>, gens: seq<nat>, floor: map<string, nat>)
    requires A.Later(c, d, since) && Covers(c, ks, gens, floor)
    ensures Covers(d, ks, gens, floor)
  {
  }

  lemma GrowCurrent(c: A.Counters, d: A.Counters, now: int, g: nat, bound: int)
    requires A.Later(c, d, now) && g in c.issued && CurrentUntil(c, g, bound) && bound <= now
    ensures CurrentUntil(d, g, bound)
  {
    var k := c.issued[g].key;
    assert A.BumpTimes(c.log, k) <= A.BumpTimes(d.log, k);
    forall n | d.issued[g].era <= n < A.Era(d.log, k)
      ensures A.BumpTimes(d.log, k)[n] >= bound
    {
      if n < A.Era(c.log, k) {
        assert A.BumpTimes(d.log, k)[n] == A.BumpTimes(c.log, k)[n];
      }
    }
  }

  lemma GrowAllCurrent(c: A.Counters, d: A.Counters, now: int, gens: seq<nat>, bound: int)
    requires A.Later(c, d, now) && AllCurrentUntil(c, gens, bound) && bound <= now
    ensures AllCurrentUntil(d, gens, bound)
  {
    forall i | 0 <= i < |gens|
      ensures gens[i] in d.issued && CurrentUntil(d, gens[i], bound)
    {
      GrowCurrent(c, d, now, gens[i], bound);
    }
  }

  lemma GrowEntry(c: A.Counters, d: A.Counters, since: int, pk: string, e: Entry)
    requires A.Later(c, d, since) && EntryOk(c, pk, e)
    ensures EntryOk(d, pk, e)
  {
  }

  lemma GrowEra(c: A.Counters, d: A.Counters, since: int, k: string)
    requires A.Later(c, d, since)
    ensures A.Era(c.log, k) <= A.Era(d.log, k)
  {
    assert A.BumpTimes(c.log, k) <= A.BumpTimes(d.log, k);
  }

  lemma GrowReplica(cfg: Config, c: A.Counters, d: A.Counters, now: int, rep: Replica)
    requires ConfigOk(cfg) && A.Later(c, d, now) && ReplicaOk(cfg, c, now, rep)
    ensures ReplicaOk(cfg, d, now, rep)
  {
    forall pk | pk in rep.l1
      ensures EntryOk(d, pk, rep.l1[pk])
    {
      GrowEntry(c, d, now, pk, rep.l1[pk]);
    }
    forall k | k in rep.copy.m
      ensures CachedOk(cfg, d, rep.seen, now, k, rep.copy.m[k])
    {
      assert CachedOk(cfg, c, rep.seen, now, k, rep.copy.m[k]);
      GrowCurrent(c, d, now, rep.copy.m[k].gen, rep.copy.m[k].expires - cfg.ttl - cfg.delay);
    }
    forall k
      ensures FloorOf(rep.seen, k) <= A.Era(d.log, k)
    {
      GrowEra(c, d, now, k);
    }
  }

  lemma GrowMaybe(c: A.Counters, d: A.Counters, since: int, pk: string, e: Option<Entry>)
    requires A.Later(c, d, since) && MaybeOk(c, pk, e)
    ensures MaybeOk(d, pk, e)
  {
    if e.Some? {
      GrowEntry(c, d, since, pk, e.value);
    }
  }

  lemma GrowPhase(cfg: Config, c: A.Counters, d: A.Counters, rep: Replica, now: int, slot: Slot,
                  floor: map<string, nat>, p: Phase)
    requires ConfigOk(cfg) && A.Later(c, d, now) && PhaseOk(cfg, c, rep, now, slot, floor, p)
    ensures PhaseOk(cfg, d, rep, now, slot, floor, p)
  {
    match p {
      case Started =>
      case HasLocal(local) => GrowMaybe(c, d, now, slot.pk, local);
      case Unsettled(local) => GrowMaybe(c, d, now, slot.pk, local);
      case Began(local, _) => GrowMaybe(c, d, now, slot.pk, local);
      case Fetched(local, since, current, remote, at) =>
        GrowMaybe(c, d, now, slot.pk, local);
        GrowMaybe(c, d, now, slot.pk, remote);
        GrowAllCurrent(c, d, now, current, at);
        GrowCovers(c, d, now, slot.genKeys, current, floor);
        if G.Accepts(rep.copy, slot.genKeys, since) {
          GrowCovers(c, d, now, slot.genKeys, current, rep.seen);
        }
      case Stored(local, current, remote, at) =>
        GrowMaybe(c, d, now, slot.pk, local);
        GrowMaybe(c, d, now, slot.pk, remote);
        GrowAllCurrent(c, d, now, current, at);
        GrowCovers(c, d, now, slot.genKeys, current, floor);
      case Missed(gens) => GrowKnown(c, d, now, slot, floor, gens);
      case Waiting(gens, _) => GrowKnown(c, d, now, slot, floor, gens);
      case Answered(gens, a) =>
        GrowMaybe(c, d, now, slot.pk, a.entry);
        if a.source != Flight {
          GrowAllCurrent(c, d, now, gens.value, a.at - cfg.delay - cfg.ttl + 1);
        }
    }
  }

  lemma GrowKnown(c: A.Counters, d: A.Counters, since: int, slot: Slot, floor: map<string, nat>, gens: Option<seq<nat>>)
    requires A.Later(c, d, since) && KnownOk(c, slot, floor, gens)
    ensures KnownOk(d, slot, floor, gens)
  {
    if gens.Some? {
      GrowCovers(c, d, since, slot.genKeys, gens.value, floor);
    }
  }

  lemma GrowCall(c: A.Counters, d: A.Counters, since: int, call: Call)
    requires A.Later(c, d, since) && CallOk(c, call)
    ensures CallOk(d, call)
  {
    if call.stage.Writing? {
      GrowEntry(c, d, since, call.slot.pk, call.stage.entry);
    }
  }

  lemma GrowInvalidation(c: A.Counters, d: A.Counters, since: int, replicas: map<nat, Replica>, i: Invalidation)
    requires A.Later(c, d, since) && InvalidationOk(c, replicas, i)
    ensures InvalidationOk(d, replicas, i)
  {
    GrowEra(c, d, since, i.key);
  }

  /** The authority may move on in any way its own contract allows. */
  lemma AuthGrows(cfg: Config, s: State, d: A.Counters)
    requires Inv(cfg, s) && A.Evolves(s.auth, d, s.now)
    ensures Inv(cfg, s.(auth := d))
  {
    var c := s.auth;
    forall pk | pk in s.l2
      ensures EntryOk(d, pk, s.l2[pk])
    {
      GrowEntry(c, d, s.now, pk, s.l2[pk]);
    }
    forall r | r in s.replicas
      ensures ReplicaOk(cfg, d, s.now, s.replicas[r])
    {
      GrowReplica(cfg, c, d, s.now, s.replicas[r]);
    }
    forall id | id in s.readers
      ensures s.readers[id].replica in s.replicas
      ensures ReaderOk(cfg, d, s.replicas[s.readers[id].replica], s.now, s.readers[id])
    {
      var rd := s.readers[id];
      GrowPhase(cfg, c, d, s.replicas[rd.replica], s.now, rd.slot, rd.floor, rd.phase);
    }
    forall id | id in s.calls
      ensures CallOk(d, s.calls[id])
    {
      GrowCall(c, d, s.now, s.calls[id]);
    }
    forall i | i in s.invalidations
      ensures InvalidationOk(d, s.replicas, s.invalidations[i])
    {
      GrowInvalidation(c, d, s.now, s.replicas, s.invalidations[i]);
    }
    forall e | e in s.bus
      ensures e.era <= A.Era(d.log, e.key)
    {
      GrowEra(c, d, s.now, e.key);
    }
  }

  // ---- Changes at one place ----

  lemma {:induction false} ReaderMoves(cfg: Config, s: State, id: nat, phase: Phase)
    requires Inv(cfg, s) && In(s, id)
    requires var rd := s.readers[id];
             PhaseOk(cfg, s.auth, s.replicas[rd.replica], s.now, rd.slot, rd.floor, phase)
    requires WaiterOk(s.calls, s.readers[id].(phase := phase))
    ensures Inv(cfg, WithPhase(s, id, phase))
  {
  }

  lemma CallMoves(cfg: Config, s: State, call: nat, stage: Stage)
    requires Inv(cfg, s) && call in s.calls
    requires StageOk(s.auth, s.calls[call].slot, s.calls[call].gens, stage)
    ensures Inv(cfg, WithStage(s, call, stage))
  {
    var calls := WithStage(s, call, stage).calls;
    forall id | id in s.readers
      ensures WaiterOk(calls, s.readers[id])
    {
      assert WaiterOk(s.calls, s.readers[id]);
    }
  }

  lemma CallAppears(cfg: Config, s: State, id: nat, call: Call)
    requires Inv(cfg, s) && id !in s.calls && CallOk(s.auth, call)
    ensures Inv(cfg, s.(calls := s.calls[id := call]))
  {
    forall r | r in s.readers
      ensures WaiterOk(s.calls[id := call], s.readers[r])
    {
      assert WaiterOk(s.calls, s.readers[r]);
    }
  }

  lemma L1Changes(cfg: Config, s: State, r: nat, l1: map<string, Entry>)
    requires Inv(cfg, s) && r in s.replicas && EntriesOk(s.auth, l1)
    ensures Inv(cfg, WithReplica(s, r, s.replicas[r].(l1 := l1)))
  {
    var rep := s.replicas[r].(l1 := l1);
    var replicas := s.replicas[r := rep];
    assert ReplicaOk(cfg, s.auth, s.now, rep);
    forall id | id in s.readers
      ensures s.readers[id].replica in replicas
      ensures ReaderOk(cfg, s.auth, replicas[s.readers[id].replica], s.now, s.readers[id])
    {
      assert ReaderOk(cfg, s.auth, s.replicas[s.readers[id].replica], s.now, s.readers[id]);
    }
    forall i | i in s.invalidations
      ensures InvalidationOk(s.auth, replicas, s.invalidations[i])
    {
      assert InvalidationOk(s.auth, s.replicas, s.invalidations[i]);
    }
  }

  /** The local copy makes one step, and with a drop the replica has seen at most one more invalidation. */
  ghost predicate CopyStep(rep: Replica, rep': Replica, op: G.Op)
  {
    && G.OpOk(op)
    && rep'.l1 == rep.l1
    && rep'.copy == G.Apply(rep.copy, op)
    && FloorBelow(rep.seen, rep'.seen)
    && forall k :: FloorOf(rep'.seen, k) != FloorOf(rep.seen, k) ==> op.Drop? && op.key == k
  }

  lemma PhaseSurvivesCopyStep(cfg: Config, c: A.Counters, rep: Replica, rep': Replica, op: G.Op, now: int, rd: Reader)
    requires CopyStep(rep, rep', op) && ReaderOk(cfg, c, rep, now, rd)
    ensures ReaderOk(cfg, c, rep', now, rd)
  {
    forall k
      ensures FloorOf(rd.floor, k) <= FloorOf(rep'.seen, k)
    {
      assert FloorOf(rd.floor, k) <= FloorOf(rep.seen, k) <= FloorOf(rep'.seen, k);
    }
    match rd.phase {
      case Began(_, since) => G.StepKeepsEpochs(rep.copy, op, rd.slot.genKeys, since);
      case Fetched(_, since, current, _, _) =>
        G.StepKeepsEpochs(rep.copy, op, rd.slot.genKeys, since);
        if G.Accepts(rep'.copy, rd.slot.genKeys, since) {
          forall i | 0 <= i < |current|
            ensures FloorOf(rep'.seen, rd.slot.genKeys[i]) <= c.issued[current[i]].era
          {
            assert rd.slot.genKeys[i] in rd.slot.genKeys;
          }
        }
      case _ =>
    }
  }

  lemma CopyMoves(cfg: Config, s: State, r: nat, rep': Replica, op: G.Op)
    requires Inv(cfg, s) && r in s.replicas && CopyStep(s.replicas[r], rep', op)
    requires CopyOk(cfg, s.auth, rep', s.now) && SeenOk(s.auth, rep'.seen)
    ensures Inv(cfg, WithReplica(s, r, rep'))
  {
    var replicas := s.replicas[r := rep'];
    assert ReplicaOk(cfg, s.auth, s.now, rep');
    forall id | id in s.readers
      ensures s.readers[id].replica in replicas
      ensures ReaderOk(cfg, s.auth, replicas[s.readers[id].replica], s.now, s.readers[id])
    {
      if s.readers[id].replica == r {
        PhaseSurvivesCopyStep(cfg, s.auth, s.replicas[r], rep', op, s.now, s.readers[id]);
      }
    }
    forall i | i in s.invalidations
      ensures InvalidationOk(s.auth, replicas, s.invalidations[i])
    {
      assert InvalidationOk(s.auth, s.replicas, s.invalidations[i]);
      if s.invalidations[i].step.Dropped? && s.invalidations[i].replica == r {
        assert FloorOf(s.replicas[r].seen, s.invalidations[i].key) <= FloorOf(rep'.seen, s.invalidations[i].key);
      }
    }
  }

  // ---- Drops and puts ----

  lemma DropKeeps(cfg: Config, s: State, r: nat, key: string, era: nat)
    requires Inv(cfg, s) && r in s.replicas && era <= A.Era(s.auth.log, key)
    ensures Inv(cfg, DropAt(s, r, key, era))
    ensures era <= FloorOf(DropAt(s, r, key, era).replicas[r].seen, key)
  {
    var rep := s.replicas[r];
    var rep' := rep.(copy := G.Dropped(rep.copy, key), seen := Raised(rep.seen, key, era));
    forall k | k in rep'.copy.m
      ensures CachedOk(cfg, s.auth, rep'.seen, s.now, k, rep'.copy.m[k])
    {
      assert CachedOk(cfg, s.auth, rep.seen, s.now, k, rep.copy.m[k]);
    }
    assert SeenOk(s.auth, rep'.seen) by {
      assert SeenOk(s.auth, rep.seen);
    }
    CopyMoves(cfg, s, r, rep', G.Drop(key));
  }

  lemma StoredCopyOk(cfg: Config, c: A.Counters, rep: Replica, now: int, ks: seq<string>, gens: seq<nat>,
                     since: G.Epoch, at: int)
    requires ConfigOk(cfg) && CopyOk(cfg, c, rep, now)
    requires |ks| == |gens| == |since.drops| && at <= now <= at + cfg.delay
    requires G.Accepts(rep.copy, ks, since) ==> Covers(c, ks, gens, rep.seen)
    requires AllCurrentUntil(c, gens, at)
    ensures CopyOk(cfg, c, rep.(copy := G.Store(rep.copy, ks, gens, since, now + cfg.ttl)), now)
  {
    if G.Accepts(rep.copy, ks, since) {
      var base := if G.Overflows(rep.copy, ks) then G.Cleared(rep.copy) else rep.copy;
      var m := G.Filled(base.m, ks, gens, now + cfg.ttl);
      forall k | k in m
        ensures CachedOk(cfg, c, rep.seen, now, k, m[k])
      {
        if k in ks {
          var i := G.FilledInside(base.m, ks, gens, now + cfg.ttl, k);
          assert CurrentUntil(c, gens[i], at);
        } else {
          G.FilledOutside(base.m, ks, gens, now + cfg.ttl, k);
          assert CachedOk(cfg, c, rep.seen, now, k, rep.copy.m[k]);
        }
      }
    }
  }

  lemma PutIsCopyStep(rep: Replica, op: G.Op)
    requires G.OpOk(op) && op.Put?
    ensures CopyStep(rep, rep.(copy := G.Apply(rep.copy, op)), op)
  {
  }

  /** What a reader knows when it is about to put the generations it fetched. */
  lemma FetchedFacts(cfg: Config, s: State, id: nat)
    requires Inv(cfg, s) && MayStore(cfg, s, id)
    ensures var rd := s.readers[id];
            var rep := s.replicas[rd.replica];
            && CopyOk(cfg, s.auth, rep, s.now) && SeenOk(s.auth, rep.seen)
            && rd.phase.at <= s.now && AllCurrentUntil(s.auth, rd.phase.current, rd.phase.at)
            && (G.Accepts(rep.copy, rd.slot.genKeys, rd.phase.since) ==>
                  Covers(s.auth, rd.slot.genKeys, rd.phase.current, rep.seen))
  {
    var rd := s.readers[id];
    assert ReaderOk(cfg, s.auth, s.replicas[rd.replica], s.now, rd);
    assert ReplicaOk(cfg, s.auth, s.now, s.replicas[rd.replica]);
  }

  lemma PutAt(cfg: Config, s: State, r: nat, ks: seq<string>, gens: seq<nat>, since: G.Epoch, at: int)
    requires Inv(cfg, s) && r in s.replicas
    requires |ks| == |gens| == |since.drops| && at <= s.now <= at + cfg.delay
    requires G.Accepts(s.replicas[r].copy, ks, since) ==> Covers(s.auth, ks, gens, s.replicas[r].seen)
    requires AllCurrentUntil(s.auth, gens, at)
    ensures var copy := G.Store(s.replicas[r].copy, ks, gens, since, s.now + cfg.ttl);
            Inv(cfg, WithReplica(s, r, s.replicas[r].(copy := copy)))
  {
    hide G.Store, CopyStep, CopyOk, AllCurrentUntil;
    var rep := s.replicas[r];
    var op := G.Put(ks, gens, since, s.now + cfg.ttl);
    assert ReplicaOk(cfg, s.auth, s.now, rep);
    StoredCopyOk(cfg, s.auth, rep, s.now, ks, gens, since, at);
    PutIsCopyStep(rep, op);
    CopyMoves(cfg, s, r, rep.(copy := G.Apply(rep.copy, op)), op);
  }

  lemma PutKeeps(cfg: Config, s: State, id: nat, t: State)
    requires Inv(cfg, s) && MayStore(cfg, s, id) && t == StoreCopy(cfg, s, id)
    ensures Inv(cfg, t)
  {
    hide G.Store;
    var rd := s.readers[id];
    FetchedFacts(cfg, s, id);
    PutAt(cfg, s, rd.replica, rd.slot.genKeys, rd.phase.current, rd.phase.since, rd.phase.at);
  }

  lemma StoreKeeps(cfg: Config, s: State, id: nat)
    requires Inv(cfg, s) && MayStore(cfg, s, id)
    ensures Inv(cfg, StoreStep(cfg, s, id))
  {
    var rd := s.readers[id];
    var p := rd.phase;
    var t := StoreCopy(cfg, s, id);
    PutKeeps(cfg, s, id, t);
    assert ReaderOk(cfg, s.auth, s.replicas[rd.replica], s.now, rd);
    StoredPhase(cfg, s.auth, s.replicas[rd.replica], t.replicas[rd.replica], s.now, rd.slot, rd.floor, p);
    ReaderMoves(cfg, t, id, Stored(p.local, p.current, p.remote, p.at));
  }

  lemma StoredPhase(cfg: Config, c: A.Counters, rep: Replica, rep': Replica, now: int, slot: Slot,
                    floor: map<string, nat>, p: Phase)
    requires p.Fetched? && PhaseOk(cfg, c, rep, now, slot, floor, p)
    ensures PhaseOk(cfg, c, rep', now, slot, floor, Stored(p.local, p.current, p.remote, p.at))
  {
  }

  // ---- Reads ----

  lemma StartKeeps(cfg: Config, s: State, a: ReadAction)
    requires Inv(cfg, s) && ReadEnabled(cfg, s, a) && a.StartRead?
    ensures Inv(cfg, AfterRead(cfg, s, a))
  {
    var rd := Reader(a.replica, a.slot, s.replicas[a.replica].seen, Started);
    assert ReaderOk(cfg, s.auth, s.replicas[a.replica], s.now, rd);
  }

  lemma ReadLocalKeeps(cfg: Config, s: State, a: ReadAction)
    requires Inv(cfg, s) && ReadEnabled(cfg, s, a) && a.ReadLocal?
    ensures Inv(cfg, AfterRead(cfg, s, a))
  {
    var rd := s.readers[a.id];
    var rep := s.replicas[rd.replica];
    assert ReplicaOk(cfg, s.auth, s.now, rep);
    assert MaybeOk(s.auth, rd.slot.pk, Unexpired(rep.l1, rd.slot.pk, s.now));
    ReaderMoves(cfg, s, a.id, HasLocal(if a.ok then Unexpired(rep.l1, rd.slot.pk, s.now) else None));
  }

  /** Serving an entry that recorded exactly the generations a reader found current. */
  lemma ServedOk(cfg: Config, c: A.Counters, now: int, slot: Slot, floor: map<string, nat>, source: Source, e: Entry,
                 gens: seq<nat>, bound: int)
    requires ConfigOk(cfg) && EntryOk(c, slot.pk, e) && e.gens == gens && source != Flight
    requires Covers(c, slot.genKeys, gens, floor)
    requires AllCurrentUntil(c, gens, bound) && bound > now - cfg.delay - cfg.ttl
    ensures AnswerOk(cfg, c, now, slot, floor, Some(gens), Served(source, e, gens, now).answer)
  {
    A.GensNameTheirCounters(c, e.slot.genKeys, slot.genKeys, gens);
    assert e.slot == slot;
    forall i | 0 <= i < |slot.genKeys|
      ensures FloorOf(floor, slot.genKeys[i]) <= A.Era(e.asOf, slot.genKeys[i])
    {
      assert c.issued[gens[i]].era <= A.Era(e.asOf, slot.genKeys[i]);
    }
    forall i | 0 <= i < |gens|
      ensures CurrentUntil(c, gens[i], now - cfg.delay - cfg.ttl + 1)
    {
      assert CurrentUntil(c, gens[i], bound);
    }
  }

  /** A complete local copy covers what the replica has seen, and is no older than its own expiry says. */
  lemma LookupCovers(cfg: Config, c: A.Counters, rep: Replica, now: int, ks: seq<string>, floor: map<string, nat>)
    requires CopyOk(cfg, c, rep, now) && FloorBelow(floor, rep.seen)
    requires G.Lookup(rep.copy, ks, now).Some?
    ensures Covers(c, ks, G.Lookup(rep.copy, ks, now).value, floor)
    ensures AllCurrentUntil(c, G.Lookup(rep.copy, ks, now).value, now + 1 - cfg.ttl - cfg.delay)
  {
    var gens := G.Lookup(rep.copy, ks, now).value;
    forall i | 0 <= i < |ks|
      ensures gens[i] in c.issued && c.issued[gens[i]].key == ks[i]
      ensures FloorOf(floor, ks[i]) <= c.issued[gens[i]].era
      ensures CurrentUntil(c, gens[i], now + 1 - cfg.ttl - cfg.delay)
    {
      assert G.Live(rep.copy, ks[i], now);
      assert CachedOk(cfg, c, rep.seen, now, ks[i], rep.copy.m[ks[i]]);
      assert FloorOf(floor, ks[i]) <= FloorOf(rep.seen, ks[i]);
    }
  }

  lemma CheckLocalKeeps(cfg: Config, s: State, a: ReadAction)
    requires Inv(cfg, s) && ReadEnabled(cfg, s, a) && a.CheckLocal?
    ensures Inv(cfg, AfterRead(cfg, s, a))
  {
    var rd := s.readers[a.id];
    var rep := s.replicas[rd.replica];
    var local := rd.phase.local;
    var phase := AfterCheck(rep, rd.slot, local, a.usable, s.now);
    assert ReaderOk(cfg, s.auth, rep, s.now, rd) && ReplicaOk(cfg, s.auth, s.now, rep);
    if phase.Answered? {
      var cached := G.Lookup(rep.copy, rd.slot.genKeys, s.now).value;
      LookupCovers(cfg, s.auth, rep, s.now, rd.slot.genKeys, rd.floor);
      ServedOk(cfg, s.auth, s.now, rd.slot, rd.floor, L1, local.value, cached, s.now + 1 - cfg.ttl - cfg.delay);
    }
    ReaderMoves(cfg, s, a.id, phase);
  }

  lemma TakeEpochKeeps(cfg: Config, s: State, a: ReadAction)
    requires Inv(cfg, s) && ReadEnabled(cfg, s, a) && a.TakeEpoch?
    ensures Inv(cfg, AfterRead(cfg, s, a))
  {
    var rd := s.readers[a.id];
    assert ReaderOk(cfg, s.auth, s.replicas[rd.replica], s.now, rd);
    ReaderMoves(cfg, s, a.id, Began(rd.phase.local, G.Snapshot(s.replicas[rd.replica].copy, rd.slot.genKeys)));
  }

  /** Generations read from the authority cover every bump so far, and no bump has come since. */
  lemma FetchedCovers(c: A.Counters, ks: seq<string>, chs: seq<A.Chance>, now: int, floor: map<string, nat>)
    requires A.Valid(c) && |chs| == |ks| && A.ChancesOk(c, ks, chs) && SeenOk(c, floor)
    ensures var (gens, d) := A.Read(c, ks, chs);
            && A.Evolves(c, d, now) && Covers(d, ks, gens, floor) && AllCurrentUntil(d, gens, now)
            && d.log == c.log && LoadedAfter(d, ks, gens, d.log)
  {
    A.ReadFacts(c, ks, chs, now);
    var (gens, d) := A.Read(c, ks, chs);
    forall i | 0 <= i < |gens|
      ensures gens[i] in d.issued && CurrentUntil(d, gens[i], now)
      ensures FloorOf(floor, ks[i]) <= d.issued[gens[i]].era
    {
      assert d.issued[gens[i]].era == A.Era(c.log, ks[i]);
    }
  }

  lemma FloorSeen(c: A.Counters, floor: map<string, nat>, seen: map<string, nat>)
    requires FloorBelow(floor, seen) && SeenOk(c, seen)
    ensures SeenOk(c, floor)
  {
    forall k
      ensures FloorOf(floor, k) <= A.Era(c.log, k)
    {
      assert FloorOf(floor, k) <= FloorOf(seen, k) <= A.Era(c.log, k);
    }
  }

  lemma FetchKeeps(cfg: Config, s: State, id: nat, chances: seq<A.Chance>)
    requires Inv(cfg, s) && MayFetch(s, id, chances)
    ensures Inv(cfg, FetchStep(s, id, chances))
  {
    var rd := s.readers[id];
    var rep := s.replicas[rd.replica];
    assert ReaderOk(cfg, s.auth, rep, s.now, rd) && ReplicaOk(cfg, s.auth, s.now, rep);
    FloorSeen(s.auth, rd.floor, rep.seen);
    FetchedCovers(s.auth, rd.slot.genKeys, chances, s.now, rd.floor);
    FetchedCovers(s.auth, rd.slot.genKeys, chances, s.now, rep.seen);
    var (gens, auth) := A.Read(s.auth, rd.slot.genKeys, chances);
    AuthGrows(cfg, s, auth);
    var s1 := s.(auth := auth);
    var remote := if rd.slot.pk in s.l2 then Some(s.l2[rd.slot.pk]) else None;
    assert ReaderOk(cfg, auth, rep, s.now, rd);
    assert remote.Some? ==> EntryOk(auth, rd.slot.pk, s1.l2[rd.slot.pk]);
    ReaderMoves(cfg, s1, id, Fetched(rd.phase.local, rd.phase.since, gens, remote, s.now));
  }

  lemma DecideKeeps(cfg: Config, s: State, a: ReadAction)
    requires Inv(cfg, s) && ReadEnabled(cfg, s, a) && a.Decide?
    ensures Inv(cfg, AfterRead(cfg, s, a))
  {
    var rd := s.readers[a.id];
    var p := rd.phase;
    assert ReaderOk(cfg, s.auth, s.replicas[rd.replica], s.now, rd);
    var phase := AfterStore(p, a.usableLocal, a.usableRemote, s.now);
    if phase.Answered? {
      var e := phase.answer.entry.value;
      ServedOk(cfg, s.auth, s.now, rd.slot, rd.floor, phase.answer.source, e, p.current, p.at);
    }
    ReaderMoves(cfg, s, a.id, phase);
  }

  lemma BackfillKeeps(cfg: Config, s: State, a: ReadAction)
    requires Inv(cfg, s) && ReadEnabled(cfg, s, a) && a.Backfill?
    ensures Inv(cfg, AfterRead(cfg, s, a))
  {
    var rd := s.readers[a.id];
    var rep := s.replicas[rd.replica];
    assert ReaderOk(cfg, s.auth, rep, s.now, rd) && ReplicaOk(cfg, s.auth, s.now, rep);
    L1Changes(cfg, s, rd.replica, rep.l1[rd.slot.pk := rd.phase.answer.entry.value]);
  }

  // ---- Loads ----

  lemma LeadKeeps(cfg: Config, s: State, a: ReadAction)
    requires Inv(cfg, s) && ReadEnabled(cfg, s, a) && a.Lead?
    ensures Inv(cfg, AfterRead(cfg, s, a))
  {
    var rd := s.readers[a.id];
    assert ReaderOk(cfg, s.auth, s.replicas[rd.replica], s.now, rd);
    CallAppears(cfg, s, a.call, Call(rd.replica, true, rd.slot, rd.phase.gens, Created));
    var s1 := s.(calls := s.calls[a.call := Call(rd.replica, true, rd.slot, rd.phase.gens, Created)]);
    ReaderMoves(cfg, s1, a.id, Waiting(rd.phase.gens, a.call));
  }

  /** Equal flight keys mean equal slots, even when the key spells out generations instead of tags. */
  lemma FlightSharesSlot(c: A.Counters, s1: Slot, s2: Slot, g1: Option<seq<nat>>, g2: Option<seq<nat>>)
    requires K.FlightSafe(s1.pk, s1.genKeys) && K.FlightSafe(s2.pk, s2.genKeys)
    requires g1.Some? ==> A.GensOf(c, s1.genKeys, g1.value)
    requires g2.Some? ==> A.GensOf(c, s2.genKeys, g2.value)
    requires FlightOf(s1, g1) == FlightOf(s2, g2)
    ensures s1 == s2 && g1 == g2
  {
    K.FlightKeyInjective(s1.pk, s2.pk, s1.genKeys, s2.genKeys, g1, g2);
    if g1.Some? {
      A.GensNameTheirCounters(c, s1.genKeys, s2.genKeys, g1.value);
    }
  }

  lemma JoinKeeps(cfg: Config, s: State, a: ReadAction)
    requires Inv(cfg, s) && ReadEnabled(cfg, s, a) && a.Join?
    ensures Inv(cfg, AfterRead(cfg, s, a))
  {
    var rd := s.readers[a.id];
    var call := s.calls[a.call];
    assert ReaderOk(cfg, s.auth, s.replicas[rd.replica], s.now, rd) && CallOk(s.auth, call);
    FlightSharesSlot(s.auth, call.slot, rd.slot, call.gens, rd.phase.gens);
    ReaderMoves(cfg, s, a.id, Waiting(rd.phase.gens, a.call));
  }

  lemma ReceivedOk(cfg: Config, c: A.Counters, now: int, slot: Slot, floor: map<string, nat>, gens: Option<seq<nat>>,
                   call: Call)
    requires CallOk(c, call) && call.slot == slot && call.gens == gens && call.stage.Finished?
    requires KnownOk(c, slot, floor, gens)
    ensures AnswerOk(cfg, c, now, slot, floor, gens,
                     Answer(Flight, slot, gens, call.stage.payload, call.stage.asOf, now, None))
  {
    if gens.Some? {
      forall i | 0 <= i < |slot.genKeys|
        ensures FloorOf(floor, slot.genKeys[i]) <= A.Era(call.stage.asOf, slot.genKeys[i])
      {
        assert c.issued[gens.value[i]].era <= A.Era(call.stage.asOf, slot.genKeys[i]);
      }
    }
  }

  lemma ReceiveKeeps(cfg: Config, s: State, id: nat)
    requires Inv(cfg, s) && MayReceive(s, id)
    ensures Inv(cfg, ReceiveStep(s, id))
  {
    var rd := s.readers[id];
    var call := s.calls[rd.phase.call];
    assert ReaderOk(cfg, s.auth, s.replicas[rd.replica], s.now, rd) && CallOk(s.auth, call);
    assert WaiterOk(s.calls, rd);
    ReceivedOk(cfg, s.auth, s.now, rd.slot, rd.floor, rd.phase.gens, call);
    var answer := Answer(Flight, call.slot, call.gens, call.stage.payload, call.stage.asOf, s.now, None);
    ReaderMoves(cfg, s, id, Answered(rd.phase.gens, answer));
  }

  lemma BeginLoadKeeps(cfg: Config, s: State, a: LoadAction)
    requires Inv(cfg, s) && LoadEnabled(s, a) && a.BeginLoad?
    ensures Inv(cfg, AfterLoad(s, a))
  {
    assert CallOk(s.auth, s.calls[a.call]);
    CallMoves(cfg, s, a.call, Loading(s.auth.log));
  }

  lemma EndLoadKeeps(cfg: Config, s: State, a: LoadAction)
    requires Inv(cfg, s) && LoadEnabled(s, a) && (a.EndLoad? || a.Finish?)
    ensures Inv(cfg, AfterLoad(s, a))
  {
    assert CallOk(s.auth, s.calls[a.call]);
    var stage := s.calls[a.call].stage;
    CallMoves(cfg, s, a.call,
      if a.EndLoad? then Loaded(stage.asOf, a.payload) else Finished(stage.asOf, stage.payload));
  }

  lemma WriteL2Keeps(cfg: Config, s: State, a: LoadAction)
    requires Inv(cfg, s) && LoadEnabled(s, a) && a.WriteL2?
    ensures Inv(cfg, AfterLoad(s, a))
  {
    var c := s.calls[a.call];
    assert CallOk(s.auth, c);
    var e := Entry(c.slot, c.gens.value, c.stage.payload, c.stage.asOf, a.expires);
    assert EntryOk(s.auth, c.slot.pk, e);
    var s1 := if a.ok then s.(l2 := s.l2[c.slot.pk := e]) else s;
    assert Inv(cfg, s1);
    CallMoves(cfg, s1, a.call, Writing(e));
  }

  lemma WriteL1Keeps(cfg: Config, s: State, a: LoadAction)
    requires Inv(cfg, s) && LoadEnabled(s, a) && a.WriteL1?
    ensures Inv(cfg, AfterLoad(s, a))
  {
    var c := s.calls[a.call];
    var rep := s.replicas[c.replica];
    var e := c.stage.entry;
    assert CallOk(s.auth, c) && ReplicaOk(cfg, s.auth, s.now, rep);
    var s1 := if a.ok then WithReplica(s, c.replica, rep.(l1 := rep.l1[c.slot.pk := e])) else s;
    if a.ok {
      L1Changes(cfg, s, c.replica, rep.l1[c.slot.pk := e]);
    }
    CallMoves(cfg, s1, a.call, Finished(e.asOf, e.payload));
  }

  lemma SetReadsKeeps(cfg: Config, s: State, a: LoadAction)
    requires Inv(cfg, s) && LoadEnabled(s, a) && a.SetReads?
    ensures Inv(cfg, AfterLoad(s, a))
  {
    FetchedCovers(s.auth, a.slot.genKeys, a.chances, s.now, map[]);
    var (gens, auth) := A.Read(s.auth, a.slot.genKeys, a.chances);
    AuthGrows(cfg, s, auth);
    CallAppears(cfg, s.(auth := auth), a.call, Call(a.replica, false, a.slot, Some(gens), Loaded(auth.log, a.payload)));
  }

  // ---- Invalidations and the environment ----

  lemma InvalidationMoves(cfg: Config, s: State, inv: nat, i: Invalidation)
    requires Inv(cfg, s) && InvalidationOk(s.auth, s.replicas, i)
    ensures Inv(cfg, s.(invalidations := s.invalidations[inv := i]))
  {
  }

  lemma BumpKeeps(cfg: Config, s: State, a: WorldAction)
    requires Inv(cfg, s) && WorldEnabled(s, a) && a.BumpTag?
    ensures Inv(cfg, AfterWorld(s, a))
  {
    var i := s.invalidations[a.inv];
    A.BumpedFacts(s.auth, i.key, a.chance, s.now);
    var auth := A.Bumped(s.auth, i.key, a.chance, s.now);
    AuthGrows(cfg, s, auth);
    InvalidationMoves(cfg, s.(auth := auth), a.inv, i.(step := Bumped(A.Era(auth.log, i.key))));
  }

  lemma DropLocalKeeps(cfg: Config, s: State, a: WorldAction)
    requires Inv(cfg, s) && WorldEnabled(s, a) && a.DropLocal?
    ensures Inv(cfg, AfterWorld(s, a))
  {
    var i := s.invalidations[a.inv];
    assert InvalidationOk(s.auth, s.replicas, i);
    DropKeeps(cfg, s, i.replica, i.key, i.step.era);
    InvalidationMoves(cfg, DropAt(s, i.replica, i.key, i.step.era), a.inv, i.(step := Dropped(i.step.era)));
  }

  lemma PublishKeeps(cfg: Config, s: State, a: WorldAction)
    requires Inv(cfg, s) && WorldEnabled(s, a) && (a.Publish? || a.ForgeEvent? || a.LoseEvent?)
    ensures Inv(cfg, AfterWorld(s, a))
  {
    if a.Publish? {
      assert InvalidationOk(s.auth, s.replicas, s.invalidations[a.inv]);
    }
  }

  lemma DeliverKeeps(cfg: Config, s: State, r: nat, event: Event)
    requires Inv(cfg, s) && r in s.replicas && event in s.bus
    ensures Inv(cfg, DropAt(s, r, event.key, event.era))
  {
    DropKeeps(cfg, s, r, event.key, event.era);
  }

  lemma LossKeeps(cfg: Config, s: State, a: WorldAction)
    requires Inv(cfg, s) && WorldEnabled(s, a) && (a.LoseL1? || a.LoseL2? || a.LoseCounters?)
    ensures Inv(cfg, AfterWorld(s, a))
  {
    if a.LoseL1? {
      var rep := s.replicas[a.replica];
      assert ReplicaOk(cfg, s.auth, s.now, rep);
      var l1 := rep.l1 - a.pks;
      assert forall pk :: pk in l1 ==> pk in rep.l1 && l1[pk] == rep.l1[pk];
      L1Changes(cfg, s, a.replica, l1);
    } else if a.LoseL2? {
      var l2 := s.l2 - a.pks;
      assert forall pk :: pk in l2 ==> pk in s.l2 && l2[pk] == s.l2[pk];
    } else {
      A.LoseEvolves(s.auth, a.keys, s.now);
      AuthGrows(cfg, s, A.Lose(s.auth, a.keys));
    }
  }

  lemma TickKeeps(cfg: Config, s: State, a: WorldAction)
    requires Inv(cfg, s) && a.Tick?
    ensures Inv(cfg, AfterWorld(s, a))
  {
    var now := s.now + a.dt;
    forall r | r in s.replicas
      ensures ReplicaOk(cfg, s.auth, now, s.replicas[r])
    {
      var rep := s.replicas[r];
      assert ReplicaOk(cfg, s.auth, s.now, rep);
      forall k | k in rep.copy.m
        ensures CachedOk(cfg, s.auth, rep.seen, now, k, rep.copy.m[k])
      {
        assert CachedOk(cfg, s.auth, rep.seen, s.now, k, rep.copy.m[k]);
      }
    }
    forall id | id in s.readers
      ensures ReaderOk(cfg, s.auth, s.replicas[s.readers[id].replica], now, s.readers[id])
    {
      assert ReaderOk(cfg, s.auth, s.replicas[s.readers[id].replica], s.now, s.readers[id]);
    }
  }

  // ---- Every run ----

  lemma InitInv(cfg: Config, ids: set<nat>, now: int, limit: nat)
    requires ConfigOk(cfg) && limit < A.TWO_TO_62
    ensures Inv(cfg, Init(ids, now, limit))
  {
  }

  /** The steps up to the answer of the authority. */
  lemma LookKeeps(cfg: Config, s: State, a: ReadAction)
    requires Inv(cfg, s) && ReadEnabled(cfg, s, a)
    requires a.StartRead? || a.ReadLocal? || a.CheckLocal? || a.TakeEpoch? || a.Fetch?
    ensures Inv(cfg, AfterRead(cfg, s, a))
  {
    hide Inv;
    match a {
      case StartRead(_, _, _) => StartKeeps(cfg, s, a);
      case ReadLocal(_, _) => ReadLocalKeeps(cfg, s, a);
      case CheckLocal(_, _) => CheckLocalKeeps(cfg, s, a);
      case TakeEpoch(_) => TakeEpochKeeps(cfg, s, a);
      case Fetch(id, chances) => FetchKeeps(cfg, s, id, chances);
    }
  }

  lemma ReadKeeps(cfg: Config, s: State, a: ReadAction)
    requires Inv(cfg, s) && ReadEnabled(cfg, s, a)
    ensures Inv(cfg, AfterRead(cfg, s, a))
  {
    hide Inv;
    match a {
      case FetchFails(id) => ReaderMoves(cfg, s, id, Missed(None));
      case StoreGens(id) => StoreKeeps(cfg, s, id);
      case Decide(_, _, _) => DecideKeeps(cfg, s, a);
      case Backfill(_) => BackfillKeeps(cfg, s, a);
      case Lead(_, _) => LeadKeeps(cfg, s, a);
      case Join(_, _) => JoinKeeps(cfg, s, a);
      case Receive(id) => ReceiveKeeps(cfg, s, id);
      case _ => LookKeeps(cfg, s, a);
    }
  }

  lemma LoadKeeps(cfg: Config, s: State, a: LoadAction)
    requires Inv(cfg, s) && LoadEnabled(s, a)
    ensures Inv(cfg, AfterLoad(s, a))
  {
    hide Inv;
    match a {
      case BeginLoad(_) => BeginLoadKeeps(cfg, s, a);
      case EndLoad(_, _) => EndLoadKeeps(cfg, s, a);
      case WriteL2(_, _, _) => WriteL2Keeps(cfg, s, a);
      case WriteL1(_, _) => WriteL1Keeps(cfg, s, a);
      case Finish(_) => EndLoadKeeps(cfg, s, a);
      case SetReads(_, _, _, _, _) => SetReadsKeeps(cfg, s, a);
    }
  }

  lemma WorldKeeps(cfg: Config, s: State, a: WorldAction)
    requires Inv(cfg, s) && WorldEnabled(s, a)
    ensures Inv(cfg, AfterWorld(s, a))
  {
    hide Inv;
    match a {
      case BeginInvalidate(inv, r, key) => InvalidationMoves(cfg, s, inv, Invalidation(r, key, Begun));
      case BumpTag(_, _) => BumpKeeps(cfg, s, a);
      case BumpFails(inv) => InvalidationMoves(cfg, s, inv, s.invalidations[inv].(step := Bumped(0)));
      case DropLocal(_) => DropLocalKeeps(cfg, s, a);
      case Publish(_) => PublishKeeps(cfg, s, a);
      case Deliver(r, event) => DeliverKeeps(cfg, s, r, event);
      case LoseEvent(_) => PublishKeeps(cfg, s, a);
      case ForgeEvent(_) => PublishKeeps(cfg, s, a);
      case LoseL1(_, _) => LossKeeps(cfg, s, a);
      case LoseL2(_) => LossKeeps(cfg, s, a);
      case LoseCounters(_) => LossKeeps(cfg, s, a);
      case Tick(_) => TickKeeps(cfg, s, a);
    }
  }

  lemma StepKeeps(cfg: Config, s: State, a: Action)
    requires Inv(cfg, s) && Enabled(cfg, s, a)
    ensures Inv(cfg, Next(cfg, s, a))
  {
    hide Inv;
    match a {
      case OfReader(read) => ReadKeeps(cfg, s, read);
      case OfLoad(load) => LoadKeeps(cfg, s, load);
      case OfWorld(world) => WorldKeeps(cfg, s, world);
    }
  }

  ghost predicate Runs(cfg: Config, s: State, acts: seq<Action>)
    decreases |acts|
  {
    acts == [] || (Enabled(cfg, s, acts[0]) && Runs(cfg, Next(cfg, s, acts[0]), acts[1..]))
  }

  ghost function After(cfg: Config, s: State, acts: seq<Action>): State
    requires Runs(cfg, s, acts)
    decreases |acts|
  {
    if acts == [] then s else After(cfg, Next(cfg, s, acts[0]), acts[1..])
  }

  lemma {:induction false} RunKeeps(cfg: Config, s: State, acts: seq<Action>)
    requires Inv(cfg, s) && Runs(cfg, s, acts)
    ensures Inv(cfg, After(cfg, s, acts))
    decreases |acts|
  {
    hide Inv;
    if acts == [] {
    } else {
      StepKeeps(cfg, s, acts[0]);
      RunKeeps(cfg, Next(cfg, s, acts[0]), acts[1..]);
    }
  }

  /** Every run from an empty cache keeps the invariant. */
  lemma ReachableInv(cfg: Config, ids: set<nat>, now: int, limit: nat, acts: seq<Action>)
    requires ConfigOk(cfg) && limit < A.TWO_TO_62 && Runs(cfg, Init(ids, now, limit), acts)
    ensures Inv(cfg, After(cfg, Init(ids, now, limit), acts))
  {
    InitInv(cfg, ids, now, limit);
    RunKeeps(cfg, Init(ids, now, limit), acts);
  }

  // ---- What a reader keeps while others move ----

  ghost predicate SameReader(s: State, t: State, id: nat) {
    id in s.readers ==>
      && id in t.readers
      && t.readers[id].replica == s.readers[id].replica
      && t.readers[id].slot == s.readers[id].slot
      && t.readers[id].floor == s.readers[id].floor
  }

  lemma ReadKeepsReaders(cfg: Config, s: State, a: ReadAction, id: nat)
    requires ReadEnabled(cfg, s, a)
    ensures SameReader(s, AfterRead(cfg, s, a), id)
  {
  }

  lemma LoadKeepsReaders(s: State, a: LoadAction, id: nat)
    requires LoadEnabled(s, a)
    ensures SameReader(s, AfterLoad(s, a), id)
  {
  }

  lemma WorldKeepsReaders(s: State, a: WorldAction, id: nat)
    requires WorldEnabled(s, a)
    ensures SameReader(s, AfterWorld(s, a), id)
  {
  }

  lemma StepKeepsReader(cfg: Config, s: State, a: Action, id: nat)
    requires Enabled(cfg, s, a)
    ensures SameReader(s, Next(cfg, s, a), id)
  {
    hide SameReader;
    match a {
      case OfReader(read) => ReadKeepsReaders(cfg, s, read, id);
      case OfLoad(load) => LoadKeepsReaders(s, load, id);
      case OfWorld(world) => WorldKeepsReaders(s, world, id);
    }
  }

  lemma {:induction false} RunKeepsReader(cfg: Config, s: State, acts: seq<Action>, id: nat)
    requires Runs(cfg, s, acts)
    ensures SameReader(s, After(cfg, s, acts), id)
    decreases |acts|
  {
    if acts == [] {
    } else {
      StepKeepsReader(cfg, s, acts[0], id);
      RunKeepsReader(cfg, Next(cfg, s, acts[0]), acts[1..], id);
    }
  }

  // ---- Freshness after an invalidation ----

  /**
    The value a reader that knew its generations returned was loaded after every bump its replica had
    seen invalidated.
   */
  lemma AnswersCoverFloor(cfg: Config, s: State, id: nat, key: string)
    requires Inv(cfg, s) && id in s.readers && s.readers[id].phase.Answered? && s.readers[id].phase.gens.Some?
    requires key in s.readers[id].slot.genKeys
    ensures FloorOf(s.readers[id].floor, key) <= A.Era(s.readers[id].phase.answer.asOf, key)
  {
    var rd := s.readers[id];
    assert ReaderOk(cfg, s.auth, s.replicas[rd.replica], s.now, rd);
    var i :| 0 <= i < |rd.slot.genKeys| && rd.slot.genKeys[i] == key;
  }

  /**
    A read that starts on a replica after `n` bumps of a tag have been invalidated there returns, if
    its generations were read, only a value whose load began after the `n`th bump: from L1, from L2
    or from a joined flight, whatever happens before and after.
   */
  lemma {:induction false} FreshAfterSeen(cfg: Config, ids: set<nat>, now: int, limit: nat, before: seq<Action>,
                                          r: nat, key: string, n: nat, id: nat, slot: Slot, after: seq<Action>)
    requires ConfigOk(cfg) && limit < A.TWO_TO_62 && Runs(cfg, Init(ids, now, limit), before)
    requires var s := After(cfg, Init(ids, now, limit), before);
             && r in s.replicas && n <= FloorOf(s.replicas[r].seen, key)
             && Enabled(cfg, s, OfReader(StartRead(id, r, slot)))
             && Runs(cfg, Next(cfg, s, OfReader(StartRead(id, r, slot))), after)
    requires key in slot.genKeys
    ensures var s := After(cfg, Init(ids, now, limit), before);
            var t := After(cfg, Next(cfg, s, OfReader(StartRead(id, r, slot))), after);
            id in t.readers && t.readers[id].slot == slot &&
            (t.readers[id].phase.Answered? && t.readers[id].phase.gens.Some? ==>
               n <= A.Era(t.readers[id].phase.answer.asOf, key))
  {
    hide Inv;
    var s := After(cfg, Init(ids, now, limit), before);
    var start := OfReader(StartRead(id, r, slot));
    ReachableInv(cfg, ids, now, limit, before);
    StepKeeps(cfg, s, start);
    var s1 := Next(cfg, s, start);
    RunKeeps(cfg, s1, after);
    RunKeepsReader(cfg, s1, after, id);
    var t := After(cfg, s1, after);
    if t.readers[id].phase.Answered? && t.readers[id].phase.gens.Some? {
      AnswersCoverFloor(cfg, t, id, key);
    }
  }

  /** InvalidateTag: once it has bumped and dropped, its replica has seen its bump. */
  lemma InvalidationIsSeen(cfg: Config, s: State, inv: nat)
    requires Inv(cfg, s) && inv in s.invalidations && s.invalidations[inv].step.Dropped?
    ensures var i := s.invalidations[inv];
            i.replica in s.replicas && i.step.era <= FloorOf(s.replicas[i.replica].seen, i.key)
  {
    assert InvalidationOk(s.auth, s.replicas, s.invalidations[inv]);
  }

  /** A read issued after InvalidateTag has done its bump and drop, on the replica that ran it. */
  lemma {:induction false} FreshAfterInvalidateTag(cfg: Config, ids: set<nat>, now: int, limit: nat,
                                                   before: seq<Action>, inv: nat, id: nat, slot: Slot,
                                                   after: seq<Action>)
    requires ConfigOk(cfg) && limit < A.TWO_TO_62 && Runs(cfg, Init(ids, now, limit), before)
    requires var s := After(cfg, Init(ids, now, limit), before);
             && inv in s.invalidations && s.invalidations[inv].step.Dropped?
             && Enabled(cfg, s, OfReader(StartRead(id, s.invalidations[inv].replica, slot)))
             && Runs(cfg, Next(cfg, s, OfReader(StartRead(id, s.invalidations[inv].replica, slot))), after)
             && s.invalidations[inv].key in slot.genKeys
    ensures var s := After(cfg, Init(ids, now, limit), before);
            var i := s.invalidations[inv];
            var t := After(cfg, Next(cfg, s, OfReader(StartRead(id, i.replica, slot))), after);
            id in t.readers &&
            (t.readers[id].phase.Answered? && t.readers[id].phase.gens.Some? ==>
               i.step.era <= A.Era(t.readers[id].phase.answer.asOf, i.key))
  {
    ReachableInv(cfg, ids, now, limit, before);
    var s := After(cfg, Init(ids, now, limit), before);
    InvalidationIsSeen(cfg, s, inv);
    var i := s.invalidations[inv];
    FreshAfterSeen(cfg, ids, now, limit, before, i.replica, i.key, i.step.era, id, slot, after);
  }

  /** Handling an event makes the replica see the bump its sender made. */
  lemma DeliveryIsSeen(cfg: Config, s: State, r: nat, event: Event)
    requires Inv(cfg, s) && Enabled(cfg, s, OfWorld(Deliver(r, event)))
    ensures r in Next(cfg, s, OfWorld(Deliver(r, event))).replicas
    ensures event.era <= FloorOf(Next(cfg, s, OfWorld(Deliver(r, event))).replicas[r].seen, event.key)
  {
  }

  /** A replica never forgets an invalidation it has seen. */
  ghost predicate SeenGrows(s: State, t: State, r: nat) {
    r in s.replicas ==> r in t.replicas && FloorBelow(s.replicas[r].seen, t.replicas[r].seen)
  }

  lemma ReadGrowsSeen(cfg: Config, s: State, a: ReadAction, r: nat)
    requires ReadEnabled(cfg, s, a)
    ensures SeenGrows(s, AfterRead(cfg, s, a), r)
  {
    hide G.Store;
  }

  lemma LoadGrowsSeen(s: State, a: LoadAction, r: nat)
    requires LoadEnabled(s, a)
    ensures SeenGrows(s, AfterLoad(s, a), r)
  {
  }

  lemma WorldGrowsSeen(s: State, a: WorldAction, r: nat)
    requires WorldEnabled(s, a)
    ensures SeenGrows(s, AfterWorld(s, a), r)
  {
    hide G.Dropped, A.Bumped;
  }

  lemma StepGrowsSeen(cfg: Config, s: State, a: Action, r: nat)
    requires Enabled(cfg, s, a)
    ensures SeenGrows(s, Next(cfg, s, a), r)
  {
    hide SeenGrows;
    match a {
      case OfReader(read) => ReadGrowsSeen(cfg, s, read, r);
      case OfLoad(load) => LoadGrowsSeen(s, load, r);
      case OfWorld(world) => WorldGrowsSeen(s, world, r);
    }
  }

  lemma SeenGrowsOn(s: State, t: State, u: State, r: nat)
    requires SeenGrows(s, t, r) && SeenGrows(t, u, r)
    ensures SeenGrows(s, u, r)
  {
    if r in s.replicas {
      forall k
        ensures FloorOf(s.replicas[r].seen, k) <= FloorOf(u.replicas[r].seen, k)
      {
        assert FloorOf(s.replicas[r].seen, k) <= FloorOf(t.replicas[r].seen, k);
      }
    }
  }

  lemma {:induction false} RunGrowsSeen(cfg: Config, s: State, acts: seq<Action>, r: nat)
    requires Runs(cfg, s, acts)
    ensures SeenGrows(s, After(cfg, s, acts), r)
    decreases |acts|
  {
    if acts == [] {
    } else {
      hide SeenGrows;
      var t := Next(cfg, s, acts[0]);
      StepGrowsSeen(cfg, s, acts[0], r);
      RunGrowsSeen(cfg, t, acts[1..], r);
      SeenGrowsOn(s, t, After(cfg, t, acts[1..]), r);
    }
  }

  lemma {:induction false} RunsOn(cfg: Config, s: State, a: seq<Action>, b: seq<Action>)
    requires Runs(cfg, s, a) && Runs(cfg, After(cfg, s, a), b)
    ensures Runs(cfg, s, a + b) && After(cfg, s, a + b) == After(cfg, After(cfg, s, a), b)
    decreases |a|
  {
    if a == [] {
      assert a + b == b;
    } else {
      RunsOn(cfg, Next(cfg, s, a[0]), a[1..], b);
      assert (a + b)[0] == a[0] && (a + b)[1..] == a[1..] + b;
    }
  }

  lemma RunsOne(cfg: Config, s: State, a: Action)
    requires Enabled(cfg, s, a)
    ensures Runs(cfg, s, [a]) && After(cfg, s, [a]) == Next(cfg, s, a)
  {
    assert Runs(cfg, Next(cfg, s, a), []);
  }

  /** The run up to the state in which a read starts, after an event and whatever followed it. */
  lemma {:induction false} DeliveredRun(cfg: Config, ids: set<nat>, now: int, limit: nat, before: seq<Action>, r: nat,
                                        event: Event, mid: seq<Action>) returns (acts: seq<Action>)
    requires ConfigOk(cfg) && limit < A.TWO_TO_62 && Runs(cfg, Init(ids, now, limit), before)
    requires var s := After(cfg, Init(ids, now, limit), before);
             Enabled(cfg, s, OfWorld(Deliver(r, event))) && Runs(cfg, Next(cfg, s, OfWorld(Deliver(r, event))), mid)
    ensures var s := After(cfg, Init(ids, now, limit), before);
            var t := After(cfg, Next(cfg, s, OfWorld(Deliver(r, event))), mid);
            && Runs(cfg, Init(ids, now, limit), acts) && After(cfg, Init(ids, now, limit), acts) == t
            && r in t.replicas && event.era <= FloorOf(t.replicas[r].seen, event.key)
  {
    var init := Init(ids, now, limit);
    var s := After(cfg, init, before);
    var deliver := OfWorld(Deliver(r, event));
    ReachableInv(cfg, ids, now, limit, before);
    DeliveryIsSeen(cfg, s, r, event);
    hide Inv, Init;
    var u := Next(cfg, s, deliver);
    RunGrowsSeen(cfg, u, mid, r);
    RunsOne(cfg, s, deliver);
    RunsOn(cfg, s, [deliver], mid);
    RunsOn(cfg, init, before, [deliver] + mid);
    acts := before + ([deliver] + mid);
  }

  /**
    A read that starts on a replica at any time after it has handled a tag's event returns, if its
    generations were read, only a value whose load began after the bump the event announced.
   */
  lemma {:induction false} FreshAfterDelivery(cfg: Config, ids: set<nat>, now: int, limit: nat, before: seq<Action>,
                                              r: nat, event: Event, mid: seq<Action>, id: nat, slot: Slot,
                                              after: seq<Action>)
    requires ConfigOk(cfg) && limit < A.TWO_TO_62 && Runs(cfg, Init(ids, now, limit), before)
    requires var s := After(cfg, Init(ids, now, limit), before);
             && Enabled(cfg, s, OfWorld(Deliver(r, event)))
             && Runs(cfg, Next(cfg, s, OfWorld(Deliver(r, event))), mid)
             && var t := After(cfg, Next(cfg, s, OfWorld(Deliver(r, event))), mid);
                && Enabled(cfg, t, OfReader(StartRead(id, r, slot)))
                && Runs(cfg, Next(cfg, t, OfReader(StartRead(id, r, slot))), after)
    requires event.key in slot.genKeys
    ensures var s := After(cfg, Init(ids, now, limit), before);
            var t := After(cfg, Next(cfg, s, OfWorld(Deliver(r, event))), mid);
            var u := After(cfg, Next(cfg, t, OfReader(StartRead(id, r, slot))), after);
            id in u.readers && u.readers[id].slot == slot &&
            (u.readers[id].phase.Answered? && u.readers[id].phase.gens.Some? ==>
               event.era <= A.Era(u.readers[id].phase.answer.asOf, event.key))
  {
    hide Runs, After;
    var acts := DeliveredRun(cfg, ids, now, limit, before, r, event, mid);
    FreshAfterSeen(cfg, ids, now, limit, acts, r, event.key, event.era, id, slot, after);
  }

  // ---- Staleness when every event is lost ----

  /**
    A hit decided `delay + ttl` or more after a bump of one of its tags records a generation issued
    after that bump, and so serves a value whose load began after it. Nothing is assumed of the bus, nor
    of when an entry reached L1.
   */
  lemma {:induction false} StalenessBound(cfg: Config, ids: set<nat>, now: int, limit: nat, acts: seq<Action>, id: nat,
                                          i: nat, n: nat)
    requires ConfigOk(cfg) && limit < A.TWO_TO_62 && Runs(cfg, Init(ids, now, limit), acts)
    requires var s := After(cfg, Init(ids, now, limit), acts);
             && HitAfter(s, id, i, n, cfg.delay + cfg.ttl)
    ensures var s := After(cfg, Init(ids, now, limit), acts);
            var answer := s.readers[id].phase.answer;
            var key := s.readers[id].slot.genKeys[i];
            && answer.gens.Some? && i < |answer.gens.value| && answer.gens.value[i] in s.auth.issued
            && s.auth.issued[answer.gens.value[i]].key == key
            && n < s.auth.issued[answer.gens.value[i]].era <= A.Era(answer.asOf, key)
  {
    ReachableInv(cfg, ids, now, limit, acts);
    var s := After(cfg, Init(ids, now, limit), acts);
    var rd := s.readers[id];
    assert ReaderOk(cfg, s.auth, s.replicas[rd.replica], s.now, rd);
    var g := rd.phase.answer.gens.value[i];
    assert CurrentUntil(s.auth, g, rd.phase.answer.at - cfg.delay - cfg.ttl + 1);
  }

  /** A reader was served from L1 or L2, `late` or more after bump number `n` of its slot's tag number `i`. */
  ghost predicate HitAfter(s: State, id: nat, i: nat, n: nat, late: int) {
    && id in s.readers && s.readers[id].phase.Answered? && s.readers[id].phase.answer.source != Flight
    && i < |s.readers[id].slot.genKeys|
    && n < A.Era(s.auth.log, s.readers[id].slot.genKeys[i])
    && A.BumpTimes(s.auth.log, s.readers[id].slot.genKeys[i])[n] + late <= s.readers[id].phase.answer.at
  }

  // ---- Isolation ----

  /** Whatever a reader returns was cached or loaded for its own key with its own tags, known generations or not. */
  lemma {:induction false} AnswersAreOwn(cfg: Config, ids: set<nat>, now: int, limit: nat, acts: seq<Action>, id: nat)
    requires ConfigOk(cfg) && limit < A.TWO_TO_62 && Runs(cfg, Init(ids, now, limit), acts)
    requires var s := After(cfg, Init(ids, now, limit), acts); id in s.readers && s.readers[id].phase.Answered?
    ensures var s := After(cfg, Init(ids, now, limit), acts); s.readers[id].phase.answer.slot == s.readers[id].slot
  {
    ReachableInv(cfg, ids, now, limit, acts);
    var s := After(cfg, Init(ids, now, limit), acts);
    assert ReaderOk(cfg, s.auth, s.replicas[s.readers[id].replica], s.now, s.readers[id]);
  }

  /**
    End to end: a reader that asked for a key with some tags is never answered what was cached or loaded
    for another key, or for that key with another set of tags. Every slot there is can start a read.
   */
  lemma {:induction false} OwnersAreIsolated(cfg: Config, ids: set<nat>, now: int, limit: nat, acts: seq<Action>,
                                             id: nat, ns: string,
                          h: bool, hash: string -> string, key: string, tags: seq<string>, key': string,
                          tags': seq<string>)
    requires ConfigOk(cfg) && limit < A.TWO_TO_62 && Runs(cfg, Init(ids, now, limit), acts)
    requires K.DigestFunction(hash) && K.ValidNamespace(ns) && (hash(key) == hash(key') ==> key == key')
    requires S.SlotOf(ns, h, hash, true, key, tags).Ok? && S.SlotOf(ns, h, hash, true, key', tags').Ok?
    requires var s := After(cfg, Init(ids, now, limit), acts);
             && id in s.readers && s.readers[id].phase.Answered?
             && s.readers[id].slot == S.SlotOf(ns, h, hash, true, key, tags).value
             && s.readers[id].phase.answer.slot == S.SlotOf(ns, h, hash, true, key', tags').value
    ensures key == key' && forall t :: t in tags <==> t in tags'
    ensures var slot := S.SlotOf(ns, h, hash, true, key, tags).value; K.FlightSafe(slot.pk, slot.genKeys)
  {
    AnswersAreOwn(cfg, ids, now, limit, acts, id);
    S.SlotsAreFlightSafe(ns, h, hash, key, tags);
    S.SlotsAgreeExactlyWhen(ns, h, hash, key, tags, key', tags');
  }

  // ---- Born stale, never resurrected ----

  lemma ReadEvolves(cfg: Config, s: State, a: ReadAction)
    requires A.Valid(s.auth) && ReadEnabled(cfg, s, a)
    ensures A.Evolves(s.auth, AfterRead(cfg, s, a).auth, s.now)
  {
    hide A.Evolves;
    if a.Fetch? {
      A.ReadFacts(s.auth, s.readers[a.id].slot.genKeys, a.chances, s.now);
    } else {
      A.EvolvesReflexive(s.auth, s.now);
    }
  }

  lemma LoadEvolves(s: State, a: LoadAction)
    requires A.Valid(s.auth) && LoadEnabled(s, a)
    ensures A.Evolves(s.auth, AfterLoad(s, a).auth, s.now)
  {
    hide A.Evolves;
    if a.SetReads? {
      A.ReadFacts(s.auth, a.slot.genKeys, a.chances, s.now);
    } else {
      A.EvolvesReflexive(s.auth, s.now);
    }
  }

  lemma WorldEvolves(s: State, a: WorldAction)
    requires A.Valid(s.auth) && WorldEnabled(s, a)
    ensures A.Evolves(s.auth, AfterWorld(s, a).auth, s.now)
  {
    hide A.Evolves;
    if a.BumpTag? {
      A.BumpedFacts(s.auth, s.invalidations[a.inv].key, a.chance, s.now);
    } else if a.LoseCounters? {
      A.LoseEvolves(s.auth, a.keys, s.now);
    } else {
      A.EvolvesReflexive(s.auth, s.now);
    }
  }

  lemma StepEvolves(cfg: Config, s: State, a: Action)
    requires A.Valid(s.auth) && Enabled(cfg, s, a)
    ensures A.Evolves(s.auth, Next(cfg, s, a).auth, s.now)
  {
    hide A.Evolves;
    match a {
      case OfReader(read) => ReadEvolves(cfg, s, read);
      case OfLoad(load) => LoadEvolves(s, load);
      case OfWorld(world) => WorldEvolves(s, world);
    }
  }

  lemma {:induction false} RunRetires(cfg: Config, s: State, acts: seq<Action>)
    requires Inv(cfg, s) && Runs(cfg, s, acts)
    ensures A.StaysRetired(s.auth, After(cfg, s, acts).auth)
    decreases |acts|
  {
    if acts == [] {
    } else {
      StepKeeps(cfg, s, acts[0]);
      StepEvolves(cfg, s, acts[0]);
      RunRetires(cfg, Next(cfg, s, acts[0]), acts[1..]);
    }
  }

  /** A generation older than its counter's last bump is retired. */
  lemma BornStale(c: A.Counters, g: nat)
    requires A.Valid(c) && g in c.issued && c.issued[g].era < A.Era(c.log, c.issued[g].key)
    ensures A.Retired(c, g)
  {
  }

  /**
    An entry one of whose tags was bumped after its generations were read, or whose counter was lost,
    is refused by every check against the authority from then on: across any later bumps, losses and
    re-creations of counters, GetTagged never answers the generations it recorded again.
   */
  lemma NeverResurrected(cfg: Config, s: State, e: Entry, i: nat, acts: seq<Action>, chs: seq<A.Chance>)
    requires Inv(cfg, s) && EntryOk(s.auth, e.slot.pk, e) && i < |e.gens|
    requires A.Retired(s.auth, e.gens[i]) || s.auth.issued[e.gens[i]].era < A.Era(s.auth.log, e.slot.genKeys[i])
    requires Runs(cfg, s, acts) && |chs| == |e.slot.genKeys|
    requires A.ChancesOk(After(cfg, s, acts).auth, e.slot.genKeys, chs)
    ensures A.Read(After(cfg, s, acts).auth, e.slot.genKeys, chs).0 != e.gens
  {
    if !A.Retired(s.auth, e.gens[i]) {
      BornStale(s.auth, e.gens[i]);
    }
    RunKeeps(cfg, s, acts);
    RunRetires(cfg, s, acts);
    A.ReadFacts(After(cfg, s, acts).auth, e.slot.genKeys, chs, s.now);
  }

  /**
    Born stale: whatever a load stores that began before a bump of one of its tags is refused by every
    check against the authority from the bump on, wherever it is stored and whenever it gets there.
   */
  lemma OverlappedLoadIsNeverServed(cfg: Config, s: State, e: Entry, i: nat, acts: seq<Action>, chs: seq<A.Chance>)
    requires Inv(cfg, s) && EntryOk(s.auth, e.slot.pk, e) && i < |e.gens|
    requires A.Era(e.asOf, e.slot.genKeys[i]) < A.Era(s.auth.log, e.slot.genKeys[i])
    requires Runs(cfg, s, acts) && |chs| == |e.slot.genKeys|
    requires A.ChancesOk(After(cfg, s, acts).auth, e.slot.genKeys, chs)
    ensures A.Read(After(cfg, s, acts).auth, e.slot.genKeys, chs).0 != e.gens
  {
    NeverResurrected(cfg, s, e, i, acts, chs);
  }
}
