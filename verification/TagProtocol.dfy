/**
  The tagged two-level cache as a transition system: readTagged, InvalidateTag (tags.go), GetOrLoad,
  Set, backfill and write (cache.go), onEvent (events.go).

  Each action is one lock section or one store call, in the order the code makes them, and any number
  of readers, loads, invalidations and replicas interleave. Entries, counters and bus events may be
  lost at any moment, and forged events may appear. A caller joins any call ever made under its
  flight key on its replica, which covers every choice the flight group can make.

  History: `asOf` is the bump log when a load began (or a Set read its generations); `floor` and
  `seen` count the bumps whose invalidation a replica has completed.
 */
module TagProtocol {
  import opened Common
  import A = Authority
  import G = GenCopy
  import K = Keys

  /** `ttl` is the L1 TTL; `delay` bounds the time between a read's GetTagged and its last use of the answer. */
  datatype Config = Config(ttl: int, delay: int)

  ghost predicate ConfigOk(cfg: Config) {
    cfg.ttl >= 1 && cfg.delay >= 0
  }

  datatype Payload = Absent | Present(bytes: string)

  datatype Entry = Entry(slot: Slot, gens: seq<nat>, payload: Payload, asOf: A.Log, expires: int)

  datatype Source = L1 | L2 | Flight

  /** What a reader returned: where it came from, the slot and generations of its origin, and when that was decided. */
  datatype Answer = Answer(source: Source, slot: Slot, gens: Option<seq<nat>>, payload: Payload, asOf: A.Log, at: int,
                           entry: Option<Entry>)

  datatype Phase =
    | Started
    | HasLocal(local: Option<Entry>)
    | Unsettled(local: Option<Entry>)
    | Began(local: Option<Entry>, since: G.Epoch)
    | Fetched(local: Option<Entry>, since: G.Epoch, current: seq<nat>, remote: Option<Entry>, at: int)
    | Stored(local: Option<Entry>, current: seq<nat>, remote: Option<Entry>, at: int)
    | Missed(gens: Option<seq<nat>>)
    | Waiting(gens: Option<seq<nat>>, call: nat)
    | Answered(gens: Option<seq<nat>>, answer: Answer)

  datatype Reader = Reader(replica: nat, slot: Slot, floor: map<string, nat>, phase: Phase)

  datatype Replica = Replica(l1: map<string, Entry>, copy: G.Copy, seen: map<string, nat>)

  datatype Stage =
    | Created
    | Loading(asOf: A.Log)
    | Loaded(asOf: A.Log, payload: Payload)
    | Writing(entry: Entry)
    | Finished(asOf: A.Log, payload: Payload)

  /** A load under a flight key, or a Set, which nobody can join. */
  datatype Call = Call(replica: nat, joinable: bool, slot: Slot, gens: Option<seq<nat>>, stage: Stage)

  function FlightOf(slot: Slot, gens: Option<seq<nat>>): string {
    K.FlightKey(slot.pk, true, slot.genKeys, gens)
  }

  datatype Invalidation = Invalidation(replica: nat, key: string, step: InvalidationStep)

  /** `era` is how many bumps the counter had after this invalidation's own; 0 when the bump failed. */
  datatype InvalidationStep = Begun | Bumped(era: nat) | Dropped(era: nat)

  datatype Event = Event(key: string, era: nat)

  datatype State = State(
    now: int,
    auth: A.Counters,
    l2: map<string, Entry>,
    replicas: map<nat, Replica>,
    readers: map<nat, Reader>,
    calls: map<nat, Call>,
    invalidations: map<nat, Invalidation>,
    bus: set<Event>)

  function FloorOf(floor: map<string, nat>, k: string): nat {
    if k in floor then floor[k] else 0
  }

  function Raised(seen: map<string, nat>, k: string, era: nat): map<string, nat> {
    seen[k := if era > FloorOf(seen, k) then era else FloorOf(seen, k)]
  }

  function Init(ids: set<nat>, now: int, limit: nat): State {
    State(now, A.Counters(map[], map[], map[], 0, limit), map[],
          map r | r in ids :: Replica(map[], G.EMPTY_COPY, map[]), map[], map[], map[], {})
  }

  /** Steps of one reader, in code order. */
  datatype ReadAction =
    | StartRead(id: nat, replica: nat, slot: Slot)
    | ReadLocal(id: nat, ok: bool)
    | CheckLocal(id: nat, usable: bool)
    | TakeEpoch(id: nat)
    | Fetch(id: nat, chances: seq<A.Chance>)
    | FetchFails(id: nat)
    | StoreGens(id: nat)
    | Decide(id: nat, usableLocal: bool, usableRemote: bool)
    | Backfill(id: nat)
    | Lead(id: nat, call: nat)
    | Join(id: nat, call: nat)
    | Receive(id: nat)

  /** Steps of one load, or of one Set. */
  datatype LoadAction =
    | BeginLoad(call: nat)
    | EndLoad(call: nat, payload: Payload)
    | WriteL2(call: nat, expires: int, ok: bool)
    | WriteL1(call: nat, ok: bool)
    | Finish(call: nat)
    | SetReads(call: nat, replica: nat, slot: Slot, payload: Payload, chances: seq<A.Chance>)

  /** Steps of an invalidation, of the bus, and everything that gets lost. */
  datatype WorldAction =
    | BeginInvalidate(inv: nat, replica: nat, key: string)
    | BumpTag(inv: nat, chance: A.Chance)
    | BumpFails(inv: nat)
    | DropLocal(inv: nat)
    | Publish(inv: nat)
    | Deliver(replica: nat, event: Event)
    | LoseEvent(event: Event)
    | ForgeEvent(key: string)
    | LoseL1(replica: nat, pks: set<string>)
    | LoseL2(pks: set<string>)
    | LoseCounters(keys: set<string>)
    | Tick(dt: nat)

  datatype Action = OfReader(read: ReadAction) | OfLoad(load: LoadAction) | OfWorld(world: WorldAction)

  // ---- Enabling conditions ----

  predicate In(s: State, id: nat) {
    id in s.readers && s.readers[id].replica in s.replicas
  }

  ghost predicate MayFetch(s: State, id: nat, chances: seq<A.Chance>) {
    && In(s, id) && s.readers[id].phase.Began?
    && |chances| == |s.readers[id].slot.genKeys|
    && A.ChancesOk(s.auth, s.readers[id].slot.genKeys, chances)
  }

  predicate MayStore(cfg: Config, s: State, id: nat) {
    && In(s, id) && s.readers[id].phase.Fetched? && s.now <= s.readers[id].phase.at + cfg.delay
    && |s.readers[id].phase.current| == |s.readers[id].slot.genKeys| == |s.readers[id].phase.since.drops|
  }

  predicate MayReceive(s: State, id: nat) {
    && In(s, id) && s.readers[id].phase.Waiting?
    && s.readers[id].phase.call in s.calls && s.calls[s.readers[id].phase.call].stage.Finished?
  }

  ghost predicate ReadEnabled(cfg: Config, s: State, a: ReadAction) {
    match a
    case StartRead(id, r, slot) => id !in s.readers && r in s.replicas && K.FlightSafe(slot.pk, slot.genKeys)
    case ReadLocal(id, _) => In(s, id) && s.readers[id].phase.Started?
    case CheckLocal(id, _) => In(s, id) && s.readers[id].phase.HasLocal?
    case TakeEpoch(id) => In(s, id) && s.readers[id].phase.Unsettled?
    case Fetch(id, chances) => MayFetch(s, id, chances)
    case FetchFails(id) => In(s, id) && s.readers[id].phase.Began?
    case StoreGens(id) => MayStore(cfg, s, id)
    case Decide(id, _, _) => In(s, id) && s.readers[id].phase.Stored? && s.now <= s.readers[id].phase.at + cfg.delay
    case Backfill(id) =>
      && In(s, id) && s.readers[id].phase.Answered?
      && s.readers[id].phase.answer.source == L2 && s.readers[id].phase.answer.entry.Some?
      && s.now < s.readers[id].phase.answer.entry.value.expires
    case Lead(id, call) => In(s, id) && s.readers[id].phase.Missed? && call !in s.calls
    case Join(id, call) =>
      && In(s, id) && s.readers[id].phase.Missed? && call in s.calls && s.calls[call].joinable
      && s.calls[call].replica == s.readers[id].replica
      && FlightOf(s.calls[call].slot, s.calls[call].gens) == FlightOf(s.readers[id].slot, s.readers[id].phase.gens)
    case Receive(id) => MayReceive(s, id)
  }

  ghost predicate LoadEnabled(s: State, a: LoadAction) {
    match a
    case BeginLoad(call) => call in s.calls && s.calls[call].stage.Created?
    case EndLoad(call, _) => call in s.calls && s.calls[call].stage.Loading?
    case WriteL2(call, _, _) => call in s.calls && s.calls[call].stage.Loaded? && s.calls[call].gens.Some?
    case WriteL1(call, _) => call in s.calls && s.calls[call].stage.Writing? && s.calls[call].replica in s.replicas
    case Finish(call) => call in s.calls && s.calls[call].stage.Loaded?
    case SetReads(call, r, slot, _, chances) =>
      && call !in s.calls && r in s.replicas && K.FlightSafe(slot.pk, slot.genKeys)
      && |chances| == |slot.genKeys| && A.ChancesOk(s.auth, slot.genKeys, chances)
  }

  ghost predicate WorldEnabled(s: State, a: WorldAction) {
    match a
    case BeginInvalidate(inv, r, _) => inv !in s.invalidations && r in s.replicas
    case BumpTag(inv, chance) =>
      && inv in s.invalidations && s.invalidations[inv].step.Begun?
      && A.ChanceOk(s.auth, s.invalidations[inv].key, chance) && s.auth.bumps < s.auth.limit
    case BumpFails(inv) => inv in s.invalidations && s.invalidations[inv].step.Begun?
    case DropLocal(inv) =>
      inv in s.invalidations && s.invalidations[inv].step.Bumped? && s.invalidations[inv].replica in s.replicas
    case Publish(inv) => inv in s.invalidations && s.invalidations[inv].step.Dropped?
    case Deliver(r, event) => r in s.replicas && event in s.bus
    case LoseL1(r, _) => r in s.replicas
    case LoseEvent(_) => true
    case ForgeEvent(_) => true
    case LoseL2(_) => true
    case LoseCounters(_) => true
    case Tick(_) => true
  }

  ghost predicate Enabled(cfg: Config, s: State, a: Action) {
    match a
    case OfReader(read) => ReadEnabled(cfg, s, read)
    case OfLoad(load) => LoadEnabled(s, load)
    case OfWorld(world) => WorldEnabled(s, world)
  }

  // ---- Transitions ----

  function WithPhase(s: State, id: nat, phase: Phase): State
    requires id in s.readers
  {
    s.(readers := s.readers[id := s.readers[id].(phase := phase)])
  }

  function WithStage(s: State, call: nat, stage: Stage): State
    requires call in s.calls
  {
    s.(calls := s.calls[call := s.calls[call].(stage := stage)])
  }

  function WithReplica(s: State, r: nat, rep: Replica): State {
    s.(replicas := s.replicas[r := rep])
  }

  /** An entry found in a map, unless it is missing or past its logical expiry. */
  function Unexpired(entries: map<string, Entry>, pk: string, now: int): Option<Entry> {
    if pk in entries && now < entries[pk].expires then Some(entries[pk]) else None
  }

  function Served(source: Source, e: Entry, gens: seq<nat>, now: int): Phase {
    Answered(Some(gens), Answer(source, e.slot, Some(e.gens), e.payload, e.asOf, now, Some(e)))
  }

  /**
    The decision after gens.get: serve the L1 entry only against a complete, fresh local copy that equals
    what it recorded.
   */
  function AfterCheck(rep: Replica, slot: Slot, local: Option<Entry>, usable: bool, now: int): Phase {
    var cached := G.Lookup(rep.copy, slot.genKeys, now);
    if local.Some? && cached.Some? && local.value.gens == cached.value && usable
    then Served(L1, local.value, cached.value, now)
    else Unsettled(local)
  }

  /**
    The decision after gens.put: the L1 entry, else the L2 entry, else a miss, each compared with the
    generations fetched.
   */
  function AfterStore(p: Phase, usableLocal: bool, usableRemote: bool, now: int): Phase
    requires p.Stored?
  {
    if p.local.Some? && p.local.value.gens == p.current && usableLocal then Served(L1, p.local.value, p.current, now)
    else if p.remote.Some? && now < p.remote.value.expires && p.remote.value.gens == p.current && usableRemote
    then Served(L2, p.remote.value, p.current, now)
    else Missed(Some(p.current))
  }

  /** A drop of `key` after the bump that made it `era` bumps old. */
  function DropAt(s: State, r: nat, key: string, era: nat): State
    requires r in s.replicas
  {
    var rep := s.replicas[r];
    WithReplica(s, r, rep.(copy := G.Dropped(rep.copy, key), seen := Raised(rep.seen, key, era)))
  }

  /** GetTagged: the generations and the entry, in one atomic step of the authority. */
  function FetchStep(s: State, id: nat, chances: seq<A.Chance>): State
    requires In(s, id) && s.readers[id].phase.Began? && |chances| == |s.readers[id].slot.genKeys|
  {
    var rd := s.readers[id];
    var (gens, auth) := A.Read(s.auth, rd.slot.genKeys, chances);
    var remote := if rd.slot.pk in s.l2 then Some(s.l2[rd.slot.pk]) else None;
    WithPhase(s.(auth := auth), id, Fetched(rd.phase.local, rd.phase.since, gens, remote, s.now))
  }

  /** gens.put with the epoch taken before the fetch. */
  function StoreCopy(cfg: Config, s: State, id: nat): State
    requires MayStore(cfg, s, id)
  {
    var rd := s.readers[id];
    var rep := s.replicas[rd.replica];
    var copy := G.Store(rep.copy, rd.slot.genKeys, rd.phase.current, rd.phase.since, s.now + cfg.ttl);
    WithReplica(s, rd.replica, rep.(copy := copy))
  }

  function StoreStep(cfg: Config, s: State, id: nat): State
    requires MayStore(cfg, s, id)
  {
    var p := s.readers[id].phase;
    WithPhase(StoreCopy(cfg, s, id), id, Stored(p.local, p.current, p.remote, p.at))
  }

  function ReceiveStep(s: State, id: nat): State
    requires MayReceive(s, id)
  {
    var p := s.readers[id].phase;
    var c := s.calls[p.call];
    WithPhase(s, id, Answered(p.gens, Answer(Flight, c.slot, c.gens, c.stage.payload, c.stage.asOf, s.now, None)))
  }

  ghost function AfterRead(cfg: Config, s: State, a: ReadAction): State
    requires ReadEnabled(cfg, s, a)
  {
    match a
    case StartRead(id, r, slot) => s.(readers := s.readers[id := Reader(r, slot, s.replicas[r].seen, Started)])
    case ReadLocal(id, ok) =>
      var rd := s.readers[id];
      WithPhase(s, id, HasLocal(if ok then Unexpired(s.replicas[rd.replica].l1, rd.slot.pk, s.now) else None))
    case CheckLocal(id, usable) =>
      var rd := s.readers[id];
      WithPhase(s, id, AfterCheck(s.replicas[rd.replica], rd.slot, rd.phase.local, usable, s.now))
    case TakeEpoch(id) =>
      var rd := s.readers[id];
      WithPhase(s, id, Began(rd.phase.local, G.Snapshot(s.replicas[rd.replica].copy, rd.slot.genKeys)))
    case Decide(id, usableLocal, usableRemote) =>
      WithPhase(s, id, AfterStore(s.readers[id].phase, usableLocal, usableRemote, s.now))
    case Fetch(id, chances) => FetchStep(s, id, chances)
    case FetchFails(id) => WithPhase(s, id, Missed(None))
    case StoreGens(id) => StoreStep(cfg, s, id)
    case Backfill(id) =>
      var rd := s.readers[id];
      var rep := s.replicas[rd.replica];
      WithReplica(s, rd.replica, rep.(l1 := rep.l1[rd.slot.pk := rd.phase.answer.entry.value]))
    case Lead(id, call) =>
      var rd := s.readers[id];
      WithPhase(s.(calls := s.calls[call := Call(rd.replica, true, rd.slot, rd.phase.gens, Created)]), id,
                Waiting(rd.phase.gens, call))
    case Join(id, call) => WithPhase(s, id, Waiting(s.readers[id].phase.gens, call))
    case Receive(id) => ReceiveStep(s, id)
  }

  ghost function AfterLoad(s: State, a: LoadAction): State
    requires LoadEnabled(s, a)
  {
    match a
    case BeginLoad(call) => WithStage(s, call, Loading(s.auth.log))
    case EndLoad(call, payload) => WithStage(s, call, Loaded(s.calls[call].stage.asOf, payload))
    case WriteL2(call, expires, ok) =>
      var c := s.calls[call];
      var e := Entry(c.slot, c.gens.value, c.stage.payload, c.stage.asOf, expires);
      WithStage(if ok then s.(l2 := s.l2[c.slot.pk := e]) else s, call, Writing(e))
    case WriteL1(call, ok) =>
      var c := s.calls[call];
      var rep := s.replicas[c.replica];
      WithStage(if ok then WithReplica(s, c.replica, rep.(l1 := rep.l1[c.slot.pk := c.stage.entry])) else s,
                call, Finished(c.stage.entry.asOf, c.stage.entry.payload))
    case Finish(call) => WithStage(s, call, Finished(s.calls[call].stage.asOf, s.calls[call].stage.payload))
    case SetReads(call, r, slot, payload, chances) =>
      var (gens, auth) := A.Read(s.auth, slot.genKeys, chances);
      s.(auth := auth, calls := s.calls[call := Call(r, false, slot, Some(gens), Loaded(auth.log, payload))])
  }

  ghost function AfterWorld(s: State, a: WorldAction): State
    requires WorldEnabled(s, a)
  {
    match a
    case BeginInvalidate(inv, r, key) => s.(invalidations := s.invalidations[inv := Invalidation(r, key, Begun)])
    case BumpTag(inv, chance) =>
      var i := s.invalidations[inv];
      var auth := A.Bumped(s.auth, i.key, chance, s.now);
      s.(auth := auth, invalidations := s.invalidations[inv := i.(step := Bumped(A.Era(auth.log, i.key)))])
    case BumpFails(inv) =>
      s.(invalidations := s.invalidations[inv := s.invalidations[inv].(step := Bumped(0))])
    case DropLocal(inv) =>
      var i := s.invalidations[inv];
      DropAt(s, i.replica, i.key, i.step.era).(invalidations := s.invalidations[inv := i.(step := Dropped(i.step.era))])
    case Publish(inv) =>
      s.(bus := s.bus + {Event(s.invalidations[inv].key, s.invalidations[inv].step.era)})
    case Deliver(r, event) => DropAt(s, r, event.key, event.era)
    case LoseEvent(event) => s.(bus := s.bus - {event})
    case ForgeEvent(key) => s.(bus := s.bus + {Event(key, 0)})
    case LoseL1(r, pks) => WithReplica(s, r, s.replicas[r].(l1 := s.replicas[r].l1 - pks))
    case LoseL2(pks) => s.(l2 := s.l2 - pks)
    case LoseCounters(keys) => s.(auth := A.Lose(s.auth, keys))
    case Tick(dt) => s.(now := s.now + dt)
  }

  ghost function Next(cfg: Config, s: State, a: Action): State
    requires Enabled(cfg, s, a)
  {
    match a
    case OfReader(read) => AfterRead(cfg, s, read)
    case OfLoad(load) => AfterLoad(s, load)
    case OfWorld(world) => AfterWorld(s, world)
  }

  // ---- The invariant ----

  /** No generation of `gens` predates the bumps `floor` counts. */
  ghost predicate Covers(c: A.Counters, ks: seq<string>, gens: seq<nat>, floor: map<string, nat>) {
    && A.GensOf(c, ks, gens)
    && forall i :: 0 <= i < |gens| ==> FloorOf(floor, ks[i]) <= c.issued[gens[i]].era
  }

  /** Every bump that came after `g` was issued came at `bound` or later. */
  ghost predicate CurrentUntil(c: A.Counters, g: nat, bound: int)
    requires g in c.issued
  {
    forall n :: c.issued[g].era <= n < A.Era(c.log, c.issued[g].key) ==>
      A.BumpTimes(c.log, c.issued[g].key)[n] >= bound
  }

  ghost predicate AllCurrentUntil(c: A.Counters, gens: seq<nat>, bound: int) {
    forall i :: 0 <= i < |gens| ==> gens[i] in c.issued && CurrentUntil(c, gens[i], bound)
  }

  /** The load behind `asOf` began after every generation of `gens` was issued. */
  ghost predicate LoadedAfter(c: A.Counters, ks: seq<string>, gens: seq<nat>, asOf: A.Log) {
    && A.GensOf(c, ks, gens)
    && forall i :: 0 <= i < |gens| ==> c.issued[gens[i]].era <= A.Era(asOf, ks[i])
  }

  ghost predicate EntryOk(c: A.Counters, pk: string, e: Entry) {
    e.slot.pk == pk && LoadedAfter(c, e.slot.genKeys, e.gens, e.asOf)
  }

  ghost predicate MaybeOk(c: A.Counters, pk: string, e: Option<Entry>) {
    e.Some? ==> EntryOk(c, pk, e.value)
  }

  ghost predicate EntriesOk(c: A.Counters, entries: map<string, Entry>) {
    forall pk :: pk in entries ==> EntryOk(c, pk, entries[pk])
  }

  /** What the local copy says of one counter is no older than the drops it has seen. */
  ghost predicate CachedOk(cfg: Config, c: A.Counters, seen: map<string, nat>, now: int, k: string,
                           cached: G.CachedGen) {
    && cached.gen in c.issued && c.issued[cached.gen].key == k
    && FloorOf(seen, k) <= c.issued[cached.gen].era
    && CurrentUntil(c, cached.gen, cached.expires - cfg.ttl - cfg.delay)
    && cached.expires <= now + cfg.ttl
  }

  ghost predicate CopyOk(cfg: Config, c: A.Counters, rep: Replica, now: int) {
    forall k :: k in rep.copy.m ==> CachedOk(cfg, c, rep.seen, now, k, rep.copy.m[k])
  }

  ghost predicate SeenOk(c: A.Counters, seen: map<string, nat>) {
    forall k :: FloorOf(seen, k) <= A.Era(c.log, k)
  }

  ghost predicate ReplicaOk(cfg: Config, c: A.Counters, now: int, rep: Replica) {
    EntriesOk(c, rep.l1) && CopyOk(cfg, c, rep, now) && SeenOk(c, rep.seen)
  }

  ghost predicate FloorBelow(floor: map<string, nat>, seen: map<string, nat>) {
    forall k :: FloorOf(floor, k) <= FloorOf(seen, k)
  }

  ghost predicate KnownOk(c: A.Counters, slot: Slot, floor: map<string, nat>, gens: Option<seq<nat>>) {
    gens.Some? ==> Covers(c, slot.genKeys, gens.value, floor)
  }

  /** The load behind an answer began after the bumps `floor` counts. */
  ghost predicate FreshFor(ks: seq<string>, floor: map<string, nat>, asOf: A.Log) {
    forall i :: 0 <= i < |ks| ==> FloorOf(floor, ks[i]) <= A.Era(asOf, ks[i])
  }

  ghost predicate AnswerOk(cfg: Config, c: A.Counters, now: int, slot: Slot, floor: map<string, nat>,
                           gens: Option<seq<nat>>, a: Answer) {
    && a.slot == slot
    && a.at <= now
    && (gens.Some? ==> FreshFor(slot.genKeys, floor, a.asOf))
    && (a.source != Flight ==>
          && gens.Some? && a.gens == gens && LoadedAfter(c, slot.genKeys, gens.value, a.asOf)
          && AllCurrentUntil(c, gens.value, a.at - cfg.delay - cfg.ttl + 1))
    && MaybeOk(c, slot.pk, a.entry)
  }

  ghost predicate PhaseOk(cfg: Config, c: A.Counters, rep: Replica, now: int, slot: Slot, floor: map<string, nat>,
                          p: Phase) {
    match p
    case Started => true
    case HasLocal(local) => MaybeOk(c, slot.pk, local)
    case Unsettled(local) => MaybeOk(c, slot.pk, local)
    case Began(local, since) => MaybeOk(c, slot.pk, local) && G.EpochBelow(rep.copy, slot.genKeys, since)
    case Fetched(local, since, current, remote, at) =>
      && MaybeOk(c, slot.pk, local) && MaybeOk(c, slot.pk, remote)
      && G.EpochBelow(rep.copy, slot.genKeys, since)
      && at <= now && AllCurrentUntil(c, current, at)
      && Covers(c, slot.genKeys, current, floor)
      && (G.Accepts(rep.copy, slot.genKeys, since) ==> Covers(c, slot.genKeys, current, rep.seen))
    case Stored(local, current, remote, at) =>
      && MaybeOk(c, slot.pk, local) && MaybeOk(c, slot.pk, remote)
      && at <= now && AllCurrentUntil(c, current, at)
      && Covers(c, slot.genKeys, current, floor)
    case Missed(gens) => KnownOk(c, slot, floor, gens)
    case Waiting(gens, _) => KnownOk(c, slot, floor, gens)
    case Answered(gens, answer) => AnswerOk(cfg, c, now, slot, floor, gens, answer)
  }

  ghost predicate ReaderOk(cfg: Config, c: A.Counters, rep: Replica, now: int, rd: Reader) {
    && K.FlightSafe(rd.slot.pk, rd.slot.genKeys)
    && FloorBelow(rd.floor, rep.seen)
    && PhaseOk(cfg, c, rep, now, rd.slot, rd.floor, rd.phase)
  }

  ghost predicate StageOk(c: A.Counters, slot: Slot, gens: Option<seq<nat>>, stage: Stage) {
    match stage
    case Created => true
    case Loading(asOf) => gens.Some? ==> LoadedAfter(c, slot.genKeys, gens.value, asOf)
    case Loaded(asOf, _) => gens.Some? ==> LoadedAfter(c, slot.genKeys, gens.value, asOf)
    case Writing(e) => gens == Some(e.gens) && e.slot == slot && EntryOk(c, slot.pk, e)
    case Finished(asOf, _) => gens.Some? ==> LoadedAfter(c, slot.genKeys, gens.value, asOf)
  }

  ghost predicate CallOk(c: A.Counters, call: Call) {
    && K.FlightSafe(call.slot.pk, call.slot.genKeys)
    && (call.gens.Some? ==> A.GensOf(c, call.slot.genKeys, call.gens.value))
    && StageOk(c, call.slot, call.gens, call.stage)
  }

  ghost predicate ReplicasOk(cfg: Config, c: A.Counters, now: int, replicas: map<nat, Replica>) {
    forall r :: r in replicas ==> ReplicaOk(cfg, c, now, replicas[r])
  }

  ghost predicate ReadersOk(cfg: Config, c: A.Counters, now: int, replicas: map<nat, Replica>,
                            readers: map<nat, Reader>) {
    forall id :: id in readers ==>
      readers[id].replica in replicas && ReaderOk(cfg, c, replicas[readers[id].replica], now, readers[id])
  }

  ghost predicate CallsOk(c: A.Counters, calls: map<nat, Call>) {
    forall id :: id in calls ==> CallOk(c, calls[id])
  }

  /** A waiting caller waits on a load of its own slot, started by a caller that read the same generations. */
  ghost predicate WaiterOk(calls: map<nat, Call>, rd: Reader) {
    rd.phase.Waiting? ==>
      && rd.phase.call in calls
      && calls[rd.phase.call].slot == rd.slot
      && calls[rd.phase.call].gens == rd.phase.gens
      && calls[rd.phase.call].replica == rd.replica
  }

  ghost predicate WaitersOk(calls: map<nat, Call>, readers: map<nat, Reader>) {
    forall id :: id in readers ==> WaiterOk(calls, readers[id])
  }

  ghost predicate InvalidationOk(c: A.Counters, replicas: map<nat, Replica>, i: Invalidation) {
    match i.step
    case Begun => true
    case Bumped(era) => era <= A.Era(c.log, i.key)
    case Dropped(era) =>
      && era <= A.Era(c.log, i.key)
      && i.replica in replicas && era <= FloorOf(replicas[i.replica].seen, i.key)
  }

  ghost predicate InvalidationsOk(c: A.Counters, replicas: map<nat, Replica>, invalidations: map<nat, Invalidation>) {
    forall i :: i in invalidations ==> InvalidationOk(c, replicas, invalidations[i])
  }

  ghost predicate BusOk(c: A.Counters, bus: set<Event>) {
    forall e :: e in bus ==> e.era <= A.Era(c.log, e.key)
  }

  ghost predicate Inv(cfg: Config, s: State) {
    && ConfigOk(cfg)
    && A.Valid(s.auth)
    && EntriesOk(s.auth, s.l2)
    && ReplicasOk(cfg, s.auth, s.now, s.replicas)
    && ReadersOk(cfg, s.auth, s.now, s.replicas, s.readers)
    && CallsOk(s.auth, s.calls)
    && WaitersOk(s.calls, s.readers)
    && InvalidationsOk(s.auth, s.replicas, s.invalidations)
    && BusOk(s.auth, s.bus)
  }
}
