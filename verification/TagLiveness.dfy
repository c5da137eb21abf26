/**
  What the protocol of TagProtocol.dfy must still do: an invalidation is announced and can be handled
  by every replica, what a load stored is found by the reads after it, and no step waits in vain.
 */
module TagLiveness {
  import opened Common
  import opened TagProtocol
  import opened TagSafety
  import A = Authority
  import G = GenCopy
  import K = Keys

  // ---- Runs ----

  /** The actions are a run from `s`, and it ends in `t`. */
  ghost predicate Leads(cfg: Config, s: State, acts: seq<Action>, t: State) {
    Runs(cfg, s, acts) && After(cfg, s, acts) == t
  }

  lemma LeadsNowhere(cfg: Config, s: State)
    ensures Leads(cfg, s, [], s)
  {
  }

  lemma LeadsOn(cfg: Config, s: State, a: Action, acts: seq<Action>, t: State)
    requires Enabled(cfg, s, a) && Leads(cfg, Next(cfg, s, a), acts, t)
    ensures Leads(cfg, s, [a] + acts, t)
  {
    assert ([a] + acts)[1..] == acts;
  }

  // ---- An invalidation is announced ----

  /** Invalidation `inv` of `key` on replica `r` has made bump number `era` of its counter. */
  ghost predicate HasBumped(s: State, inv: nat, r: nat, key: string, era: nat) {
    && inv in s.invalidations
    && (s.invalidations[inv] == Invalidation(r, key, Bumped(era)) ||
        s.invalidations[inv] == Invalidation(r, key, Dropped(era)))
  }

  /** A bump is one more than its counter had, and the invalidation remembers its number. */
  lemma BumpIsNumbered(cfg: Config, s: State, inv: nat, chance: A.Chance)
    requires Enabled(cfg, s, OfWorld(BumpTag(inv, chance)))
    ensures var i := s.invalidations[inv];
            var t := Next(cfg, s, OfWorld(BumpTag(inv, chance)));
            && A.Era(t.auth.log, i.key) == A.Era(s.auth.log, i.key) + 1
            && HasBumped(t, inv, i.replica, i.key, A.Era(s.auth.log, i.key) + 1)
  {
    A.BumpedLog(s.auth, s.invalidations[inv].key, chance, s.now);
  }

  lemma ReadKeepsInvalidations(cfg: Config, s: State, a: ReadAction)
    requires ReadEnabled(cfg, s, a)
    ensures AfterRead(cfg, s, a).invalidations == s.invalidations && AfterRead(cfg, s, a).bus == s.bus
  {
    hide G.Store;
  }

  lemma LoadKeepsInvalidations(s: State, a: LoadAction)
    requires LoadEnabled(s, a)
    ensures AfterLoad(s, a).invalidations == s.invalidations && AfterLoad(s, a).bus == s.bus
  {
  }

  lemma WorldKeepsBump(s: State, a: WorldAction, inv: nat, r: nat, key: string, era: nat)
    requires WorldEnabled(s, a) && HasBumped(s, inv, r, key, era)
    ensures HasBumped(AfterWorld(s, a), inv, r, key, era)
  {
    hide A.Bumped, G.Dropped, A.Lose;
  }

  lemma StepKeepsBump(cfg: Config, s: State, a: Action, inv: nat, r: nat, key: string, era: nat)
    requires Enabled(cfg, s, a) && HasBumped(s, inv, r, key, era)
    ensures HasBumped(Next(cfg, s, a), inv, r, key, era)
  {
    hide AfterRead, AfterLoad, AfterWorld, ReadEnabled, LoadEnabled, WorldEnabled;
    match a {
      case OfReader(read) => ReadKeepsInvalidations(cfg, s, read);
      case OfLoad(load) => LoadKeepsInvalidations(s, load);
      case OfWorld(world) => WorldKeepsBump(s, world, inv, r, key, era);
    }
  }

  lemma {:induction false} RunKeepsBump(cfg: Config, s: State, acts: seq<Action>, inv: nat, r: nat, key: string,
                                        era: nat)
    requires Runs(cfg, s, acts) && HasBumped(s, inv, r, key, era)
    ensures HasBumped(After(cfg, s, acts), inv, r, key, era)
    decreases |acts|
  {
    if acts == [] {
    } else {
      hide HasBumped;
      StepKeepsBump(cfg, s, acts[0], inv, r, key, era);
      RunKeepsBump(cfg, Next(cfg, s, acts[0]), acts[1..], inv, r, key, era);
    }
  }

  lemma WorldKeepsEvent(s: State, a: WorldAction, event: Event)
    requires WorldEnabled(s, a) && event in s.bus && a != LoseEvent(event)
    ensures event in AfterWorld(s, a).bus
  {
    hide A.Bumped, G.Dropped, A.Lose;
  }

  lemma StepKeepsEvent(cfg: Config, s: State, a: Action, event: Event)
    requires Enabled(cfg, s, a) && event in s.bus && a != OfWorld(LoseEvent(event))
    ensures event in Next(cfg, s, a).bus
  {
    hide AfterRead, AfterLoad, AfterWorld, ReadEnabled, LoadEnabled, WorldEnabled;
    match a {
      case OfReader(read) => ReadKeepsInvalidations(cfg, s, read);
      case OfLoad(load) => LoadKeepsInvalidations(s, load);
      case OfWorld(world) => WorldKeepsEvent(s, world, event);
    }
  }

  /** An event stays on the bus until it is lost, delivered or not. */
  lemma {:induction false} RunKeepsEvent(cfg: Config, s: State, acts: seq<Action>, event: Event)
    requires Runs(cfg, s, acts) && event in s.bus && OfWorld(LoseEvent(event)) !in acts
    ensures event in After(cfg, s, acts).bus
    decreases |acts|
  {
    if acts == [] {
    } else {
      StepKeepsEvent(cfg, s, acts[0], event);
      RunKeepsEvent(cfg, Next(cfg, s, acts[0]), acts[1..], event);
    }
  }

  /** The state `inv`'s bump leaves. */
  ghost function Bumping(cfg: Config, s: State, inv: nat, chance: A.Chance): State
    requires Enabled(cfg, s, OfWorld(BumpTag(inv, chance)))
  {
    Next(cfg, s, OfWorld(BumpTag(inv, chance)))
  }

  /**
    Once an invalidation has bumped, its later Publish puts the event of that very bump on the bus, and
    until the bus loses it every replica can handle it.
   */
  lemma PublishedIsDeliverable(cfg: Config, s: State, inv: nat, chance: A.Chance, mid: seq<Action>, event: Event,
                               last: seq<Action>)
    requires Enabled(cfg, s, OfWorld(BumpTag(inv, chance)))
    requires event == Event(s.invalidations[inv].key, A.Era(s.auth.log, s.invalidations[inv].key) + 1)
    requires Runs(cfg, Bumping(cfg, s, inv, chance), mid + [OfWorld(Publish(inv))] + last)
    requires OfWorld(LoseEvent(event)) !in last
    ensures var t := After(cfg, Bumping(cfg, s, inv, chance), mid + [OfWorld(Publish(inv))] + last);
            forall q :: q in t.replicas ==> Enabled(cfg, t, OfWorld(Deliver(q, event)))
  {
    var i := s.invalidations[inv];
    var s1 := Bumping(cfg, s, inv, chance);
    BumpIsNumbered(cfg, s, inv, chance);
    hide Next, Runs, After, HasBumped, A.Era;
    assert mid + [OfWorld(Publish(inv))] + last == mid + ([OfWorld(Publish(inv))] + last);
    RunsApart(cfg, s1, mid, [OfWorld(Publish(inv))] + last);
    var s2 := After(cfg, s1, mid);
    RunKeepsBump(cfg, s1, mid, inv, i.replica, event.key, event.era);
    FirstOf(cfg, s2, OfWorld(Publish(inv)), last);
    PublishAnnounces(cfg, s2, inv, i.replica, event.key, event.era);
    RunKeepsEvent(cfg, Next(cfg, s2, OfWorld(Publish(inv))), last, event);
  }

  lemma PublishAnnounces(cfg: Config, s: State, inv: nat, r: nat, key: string, era: nat)
    requires Enabled(cfg, s, OfWorld(Publish(inv))) && HasBumped(s, inv, r, key, era)
    ensures Event(key, era) in Next(cfg, s, OfWorld(Publish(inv))).bus
  {
  }

  lemma FirstOf(cfg: Config, s: State, a: Action, acts: seq<Action>)
    requires Runs(cfg, s, [a] + acts)
    ensures Enabled(cfg, s, a) && Runs(cfg, Next(cfg, s, a), acts)
    ensures After(cfg, s, [a] + acts) == After(cfg, Next(cfg, s, a), acts)
  {
    assert ([a] + acts)[1..] == acts;
  }

  lemma {:induction false} RunsApart(cfg: Config, s: State, a: seq<Action>, b: seq<Action>)
    requires Runs(cfg, s, a + b)
    ensures Runs(cfg, s, a) && Runs(cfg, After(cfg, s, a), b)
    ensures After(cfg, s, a + b) == After(cfg, After(cfg, s, a), b)
    decreases |a|
  {
    if a == [] {
      assert a + b == b;
    } else {
      assert (a + b)[0] == a[0] && (a + b)[1..] == a[1..] + b;
      RunsApart(cfg, Next(cfg, s, a[0]), a[1..], b);
    }
  }

  /**
    A read that starts on replica `q` at any time from `s` on, and knew its generations, returns only a
    value whose load began after bump number `n` of the tag.
   */
  ghost predicate ReadsFreshFrom(cfg: Config, s: State, q: nat, key: string, n: nat) {
    forall id: nat, slot: Slot, between: seq<Action>, after: seq<Action> | key in slot.genKeys &&
      ReadAt(cfg, s, between, q, id, slot, after) ::
      var t := ReadEnd(cfg, s, between, q, id, slot, after);
      id in t.readers && t.readers[id].slot == slot &&
      (t.readers[id].phase.Answered? && t.readers[id].phase.gens.Some? ==>
         n <= A.Era(t.readers[id].phase.answer.asOf, key))
  }

  /** `between`, then the start of a read on `q`, then `after`, are a run. */
  ghost predicate ReadAt(cfg: Config, s: State, between: seq<Action>, q: nat, id: nat, slot: Slot, after: seq<Action>) {
    && Runs(cfg, s, between)
    && Enabled(cfg, After(cfg, s, between), OfReader(StartRead(id, q, slot)))
    && Runs(cfg, Next(cfg, After(cfg, s, between), OfReader(StartRead(id, q, slot))), after)
  }

  ghost function ReadEnd(cfg: Config, s: State, between: seq<Action>, q: nat, id: nat, slot: Slot,
                         after: seq<Action>): State
    requires ReadAt(cfg, s, between, q, id, slot, after)
  {
    After(cfg, Next(cfg, After(cfg, s, between), OfReader(StartRead(id, q, slot))), after)
  }

  lemma Through(cfg: Config, s: State, before: seq<Action>, a: Action, rest: seq<Action>) returns (all: seq<Action>)
    requires Runs(cfg, s, before) && Enabled(cfg, After(cfg, s, before), a)
    requires Runs(cfg, Next(cfg, After(cfg, s, before), a), rest)
    ensures Leads(cfg, s, all, After(cfg, Next(cfg, After(cfg, s, before), a), rest))
  {
    hide Next, Runs, After, Enabled;
    RunsOne(cfg, After(cfg, s, before), a);
    RunsOn(cfg, After(cfg, s, before), [a], rest);
    RunsOn(cfg, s, before, [a] + rest);
    all := before + ([a] + rest);
  }

  lemma DeliveredReadsFresh(cfg: Config, ids: set<nat>, now: int, limit: nat, before: seq<Action>, q: nat, event: Event)
    requires ConfigOk(cfg) && limit < A.TWO_TO_62 && Runs(cfg, Init(ids, now, limit), before)
    requires Enabled(cfg, After(cfg, Init(ids, now, limit), before), OfWorld(Deliver(q, event)))
    ensures var t := After(cfg, Init(ids, now, limit), before);
            ReadsFreshFrom(cfg, Next(cfg, t, OfWorld(Deliver(q, event))), q, event.key, event.era)
  {
    hide Next, Runs, After, Init, Enabled;
    var t := Next(cfg, After(cfg, Init(ids, now, limit), before), OfWorld(Deliver(q, event)));
    forall id: nat, slot: Slot, between: seq<Action>, after: seq<Action> | event.key in slot.genKeys &&
      ReadAt(cfg, t, between, q, id, slot, after)
      ensures var u := ReadEnd(cfg, t, between, q, id, slot, after);
              id in u.readers && u.readers[id].slot == slot &&
              (u.readers[id].phase.Answered? && u.readers[id].phase.gens.Some? ==>
                 event.era <= A.Era(u.readers[id].phase.answer.asOf, event.key))
    {
      FreshAfterDelivery(cfg, ids, now, limit, before, q, event, between, id, slot, after);
    }
  }

  /**
    From InvalidateTag on one replica to every read on another: after any run in which an invalidation
    bumps its tag and later publishes, and the bus does not lose that event, every replica can handle
    the event, and from then on every read there is of what was loaded after that bump.
   */
  lemma {:induction false} FreshAcrossReplicas(cfg: Config, ids: set<nat>, now: int, limit: nat, before: seq<Action>,
                                               inv: nat, chance: A.Chance, mid: seq<Action>, event: Event,
                                               last: seq<Action>, q: nat)
    requires ConfigOk(cfg) && limit < A.TWO_TO_62 && Runs(cfg, Init(ids, now, limit), before)
    requires var s := After(cfg, Init(ids, now, limit), before);
             && Enabled(cfg, s, OfWorld(BumpTag(inv, chance)))
             && event == Event(s.invalidations[inv].key, A.Era(s.auth.log, s.invalidations[inv].key) + 1)
             && Runs(cfg, Bumping(cfg, s, inv, chance), mid + [OfWorld(Publish(inv))] + last)
             && q in After(cfg, Bumping(cfg, s, inv, chance), mid + [OfWorld(Publish(inv))] + last).replicas
    requires OfWorld(LoseEvent(event)) !in last
    ensures var s := After(cfg, Init(ids, now, limit), before);
            var t := After(cfg, Bumping(cfg, s, inv, chance), mid + [OfWorld(Publish(inv))] + last);
            && Enabled(cfg, t, OfWorld(Deliver(q, event)))
            && ReadsFreshFrom(cfg, Next(cfg, t, OfWorld(Deliver(q, event))), q, event.key, event.era)
  {
    var init := Init(ids, now, limit);
    var s := After(cfg, init, before);
    PublishedIsDeliverable(cfg, s, inv, chance, mid, event, last);
    hide Next, Runs, After, Init, ReadsFreshFrom, Enabled, A.Era;
    var all := Through(cfg, init, before, OfWorld(BumpTag(inv, chance)), mid + [OfWorld(Publish(inv))] + last);
    DeliveredReadsFresh(cfg, ids, now, limit, all, q, event);
  }

  // ---- No invalidation waits ----

  function InvalidateActs(inv: nat, r: nat, key: string, bump: WorldAction): seq<Action> {
    [OfWorld(BeginInvalidate(inv, r, key))] + ([OfWorld(bump)] + ([OfWorld(DropLocal(inv))] +
                                                                   ([OfWorld(Publish(inv))] + [])))
  }

  /** `key` is gone from the copy of replica `r`, and its event number `era` is on the bus. */
  ghost predicate Announced(t: State, r: nat, event: Event) {
    r in t.replicas && event.key !in t.replicas[r].copy.m && event in t.bus
  }

  lemma DropAndPublish(cfg: Config, s: State, inv: nat, r: nat, event: Event) returns (t: State)
    requires inv in s.invalidations && s.invalidations[inv] == Invalidation(r, event.key, Bumped(event.era))
    requires r in s.replicas
    ensures Leads(cfg, s, [OfWorld(DropLocal(inv))] + ([OfWorld(Publish(inv))] + []), t)
    ensures Announced(t, r, event) && t.auth == s.auth
  {
    var drop, publish := OfWorld(DropLocal(inv)), OfWorld(Publish(inv));
    var s1 := Next(cfg, s, drop);
    t := Next(cfg, s1, publish);
    LeadsNowhere(cfg, t);
    LeadsOn(cfg, s1, publish, [], t);
    LeadsOn(cfg, s, drop, [publish] + [], t);
  }

  /** InvalidateTag can always run to its end: the counter is bumped once, the copy dropped, the event announced. */
  lemma InvalidationProceeds(cfg: Config, s: State, inv: nat, r: nat, key: string, chance: A.Chance)
    returns (t: State)
    requires inv !in s.invalidations && r in s.replicas
    requires A.ChanceOk(s.auth, key, chance) && s.auth.bumps < s.auth.limit
    ensures Leads(cfg, s, InvalidateActs(inv, r, key, BumpTag(inv, chance)), t)
    ensures Announced(t, r, Event(key, A.Era(s.auth.log, key) + 1))
    ensures t.auth.log == s.auth.log[key := A.BumpTimes(s.auth.log, key) + [s.now]]
  {
    A.BumpedLog(s.auth, key, chance, s.now);
    var begin, bump := OfWorld(BeginInvalidate(inv, r, key)), OfWorld(BumpTag(inv, chance));
    var s1 := Next(cfg, s, begin);
    var s2 := Next(cfg, s1, bump);
    t := DropAndPublish(cfg, s2, inv, r, Event(key, A.Era(s.auth.log, key) + 1));
    hide Leads, Announced;
    LeadsOn(cfg, s1, bump, [OfWorld(DropLocal(inv))] + ([OfWorld(Publish(inv))] + []), t);
    LeadsOn(cfg, s, begin, [bump] + ([OfWorld(DropLocal(inv))] + ([OfWorld(Publish(inv))] + [])), t);
  }

  /** A bump that fails stops neither the drop nor the announcement. */
  lemma FailedBumpProceeds(cfg: Config, s: State, inv: nat, r: nat, key: string) returns (t: State)
    requires inv !in s.invalidations && r in s.replicas
    ensures Leads(cfg, s, InvalidateActs(inv, r, key, BumpFails(inv)), t)
    ensures Announced(t, r, Event(key, 0)) && t.auth == s.auth
  {
    var begin, bump := OfWorld(BeginInvalidate(inv, r, key)), OfWorld(BumpFails(inv));
    var s1 := Next(cfg, s, begin);
    var s2 := Next(cfg, s1, bump);
    t := DropAndPublish(cfg, s2, inv, r, Event(key, 0));
    hide Leads, Announced;
    LeadsOn(cfg, s1, bump, [OfWorld(DropLocal(inv))] + ([OfWorld(Publish(inv))] + []), t);
    LeadsOn(cfg, s, begin, [bump] + ([OfWorld(DropLocal(inv))] + ([OfWorld(Publish(inv))] + [])), t);
  }

  // ---- A read answers what a level holds ----

  /** The entry of `slot` in `entries` is unexpired and records `gens`. */
  ghost predicate HoldsEntry(entries: map<string, Entry>, slot: Slot, gens: seq<nat>, now: int) {
    slot.pk in entries && now < entries[slot.pk].expires && entries[slot.pk].gens == gens
  }

  /** The copy answers `gens` for the slot's counters, until `until`. */
  ghost predicate CopyHolds(copy: G.Copy, slot: Slot, gens: seq<nat>, until: int) {
    && |gens| == |slot.genKeys|
    && forall i :: 0 <= i < |gens| ==>
         slot.genKeys[i] in copy.m && copy.m[slot.genKeys[i]].gen == gens[i] && until <= copy.m[slot.genKeys[i]].expires
  }

  /** Reader `id` of replica `r` was answered `payload`. */
  ghost predicate Answers(t: State, id: nat, r: nat, source: Source, payload: Payload) {
    && id in t.readers && t.readers[id].replica == r && t.readers[id].phase.Answered?
    && t.readers[id].phase.answer.source == source && t.readers[id].phase.answer.payload == payload
  }

  function LookActs(id: nat, r: nat, slot: Slot): seq<Action> {
    [OfReader(StartRead(id, r, slot))] + ([OfReader(ReadLocal(id, true))] + ([OfReader(CheckLocal(id, true))] + []))
  }

  ghost predicate MayStart(s: State, id: nat, r: nat, slot: Slot) {
    id !in s.readers && r in s.replicas && K.FlightSafe(slot.pk, slot.genKeys)
  }

  /** What L1 holds for the slot, unexpired. */
  ghost predicate LocalIs(s: State, r: nat, slot: Slot, local: Option<Entry>)
    requires r in s.replicas
  {
    var l1 := s.replicas[r].l1;
    local == if slot.pk in l1 && s.now < l1[slot.pk].expires then Some(l1[slot.pk]) else None
  }

  /** The steps before the authority is asked either serve the L1 entry or leave it to be compared again. */
  lemma Looks(cfg: Config, s: State, id: nat, r: nat, slot: Slot, local: Option<Entry>) returns (t: State)
    requires MayStart(s, id, r, slot) && LocalIs(s, r, slot, local)
    ensures Leads(cfg, s, LookActs(id, r, slot), t)
    ensures t.readers.Keys == s.readers.Keys + {id} && t == s.(readers := t.readers)
    ensures t.readers[id].replica == r && t.readers[id].slot == slot
    ensures t.readers[id].phase == Unsettled(local) ||
            (local.Some? && t.readers[id].phase == Served(L1, local.value, local.value.gens, s.now))
    ensures local.Some? && CopyHolds(s.replicas[r].copy, slot, local.value.gens, s.now + 1) ==>
              t.readers[id].phase == Served(L1, local.value, local.value.gens, s.now)
  {
    var start, look, check := OfReader(StartRead(id, r, slot)), OfReader(ReadLocal(id, true)),
      OfReader(CheckLocal(id, true));
    var s1 := Next(cfg, s, start);
    var s2 := Next(cfg, s1, look);
    t := Next(cfg, s2, check);
    LeadsNowhere(cfg, t);
    LeadsOn(cfg, s2, check, [], t);
    LeadsOn(cfg, s1, look, [check] + [], t);
    LeadsOn(cfg, s, start, [look] + ([check] + []), t);
    if local.Some? && CopyHolds(s.replicas[r].copy, slot, local.value.gens, s.now + 1) {
      CopyAnswers(s.replicas[r].copy, slot, local.value.gens, s.now);
    }
  }

  lemma CopyAnswers(copy: G.Copy, slot: Slot, gens: seq<nat>, now: int)
    requires CopyHolds(copy, slot, gens, now + 1)
    ensures G.Lookup(copy, slot.genKeys, now) == Some(gens)
  {
    assert G.Lookup(copy, slot.genKeys, now).value == gens;
  }

  /**
    An unexpired L1 entry is served without the authority when the local copy still answers the
    generations it recorded.
   */
  lemma ServedLocally(cfg: Config, s: State, id: nat, r: nat, slot: Slot) returns (t: State)
    requires MayStart(s, id, r, slot)
    requires slot.pk in s.replicas[r].l1 && s.now < s.replicas[r].l1[slot.pk].expires
    requires CopyHolds(s.replicas[r].copy, slot, s.replicas[r].l1[slot.pk].gens, s.now + 1)
    ensures Leads(cfg, s, LookActs(id, r, slot), t)
    ensures Answers(t, id, r, L1, s.replicas[r].l1[slot.pk].payload)
    ensures t.auth == s.auth && t.l2 == s.l2 && t.replicas == s.replicas
  {
    hide Leads, CopyHolds;
    t := Looks(cfg, s, id, r, slot, Some(s.replicas[r].l1[slot.pk]));
  }

  function AskActs(id: nat, chances: seq<A.Chance>): seq<Action> {
    [OfReader(TakeEpoch(id))] + ([OfReader(Fetch(id, chances))] + ([OfReader(StoreGens(id))] +
                                                                     ([OfReader(Decide(id, true, true))] + [])))
  }

  /** What the comparison with the generations just fetched must decide: L1 first, then L2, else a miss. */
  ghost predicate Decides(s: State, slot: Slot, local: Option<Entry>, gens: seq<nat>, p: Phase) {
    && (local.Some? && local.value.gens == gens ==> p == Served(L1, local.value, gens, s.now))
    && (!(local.Some? && local.value.gens == gens) ==>
          && (HoldsEntry(s.l2, slot, gens, s.now) ==> p == Served(L2, s.l2[slot.pk], gens, s.now))
          && (!HoldsEntry(s.l2, slot, gens, s.now) ==> p == Missed(Some(gens))))
  }

  /** A put whose epoch was taken in this very state is accepted, and the copy then answers it. */
  lemma StoredNow(copy: G.Copy, ks: seq<string>, gens: seq<nat>, expires: int, k: string)
    requires |gens| == |ks| && k in ks
    ensures var copy' := G.Store(copy, ks, gens, G.Snapshot(copy, ks), expires);
            k in copy'.m && copy'.m[k].expires == expires &&
            exists i :: 0 <= i < |ks| && ks[i] == k && copy'.m[k].gen == gens[i]
  {
    var base := if G.Overflows(copy, ks) then G.Cleared(copy) else copy;
    var i := G.FilledInside(base.m, ks, gens, expires, k);
  }

  lemma StoredHolds(copy: G.Copy, slot: Slot, gens: seq<nat>, expires: int)
    requires |gens| == |slot.genKeys| && G.Distinct(slot.genKeys)
    ensures CopyHolds(G.Store(copy, slot.genKeys, gens, G.Snapshot(copy, slot.genKeys), expires), slot, gens, expires)
  {
    hide G.Store;
    forall i | 0 <= i < |gens|
      ensures var m := G.Store(copy, slot.genKeys, gens, G.Snapshot(copy, slot.genKeys), expires).m;
              slot.genKeys[i] in m && m[slot.genKeys[i]] == G.CachedGen(gens[i], expires)
    {
      StoredNow(copy, slot.genKeys, gens, expires, slot.genKeys[i]);
    }
  }

  /** Everything but the readers and the copies is as it was. */
  ghost predicate OnlyAsked(s: State, t: State, id: nat, auth: A.Counters) {
    && id in s.readers && id in t.readers && t.readers.Keys == s.readers.Keys
    && t.readers[id].replica == s.readers[id].replica && t.readers[id].slot == s.readers[id].slot
    && t.auth == auth && t.l2 == s.l2 && t.now == s.now && t.calls == s.calls
    && t.replicas.Keys == s.replicas.Keys && (forall q :: q in s.replicas ==> t.replicas[q].l1 == s.replicas[q].l1)
  }

  lemma {:induction false} Fetches(cfg: Config, s: State, id: nat, chances: seq<A.Chance>, local: Option<Entry>)
    returns (t: State)
    requires In(s, id) && s.readers[id].phase == Unsettled(local)
    requires var slot := s.readers[id].slot; |chances| == |slot.genKeys| && A.ChancesOk(s.auth, slot.genKeys, chances)
    ensures Leads(cfg, s, [OfReader(TakeEpoch(id))] + ([OfReader(Fetch(id, chances))] + []), t)
    ensures var rd := s.readers[id];
            var (gens, auth) := A.Read(s.auth, rd.slot.genKeys, chances);
            var remote := if rd.slot.pk in s.l2 then Some(s.l2[rd.slot.pk]) else None;
            var since := G.Snapshot(s.replicas[rd.replica].copy, rd.slot.genKeys);
            && OnlyAsked(s, t, id, auth) && t.replicas == s.replicas
            && t.readers[id].phase == Fetched(local, since, gens, remote, s.now)
  {
    hide A.Read, A.ChancesOk, G.Snapshot;
    var take, ask := OfReader(TakeEpoch(id)), OfReader(Fetch(id, chances));
    var s1 := Next(cfg, s, take);
    t := Next(cfg, s1, ask);
    LeadsNowhere(cfg, t);
    LeadsOn(cfg, s1, ask, [], t);
    LeadsOn(cfg, s, take, [ask] + [], t);
  }

  lemma {:induction false} Puts(cfg: Config, s: State, id: nat, local: Option<Entry>, gens: seq<nat>,
                                remote: Option<Entry>)
    returns (t: State)
    requires ConfigOk(cfg) && In(s, id) && G.Distinct(s.readers[id].slot.genKeys)
    requires var rd := s.readers[id];
             var since := G.Snapshot(s.replicas[rd.replica].copy, rd.slot.genKeys);
             |gens| == |rd.slot.genKeys| && rd.phase == Fetched(local, since, gens, remote, s.now)
    ensures Enabled(cfg, s, OfReader(StoreGens(id))) && t == Next(cfg, s, OfReader(StoreGens(id)))
    ensures var rd := s.readers[id];
            && OnlyAsked(s, t, id, s.auth)
            && t.readers[id].phase == Stored(local, gens, remote, s.now)
            && CopyHolds(t.replicas[rd.replica].copy, rd.slot, gens, s.now + cfg.ttl)
  {
    hide G.Store, CopyHolds;
    var rd := s.readers[id];
    t := Next(cfg, s, OfReader(StoreGens(id)));
    StoredHolds(s.replicas[rd.replica].copy, rd.slot, gens, s.now + cfg.ttl);
  }

  lemma {:induction false} Settles(cfg: Config, s: State, id: nat, local: Option<Entry>, gens: seq<nat>)
    returns (t: State)
    requires ConfigOk(cfg) && In(s, id) && G.Distinct(s.readers[id].slot.genKeys)
    requires var rd := s.readers[id];
             var remote := if rd.slot.pk in s.l2 then Some(s.l2[rd.slot.pk]) else None;
             var since := G.Snapshot(s.replicas[rd.replica].copy, rd.slot.genKeys);
             |gens| == |rd.slot.genKeys| && rd.phase == Fetched(local, since, gens, remote, s.now)
    ensures Leads(cfg, s, [OfReader(StoreGens(id))] + ([OfReader(Decide(id, true, true))] + []), t)
    ensures var rd := s.readers[id];
            && OnlyAsked(s, t, id, s.auth)
            && Decides(s, rd.slot, local, gens, t.readers[id].phase)
            && CopyHolds(t.replicas[rd.replica].copy, rd.slot, gens, s.now + cfg.ttl)
  {
    hide G.Store, CopyHolds, G.Snapshot, StoreStep, ConfigOk, G.Distinct;
    var rd := s.readers[id];
    var put, decide := OfReader(StoreGens(id)), OfReader(Decide(id, true, true));
    var s1 := Puts(cfg, s, id, local, gens, if rd.slot.pk in s.l2 then Some(s.l2[rd.slot.pk]) else None);
    t := Next(cfg, s1, decide);
    LeadsNowhere(cfg, t);
    LeadsOn(cfg, s1, decide, [], t);
    LeadsOn(cfg, s, put, [decide] + [], t);
  }

  /** Asking the authority settles the read, and leaves the copy answering what it fetched until the L1 TTL. */
  lemma {:induction false} Asks(cfg: Config, s: State, id: nat, chances: seq<A.Chance>, local: Option<Entry>)
    returns (t: State)
    requires ConfigOk(cfg) && In(s, id) && s.readers[id].phase == Unsettled(local)
    requires var slot := s.readers[id].slot;
             |chances| == |slot.genKeys| && A.ChancesOk(s.auth, slot.genKeys, chances) && G.Distinct(slot.genKeys)
    ensures Leads(cfg, s, AskActs(id, chances), t)
    ensures var rd := s.readers[id];
            var (gens, auth) := A.Read(s.auth, rd.slot.genKeys, chances);
            && OnlyAsked(s, t, id, auth)
            && Decides(s, rd.slot, local, gens, t.readers[id].phase)
            && CopyHolds(t.replicas[rd.replica].copy, rd.slot, gens, s.now + cfg.ttl)
  {
    hide A.Read, A.ChancesOk, CopyHolds, Leads, G.Snapshot;
    AnswersEach(s.auth, s.readers[id].slot.genKeys, chances);
    var s1 := Fetches(cfg, s, id, chances, local);
    t := Settles(cfg, s1, id, local, A.Read(s.auth, s.readers[id].slot.genKeys, chances).0);
    var first := [OfReader(TakeEpoch(id))] + ([OfReader(Fetch(id, chances))] + []);
    var second := [OfReader(StoreGens(id))] + ([OfReader(Decide(id, true, true))] + []);
    LeadsThen(cfg, s, first, s1, second, t);
    assert AskActs(id, chances) == first + second;
  }

  lemma {:induction false} AnswersEach(c: A.Counters, ks: seq<string>, chs: seq<A.Chance>)
    requires |chs| == |ks|
    ensures |A.Read(c, ks, chs).0| == |ks|
    decreases |ks|
  {
    if ks == [] {
    } else {
      AnswersEach(c, ks[..|ks| - 1], chs[..|ks| - 1]);
    }
  }

  /**
    A read is a hit whenever L1 or L2 holds an unexpired entry recording the generations the authority
    answers, whatever the local copy says.
   */
  lemma {:induction false} ReadHits(cfg: Config, s: State, id: nat, r: nat, slot: Slot, chances: seq<A.Chance>)
    returns (acts: seq<Action>, t: State)
    requires ConfigOk(cfg) && MayStart(s, id, r, slot) && G.Distinct(slot.genKeys)
    requires |chances| == |slot.genKeys| && A.ChancesOk(s.auth, slot.genKeys, chances)
    requires var gens := A.Read(s.auth, slot.genKeys, chances).0;
             HoldsEntry(s.replicas[r].l1, slot, gens, s.now) || HoldsEntry(s.l2, slot, gens, s.now)
    ensures acts == LookActs(id, r, slot) || acts == LookActs(id, r, slot) + AskActs(id, chances)
    ensures Leads(cfg, s, acts, t)
    ensures var gens := A.Read(s.auth, slot.genKeys, chances).0;
            if HoldsEntry(s.replicas[r].l1, slot, gens, s.now) || acts == LookActs(id, r, slot)
            then slot.pk in s.replicas[r].l1 && Answers(t, id, r, L1, s.replicas[r].l1[slot.pk].payload)
            else Answers(t, id, r, L2, s.l2[slot.pk].payload)
  {
    hide Leads, A.Read, CopyHolds, A.ChancesOk, AskActs, LookActs;
    var l1 := s.replicas[r].l1;
    var local := if slot.pk in l1 && s.now < l1[slot.pk].expires then Some(l1[slot.pk]) else None;
    var s1 := Looks(cfg, s, id, r, slot, local);
    if s1.readers[id].phase == Unsettled(local) {
      acts := LookActs(id, r, slot) + AskActs(id, chances);
      t := Asks(cfg, s1, id, chances, local);
      LeadsThen(cfg, s, LookActs(id, r, slot), s1, AskActs(id, chances), t);
    } else {
      acts := LookActs(id, r, slot);
      t := s1;
    }
  }

  lemma LeadsThen(cfg: Config, s: State, a: seq<Action>, t: State, b: seq<Action>, u: State)
    requires Leads(cfg, s, a, t) && Leads(cfg, t, b, u)
    ensures Leads(cfg, s, a + b, u)
  {
    RunsOn(cfg, s, a, b);
  }

  // ---- A load reaches the levels, its caller and those who join it ----

  function LoadActs(id: nat, call: nat, payload: Payload, expires: int): seq<Action> {
    [OfReader(Lead(id, call))] + ([OfLoad(BeginLoad(call))] + ([OfLoad(EndLoad(call, payload))] +
    ([OfLoad(WriteL2(call, expires, true))] + ([OfLoad(WriteL1(call, true))] + ([OfReader(Receive(id))] + [])))))
  }

  function UncachedActs(id: nat, call: nat, payload: Payload): seq<Action> {
    [OfReader(Lead(id, call))] + ([OfLoad(BeginLoad(call))] + ([OfLoad(EndLoad(call, payload))] +
    ([OfLoad(Finish(call))] + ([OfReader(Receive(id))] + []))))
  }

  /** Reader `id` missed, knowing `gens`, and may start a load as `call`. */
  ghost predicate MayLead(s: State, id: nat, call: nat, gens: Option<seq<nat>>) {
    In(s, id) && s.readers[id].phase == Missed(gens) && call !in s.calls
  }

  /** The load of `id` has run and answered `payload`; it began with the bumps made by `s`. */
  ghost predicate Leading(s: State, t: State, id: nat, call: nat, gens: Option<seq<nat>>, stage: Stage) {
    && id in s.readers && id in t.readers && call !in s.calls
    && t.readers == s.readers[id := s.readers[id].(phase := Waiting(gens, call))]
    && t.calls == s.calls[call := Call(s.readers[id].replica, true, s.readers[id].slot, gens, stage)]
    && t == s.(readers := t.readers, calls := t.calls)
  }

  lemma Loads(cfg: Config, s: State, id: nat, call: nat, gens: Option<seq<nat>>, payload: Payload) returns (t: State)
    requires MayLead(s, id, call, gens)
    ensures Leads(cfg, s, [OfReader(Lead(id, call))] + ([OfLoad(BeginLoad(call))] +
                                                          ([OfLoad(EndLoad(call, payload))] + [])), t)
    ensures Leading(s, t, id, call, gens, Loaded(s.auth.log, payload))
  {
    var lead, begin, end := OfReader(Lead(id, call)), OfLoad(BeginLoad(call)), OfLoad(EndLoad(call, payload));
    var s1 := Next(cfg, s, lead);
    var s2 := Next(cfg, s1, begin);
    t := Next(cfg, s2, end);
    LeadsNowhere(cfg, t);
    LeadsOn(cfg, s2, end, [], t);
    LeadsOn(cfg, s1, begin, [end] + [], t);
    LeadsOn(cfg, s, lead, [begin] + ([end] + []), t);
  }

  /** `t` is `s` with `e` stored in L2 and in L1 of replica `r`, and nothing else in either changed. */
  ghost predicate StoredBoth(s: State, t: State, r: nat, e: Entry) {
    && r in s.replicas && t.auth == s.auth && t.now == s.now
    && t.l2 == s.l2[e.slot.pk := e]
    && t.replicas == s.replicas[r := s.replicas[r].(l1 := s.replicas[r].l1[e.slot.pk := e])]
  }

  lemma Writes(cfg: Config, s: State, call: nat, e: Entry) returns (t: State)
    requires call in s.calls && s.calls[call].replica in s.replicas
    requires s.calls[call].gens == Some(e.gens) && s.calls[call].slot == e.slot
    requires s.calls[call].stage == Loaded(e.asOf, e.payload)
    ensures Leads(cfg, s, [OfLoad(WriteL2(call, e.expires, true))] + ([OfLoad(WriteL1(call, true))] + []), t)
    ensures StoredBoth(s, t, s.calls[call].replica, e) && t.readers == s.readers
    ensures t.calls == s.calls[call := s.calls[call].(stage := Finished(e.asOf, e.payload))]
  {
    var w2, w1 := OfLoad(WriteL2(call, e.expires, true)), OfLoad(WriteL1(call, true));
    var s1 := Next(cfg, s, w2);
    t := Next(cfg, s1, w1);
    LeadsNowhere(cfg, t);
    LeadsOn(cfg, s1, w1, [], t);
    LeadsOn(cfg, s, w2, [w1] + [], t);
  }

  lemma Receives(cfg: Config, s: State, id: nat, r: nat, call: nat, asOf: A.Log, payload: Payload) returns (t: State)
    requires In(s, id) && s.readers[id].replica == r && s.readers[id].phase.Waiting?
    requires s.readers[id].phase.call == call && call in s.calls && s.calls[call].stage == Finished(asOf, payload)
    ensures Leads(cfg, s, [OfReader(Receive(id))] + [], t)
    ensures Answers(t, id, r, Flight, payload) && t.readers[id].phase.answer.asOf == asOf
    ensures t == s.(readers := t.readers) && t.readers.Keys == s.readers.Keys
  {
    t := Next(cfg, s, OfReader(Receive(id)));
    LeadsNowhere(cfg, t);
    LeadsOn(cfg, s, OfReader(Receive(id)), [], t);
  }

  /**
    GetOrLoad after a miss with known generations: the load's value goes to the caller and, with the
    generations the caller read, into both levels.
   */
  lemma LoadStores(cfg: Config, s: State, id: nat, call: nat, gens: seq<nat>, payload: Payload, expires: int)
    returns (t: State)
    requires MayLead(s, id, call, Some(gens))
    ensures Leads(cfg, s, LoadActs(id, call, payload, expires), t)
    ensures Answers(t, id, s.readers[id].replica, Flight, payload) && t.readers[id].phase.answer.asOf == s.auth.log
    ensures var rd := s.readers[id]; StoredBoth(s, t, rd.replica, Entry(rd.slot, gens, payload, s.auth.log, expires))
    ensures t.readers.Keys == s.readers.Keys
  {
    var rd := s.readers[id];
    var e := Entry(rd.slot, gens, payload, s.auth.log, expires);
    var s1 := Loads(cfg, s, id, call, Some(gens), payload);
    var s2 := Writes(cfg, s1, call, e);
    t := Receives(cfg, s2, id, rd.replica, call, s.auth.log, payload);
    hide Leads, Answers;
    var first := [OfReader(Lead(id, call))] + ([OfLoad(BeginLoad(call))] + ([OfLoad(EndLoad(call, payload))] + []));
    var second := [OfLoad(WriteL2(call, expires, true))] + ([OfLoad(WriteL1(call, true))] + []);
    LeadsThen(cfg, s, first, s1, second, s2);
    LeadsThen(cfg, s, first + second, s2, [OfReader(Receive(id))] + [], t);
    assert LoadActs(id, call, payload, expires) == first + second + ([OfReader(Receive(id))] + []);
  }

  /** After a miss whose generations could not be read the value is returned all the same, and stored nowhere. */
  lemma UncachedLoad(cfg: Config, s: State, id: nat, call: nat, payload: Payload) returns (t: State)
    requires MayLead(s, id, call, None)
    ensures Leads(cfg, s, UncachedActs(id, call, payload), t)
    ensures Answers(t, id, s.readers[id].replica, Flight, payload) && t.readers[id].phase.answer.asOf == s.auth.log
    ensures t.l2 == s.l2 && t.replicas == s.replicas && t.auth == s.auth
  {
    var s1 := Loads(cfg, s, id, call, None, payload);
    var finish := OfLoad(Finish(call));
    var s2 := Next(cfg, s1, finish);
    t := Receives(cfg, s2, id, s.readers[id].replica, call, s.auth.log, payload);
    LeadsOn(cfg, s1, finish, [OfReader(Receive(id))] + [], t);
    hide Leads, Answers;
    var first := [OfReader(Lead(id, call))] + ([OfLoad(BeginLoad(call))] + ([OfLoad(EndLoad(call, payload))] + []));
    LeadsThen(cfg, s, first, s1, [finish] + ([OfReader(Receive(id))] + []), t);
    assert UncachedActs(id, call, payload) == first + ([finish] + ([OfReader(Receive(id))] + []));
  }

  /** Whoever missed with the generations a load was started with may join it, and is answered what it loaded. */
  lemma {:induction false} JoinerShares(cfg: Config, s: State, id: nat, call: nat, asOf: A.Log, payload: Payload)
    returns (t: State)
    requires In(s, id) && s.readers[id].phase.Missed? && call in s.calls && s.calls[call].joinable
    requires var (c, rd) := (s.calls[call], s.readers[id]);
             && c.replica == rd.replica && c.slot == rd.slot && c.gens == rd.phase.gens
             && c.stage == Finished(asOf, payload)
    ensures Leads(cfg, s, [OfReader(Join(id, call))] + ([OfReader(Receive(id))] + []), t)
    ensures Answers(t, id, s.readers[id].replica, Flight, payload) && t.readers[id].phase.answer.asOf == asOf
  {
    var s1 := Next(cfg, s, OfReader(Join(id, call)));
    t := Receives(cfg, s1, id, s.readers[id].replica, call, asOf, payload);
    LeadsOn(cfg, s, OfReader(Join(id, call)), [OfReader(Receive(id))] + [], t);
  }

  function SetActs(call: nat, r: nat, slot: Slot, payload: Payload, chances: seq<A.Chance>, expires: int): seq<Action> {
    [OfLoad(SetReads(call, r, slot, payload, chances))] + ([OfLoad(WriteL2(call, expires, true))] +
                                                             ([OfLoad(WriteL1(call, true))] + []))
  }

  /** Set records the authority's generations, as they are when it reads them, in both levels. */
  lemma SetStores(cfg: Config, s: State, call: nat, r: nat, slot: Slot, payload: Payload, chances: seq<A.Chance>,
                  expires: int) returns (t: State)
    requires call !in s.calls && r in s.replicas && K.FlightSafe(slot.pk, slot.genKeys)
    requires |chances| == |slot.genKeys| && A.ChancesOk(s.auth, slot.genKeys, chances)
    ensures Leads(cfg, s, SetActs(call, r, slot, payload, chances, expires), t)
    ensures var (gens, auth) := A.Read(s.auth, slot.genKeys, chances);
            StoredBoth(s.(auth := auth), t, r, Entry(slot, gens, payload, auth.log, expires)) && t.readers == s.readers
  {
    hide A.Read, A.ChancesOk;
    var (gens, auth) := A.Read(s.auth, slot.genKeys, chances);
    var setReads := OfLoad(SetReads(call, r, slot, payload, chances));
    var s1 := Next(cfg, s, setReads);
    t := Writes(cfg, s1, call, Entry(slot, gens, payload, auth.log, expires));
    LeadsOn(cfg, s, setReads, [OfLoad(WriteL2(call, expires, true))] + ([OfLoad(WriteL1(call, true))] + []), t);
  }

  // ---- What was stored is read back ----

  /**
    What was just stored under generations the authority still answers is what a read answers: on the
    replica that stored it, and on every replica whose L1 holds nothing for the slot.
   */
  lemma StoredIsReadBack(cfg: Config, s: State, t: State, r: nat, e: Entry, id: nat, q: nat, chances: seq<A.Chance>)
    returns (acts: seq<Action>, u: State)
    requires ConfigOk(cfg) && StoredBoth(s, t, r, e) && t.now < e.expires
    requires MayStart(t, id, q, e.slot) && (q == r || e.slot.pk !in s.replicas[q].l1) && G.Distinct(e.slot.genKeys)
    requires |chances| == |e.slot.genKeys| && A.ChancesOk(t.auth, e.slot.genKeys, chances)
    requires A.Read(t.auth, e.slot.genKeys, chances).0 == e.gens
    ensures acts == LookActs(id, q, e.slot) || acts == LookActs(id, q, e.slot) + AskActs(id, chances)
    ensures Leads(cfg, t, acts, u)
    ensures Answers(u, id, q, if q == r then L1 else L2, e.payload)
  {
    hide Leads, A.Read, A.ChancesOk, LookActs, AskActs, Answers;
    acts, u := ReadHits(cfg, t, id, q, e.slot, chances);
  }

  /**
    A hit in L2 is copied into L1, and the next read on that replica is served from there without
    asking the authority.
   */
  lemma BackfilledIsServedLocally(cfg: Config, s: State, id: nat, e: Entry, id': nat) returns (t: State)
    requires ConfigOk(cfg) && In(s, id) && id' !in s.readers && s.readers[id].slot == e.slot && s.now < e.expires
    requires K.FlightSafe(e.slot.pk, e.slot.genKeys)
    requires s.readers[id].phase == Served(L2, e, e.gens, s.now)
    requires CopyHolds(s.replicas[s.readers[id].replica].copy, e.slot, e.gens, s.now + cfg.ttl)
    ensures var r := s.readers[id].replica;
            Leads(cfg, s, [OfReader(Backfill(id))] + LookActs(id', r, e.slot), t) && Answers(t, id', r, L1, e.payload)
    ensures t.auth == s.auth
  {
    hide LookActs;
    var r := s.readers[id].replica;
    var s1 := Next(cfg, s, OfReader(Backfill(id)));
    t := ServedLocally(cfg, s1, id', r, e.slot);
    LeadsOn(cfg, s, OfReader(Backfill(id)), LookActs(id', r, e.slot), t);
  }
}
