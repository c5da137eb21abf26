/**
  The two-level cache run sequentially (cache.go, tags.go): Get, GetOrLoad, Set, Delete and
  InvalidateTag over stores that answer without error but may lose any entry and any counter.

  The class holds what the stores hold: encoded envelopes with a physical expiry, the authority's
  counters and the local copy of the generations. Beside them it keeps, as ghost state, a plain map
  with expiry to which the same calls are applied. A hit is what that map holds; while the counters
  lost nothing, everything the map holds and a level still has is a hit; and while the level that
  decides (L2 if there is one, else L1) lost nothing either, a miss is exact too.

  Each operation reads the clock once, and GetOrLoad once more when its load has returned.
 */
module TwoLevel {
  import opened Common
  import opened BigEndian
  import A = Authority
  import E = Envelope
  import G = GenCopy
  import K = Keys
  import T = Ttl

  /** What a key is known to map to: a value, or nothing (a remembered absence). */
  datatype Found = Absent | Present(payload: Bytes)

  datatype Error = NotFound | InvalidConfig | ValueTooLarge | CannotEncode | LoadFailed

  /** What another instance announces on the bus: the physical key it deleted, or the tag it invalidated. */
  datatype Event = OfKey(namespace: string, name: string) | OfTag(namespace: string, name: string)

  datatype Outcome = Loaded(payload: Bytes) | FoundNothing | Failed

  // ---- The plain map ----

  /**
    What a write leaves: until when it may be found, until when L1 was asked to keep it, and when and
    for how long it was written.
   */
  datatype Record = Record(genKeys: seq<string>, found: Found, expires: int, l1Ends: int, written: int, ttl: int)

  type Plain = map<string, Record>

  function PlainGet(plain: Plain, slot: Slot, now: int): Option<Found> {
    if slot.pk in plain && plain[slot.pk].genKeys == slot.genKeys && now < plain[slot.pk].expires
    then Some(plain[slot.pk].found)
    else None
  }

  /** What a cache that lost nothing answers: with L1 alone, for as long as L1 was asked to keep it. */
  function PlainAnswer(plain: Plain, slot: Slot, now: int, hasL2: bool): Option<Found> {
    if !hasL2 && slot.pk in plain && now >= plain[slot.pk].l1Ends then None else PlainGet(plain, slot, now)
  }

  /** The record of a write at `now` for `ttl`, scaled by `f`. */
  function RecordFor(slot: Slot, found: Found, ttl: int, l1TTL: int, f: real, now: int): Record
    requires 0.0 <= f
  {
    Record(slot.genKeys, found, now + T.LongestTtl(ttl, f), now + T.ShortTtl(ttl, l1TTL, f), now, ttl)
  }

  function PlainInvalidate(plain: Plain, genKey: string): Plain {
    map pk | pk in plain && genKey !in plain[pk].genKeys :: plain[pk]
  }

  /** An invalidation hides exactly the slots that carry the tag. */
  lemma InvalidateThenGet(plain: Plain, genKey: string, slot: Slot, now: int)
    ensures PlainGet(PlainInvalidate(plain, genKey), slot, now) ==
            if genKey in slot.genKeys then None else PlainGet(plain, slot, now)
  {
  }

  // ---- What the levels hold ----

  /** An encoded entry and the time its store stops answering it. */
  datatype Held = Held(data: Bytes, until: int)

  type Level = map<string, Held>

  function LevelGet(level: Level, pk: string, now: int): Option<Bytes> {
    if pk in level && now < level[pk].until then Some(level[pk].data) else None
  }

  /** The last entry written under a key, with the tags it was written for. */
  datatype Written = Written(genKeys: seq<string>, entry: E.Entry, l1Ends: int, written: int, ttl: int)

  function FoundIn(e: E.Entry): Found {
    if e.absent then Absent else Present(e.payload)
  }

  function RecordOf(w: Written): Record {
    Record(w.genKeys, FoundIn(w.entry), w.entry.expires, w.l1Ends, w.written, w.ttl)
  }

  // ---- The invariant ----

  /** A level holds nothing but the last entry written, and for no longer than that entry's expiry. */
  ghost predicate LevelOk(wrote: map<string, Written>, level: Level) {
    forall pk :: pk in level ==>
      pk in wrote && E.Encoded(wrote[pk].entry) == Ok(level[pk].data) && level[pk].until <= wrote[pk].entry.expires
  }

  /** `gens` belong to `ks`, and none of these was bumped since they were issued. */
  ghost predicate AreCurrent(c: A.Counters, ks: seq<string>, gens: seq<nat>) {
    A.GensOf(c, ks, gens) && forall i :: 0 <= i < |gens| ==> c.issued[gens[i]].era == A.Era(c.log, ks[i])
  }

  ghost predicate WrittenOk(c: A.Counters, codec: Bytes, maxValue: nat, w: Written) {
    && w.entry.codec == codec && |w.entry.payload| <= maxValue && A.GensOf(c, w.genKeys, w.entry.gens)
    && w.l1Ends <= w.entry.expires
    && (T.NotRoundedUp(w.ttl) ==> w.entry.expires <= w.written + w.ttl)
  }

  ghost predicate AllWritten(c: A.Counters, codec: Bytes, maxValue: nat, wrote: map<string, Written>) {
    forall pk :: pk in wrote ==> WrittenOk(c, codec, maxValue, wrote[pk])
  }

  /** The plain map holds exactly the entries none of whose tags was bumped since. */
  ghost predicate PlainOk(c: A.Counters, wrote: map<string, Written>, plain: Plain) {
    && (forall pk :: pk in plain <==> pk in wrote && AreCurrent(c, wrote[pk].genKeys, wrote[pk].entry.gens))
    && (forall pk :: pk in plain ==> plain[pk] == RecordOf(wrote[pk]))
  }

  ghost predicate CopyOk(c: A.Counters, m: map<string, G.CachedGen>) {
    forall k :: k in m ==>
      m[k].gen in c.issued && c.issued[m[k].gen].key == k && c.issued[m[k].gen].era == A.Era(c.log, k)
  }

  /** The counters hold `gens` right now. */
  ghost predicate AreLive(live: map<string, nat>, ks: seq<string>, gens: seq<nat>) {
    |gens| == |ks| && forall i :: 0 <= i < |ks| ==> ks[i] in live && live[ks[i]] == gens[i]
  }

  /** Nothing the plain map holds is missing from the level that decides. */
  ghost predicate Complete(plain: Plain, level: Level, isL2: bool) {
    forall pk :: pk in plain ==>
      pk in level && level[pk].until == (if isL2 then plain[pk].expires else plain[pk].l1Ends)
  }

  /** Nor are the counters it needs. */
  ghost predicate Counted(c: A.Counters, wrote: map<string, Written>, plain: Plain) {
    forall pk :: pk in plain ==> pk in wrote && AreLive(c.live, wrote[pk].genKeys, wrote[pk].entry.gens)
  }

  // ---- Counters move ----

  lemma GensOfLater(c: A.Counters, d: A.Counters, since: int, ks: seq<string>, gens: seq<nat>)
    requires A.Later(c, d, since) && A.GensOf(c, ks, gens)
    ensures A.GensOf(d, ks, gens)
    ensures forall i :: 0 <= i < |gens| ==> d.issued[gens[i]] == c.issued[gens[i]]
  {
  }

  lemma WrittenLater(c: A.Counters, d: A.Counters, since: int, codec: Bytes, maxValue: nat, wrote: map<string, Written>)
    requires A.Later(c, d, since) && AllWritten(c, codec, maxValue, wrote)
    ensures AllWritten(d, codec, maxValue, wrote)
  {
    forall pk | pk in wrote
      ensures WrittenOk(d, codec, maxValue, wrote[pk])
    {
      GensOfLater(c, d, since, wrote[pk].genKeys, wrote[pk].entry.gens);
    }
  }

  /** Reading counters, creating and losing them changes nothing the cache relies on. */
  lemma SameLog(c: A.Counters, d: A.Counters, codec: Bytes, maxValue: nat, wrote: map<string, Written>, plain: Plain)
    requires A.Later(c, d, 0) && c.log == d.log
    requires AllWritten(c, codec, maxValue, wrote) && PlainOk(c, wrote, plain)
    ensures AllWritten(d, codec, maxValue, wrote) && PlainOk(d, wrote, plain)
  {
    WrittenLater(c, d, 0, codec, maxValue, wrote);
    forall pk | pk in wrote
      ensures AreCurrent(d, wrote[pk].genKeys, wrote[pk].entry.gens) <==>
              AreCurrent(c, wrote[pk].genKeys, wrote[pk].entry.gens)
    {
      assert WrittenOk(c, codec, maxValue, wrote[pk]);
      GensOfLater(c, d, 0, wrote[pk].genKeys, wrote[pk].entry.gens);
    }
  }

  /** A bump retires exactly the entries that carry its tag, as the plain map's invalidation does. */
  lemma BumpInvalidates(c: A.Counters, d: A.Counters, k: string, now: int, codec: Bytes, maxValue: nat,
                        wrote: map<string, Written>, plain: Plain)
    requires A.Later(c, d, now) && d.log == c.log[k := A.BumpTimes(c.log, k) + [now]]
    requires A.Valid(c) && AllWritten(c, codec, maxValue, wrote) && PlainOk(c, wrote, plain)
    ensures AllWritten(d, codec, maxValue, wrote) && PlainOk(d, wrote, PlainInvalidate(plain, k))
  {
    WrittenLater(c, d, now, codec, maxValue, wrote);
    forall pk | pk in wrote
      ensures AreCurrent(d, wrote[pk].genKeys, wrote[pk].entry.gens) <==>
                AreCurrent(c, wrote[pk].genKeys, wrote[pk].entry.gens) && k !in wrote[pk].genKeys
    {
      assert WrittenOk(c, codec, maxValue, wrote[pk]);
      BumpRetires(c, d, k, now, wrote[pk].genKeys, wrote[pk].entry.gens);
    }
  }

  lemma BumpRetires(c: A.Counters, d: A.Counters, k: string, now: int, ks: seq<string>, gens: seq<nat>)
    requires A.Valid(c) && A.Later(c, d, now) && d.log == c.log[k := A.BumpTimes(c.log, k) + [now]]
    requires A.GensOf(c, ks, gens)
    ensures AreCurrent(d, ks, gens) <==> AreCurrent(c, ks, gens) && k !in ks
  {
    GensOfLater(c, d, now, ks, gens);
    forall i | 0 <= i < |gens|
      ensures d.issued[gens[i]].era == A.Era(d.log, ks[i]) <==>
              c.issued[gens[i]].era == A.Era(c.log, ks[i]) && ks[i] != k
    {
      assert c.issued[gens[i]].era <= A.Era(c.log, ks[i]);
    }
  }

  lemma CopyLater(c: A.Counters, d: A.Counters, m: map<string, G.CachedGen>)
    requires A.Later(c, d, 0) && d.log == c.log && CopyOk(c, m)
    ensures CopyOk(d, m)
  {
  }

  lemma CopyAfterBump(c: A.Counters, d: A.Counters, k: string, now: int, m: map<string, G.CachedGen>)
    requires A.Later(c, d, now) && d.log == c.log[k := A.BumpTimes(c.log, k) + [now]] && CopyOk(c, m)
    ensures CopyOk(d, m - {k})
  {
  }

  lemma CopyAfterDrop(c: A.Counters, m: map<string, G.CachedGen>, k: string)
    requires CopyOk(c, m)
    ensures CopyOk(c, m - {k})
  {
  }

  lemma CopyAfterPut(c: A.Counters, copy: G.Copy, ks: seq<string>, gens: seq<nat>, since: G.Epoch, expires: int)
    requires CopyOk(c, copy.m) && AreCurrent(c, ks, gens) && |since.drops| == |ks|
    ensures CopyOk(c, G.Store(copy, ks, gens, since, expires).m)
  {
    if G.Accepts(copy, ks, since) {
      var base := if G.Overflows(copy, ks) then G.Cleared(copy) else copy;
      var m := G.Filled(base.m, ks, gens, expires);
      forall k | k in m
        ensures m[k].gen in c.issued && c.issued[m[k].gen].key == k && c.issued[m[k].gen].era == A.Era(c.log, k)
      {
        if k in ks {
          var i := G.FilledInside(base.m, ks, gens, expires, k);
        } else {
          G.FilledOutside(base.m, ks, gens, expires, k);
        }
      }
    }
  }

  lemma CachedAreCurrent(c: A.Counters, copy: G.Copy, ks: seq<string>, now: int)
    requires CopyOk(c, copy.m) && G.Lookup(copy, ks, now).Some?
    ensures AreCurrent(c, ks, G.Lookup(copy, ks, now).value)
  {
    forall i | 0 <= i < |ks|
      ensures G.Live(copy, ks[i], now)
    {
    }
  }

  lemma ReadAreCurrent(c: A.Counters, ks: seq<string>, chs: seq<A.Chance>)
    requires |chs| == |ks| && A.Valid(c) && A.ChancesOk(c, ks, chs)
    ensures var (gens, d) := A.Read(c, ks, chs);
            && A.Valid(d) && A.Later(c, d, 0) && d.log == c.log && d.bumps == c.bumps
            && |gens| == |ks| && AreCurrent(d, ks, gens)
  {
    A.ReadFacts(c, ks, chs, 0);
  }

  // ---- Hits ----

  /** An entry whose generations equal the current ones of a slot is what the plain map holds for that slot. */
  lemma HitIsPlain(c: A.Counters, codec: Bytes, maxValue: nat, wrote: map<string, Written>, plain: Plain, slot: Slot,
                   gens: seq<nat>, now: int)
    requires AllWritten(c, codec, maxValue, wrote) && PlainOk(c, wrote, plain)
    requires slot.pk in wrote && wrote[slot.pk].entry.gens == gens && now < wrote[slot.pk].entry.expires
    requires AreCurrent(c, slot.genKeys, gens)
    ensures PlainGet(plain, slot, now) == Some(FoundIn(wrote[slot.pk].entry))
  {
    assert WrittenOk(c, codec, maxValue, wrote[slot.pk]);
    A.GensNameTheirCounters(c, slot.genKeys, wrote[slot.pk].genKeys, gens);
  }

  lemma CountedLater(c: A.Counters, d: A.Counters, wrote: map<string, Written>, plain: Plain)
    requires Counted(c, wrote, plain)
    requires forall l :: l in c.live ==> l in d.live && d.live[l] == c.live[l]
    ensures Counted(d, wrote, plain)
  {
  }

  /** When no counter was lost, what the plain map answers was written with the generations the authority answers. */
  lemma PlainIsCounted(c: A.Counters, d: A.Counters, wrote: map<string, Written>, plain: Plain, slot: Slot,
                       gens: seq<nat>, now: int)
    requires Counted(c, wrote, plain) && PlainOk(c, wrote, plain) && PlainGet(plain, slot, now).Some?
    requires forall l :: l in c.live ==> l in d.live && d.live[l] == c.live[l]
    requires AreLive(d.live, slot.genKeys, gens)
    ensures slot.pk in wrote && wrote[slot.pk].entry.gens == gens
  {
    assert plain[slot.pk] == RecordOf(wrote[slot.pk]);
  }

  /** A level that lost nothing is asked for just what the plain map says. */
  lemma CompleteAnswers(plain: Plain, level: Level, isL2: bool, slot: Slot, now: int)
    requires Complete(plain, level, isL2)
    ensures PlainAnswer(plain, slot, now, isL2) ==
            if LevelGet(level, slot.pk, now).Some? then PlainGet(plain, slot, now) else None
  {
  }

  lemma CountedAfterBump(c: A.Counters, d: A.Counters, k: string, wrote: map<string, Written>, plain: Plain)
    requires Counted(c, wrote, plain) && PlainOk(c, wrote, plain)
    requires forall l :: l in c.live && l != k ==> l in d.live && d.live[l] == c.live[l]
    ensures Counted(d, wrote, PlainInvalidate(plain, k))
  {
    var after := PlainInvalidate(plain, k);
    forall pk | pk in after
      ensures AreLive(d.live, wrote[pk].genKeys, wrote[pk].entry.gens)
    {
      assert plain[pk] == RecordOf(wrote[pk]) && k !in wrote[pk].genKeys;
    }
  }

  lemma CompleteAfterBump(k: string, plain: Plain, level: Level, isL2: bool)
    requires Complete(plain, level, isL2)
    ensures Complete(PlainInvalidate(plain, k), level, isL2)
  {
  }

  // ---- Writes ----

  /** After a write both levels, the record of writes and the plain map agree again. */
  lemma WriteKeeps(c: A.Counters, codec: Bytes, maxValue: nat, wrote: map<string, Written>, plain: Plain, pk: string,
                   w: Written)
    requires AllWritten(c, codec, maxValue, wrote) && PlainOk(c, wrote, plain)
    requires WrittenOk(c, codec, maxValue, w) && AreCurrent(c, w.genKeys, w.entry.gens)
    ensures AllWritten(c, codec, maxValue, wrote[pk := w]) && PlainOk(c, wrote[pk := w], plain[pk := RecordOf(w)])
  {
  }

  lemma DeleteKeeps(c: A.Counters, codec: Bytes, maxValue: nat, wrote: map<string, Written>, plain: Plain, pk: string)
    requires AllWritten(c, codec, maxValue, wrote) && PlainOk(c, wrote, plain)
    ensures AllWritten(c, codec, maxValue, wrote - {pk}) && PlainOk(c, wrote - {pk}, plain - {pk})
  {
  }

  lemma LevelAfterDelete(wrote: map<string, Written>, level: Level, pk: string)
    requires LevelOk(wrote, level)
    ensures LevelOk(wrote - {pk}, level - {pk}) && (pk !in level ==> LevelOk(wrote - {pk}, level))
  {
  }

  lemma LevelAfterLoss(wrote: map<string, Written>, level: Level, lost: set<string>)
    requires LevelOk(wrote, level)
    ensures LevelOk(wrote, level - lost)
    ensures lost == {} ==> level - lost == level
  {
  }

  lemma CountersAfterLoss(c: A.Counters, lost: set<string>)
    requires A.Valid(c)
    ensures A.Valid(A.Lose(c, lost)) && A.Later(c, A.Lose(c, lost), 0) && A.Lose(c, lost).log == c.log
    ensures lost == {} ==> A.Lose(c, lost) == c
  {
    hide A.Valid, A.Later, A.StaysRetired;
    A.LoseEvolves(c, lost, 0);
    assert lost == {} ==> c.live - lost == c.live;
  }

  lemma CompleteAfterDelete(plain: Plain, level: Level, isL2: bool, pk: string)
    requires Complete(plain, level, isL2)
    ensures Complete(plain - {pk}, level - {pk}, isL2)
  {
  }

  lemma CountedAfterDelete(c: A.Counters, wrote: map<string, Written>, plain: Plain, pk: string)
    requires Counted(c, wrote, plain)
    ensures Counted(c, wrote - {pk}, plain - {pk})
  {
  }

  lemma IssuedFit(c: A.Counters, ks: seq<string>, gens: seq<nat>)
    requires A.Valid(c) && AreCurrent(c, ks, gens)
    ensures |gens| == |ks| && forall i :: 0 <= i < |gens| ==> gens[i] < TWO_TO_64
  {
    forall i | 0 <= i < |gens|
      ensures gens[i] < TWO_TO_64
    {
      assert gens[i] in c.issued;
    }
  }

  /** An absence can be encoded, and any value but an empty one. */
  predicate Encodable(found: Found) {
    found.Present? ==> found.payload != []
  }

  function EntryOf(found: Found, expires: E.Nanos, codec: Bytes, gens: seq<E.Uint64Value>): E.Entry {
    E.Entry(found.Absent?, expires, codec, gens, if found.Present? then found.payload else [])
  }

  lemma EncodedExactlyWhen(found: Found, expires: E.Nanos, codec: Bytes, gens: seq<E.Uint64Value>)
    requires 0 < expires && 1 <= |codec| <= E.MAX_CODEC_ID && |gens| <= E.MAX_TAGS
    ensures E.Encoded(EntryOf(found, expires, codec, gens)).Ok? <==> Encodable(found)
    ensures FoundIn(EntryOf(found, expires, codec, gens)) == found
  {
  }

  /** A level with the new entry, or a level that is not configured and stays empty. */
  lemma LevelAfterWrite(wrote: map<string, Written>, has: bool, level: Level, pk: string, w: Written, data: Bytes,
                        until: int)
    requires LevelOk(wrote, level) && (!has ==> level == map[])
    requires E.Encoded(w.entry) == Ok(data) && until <= w.entry.expires
    ensures LevelOk(wrote[pk := w], if has then level[pk := Held(data, until)] else level)
  {
  }

  lemma CompleteAfterWrite(plain: Plain, level: Level, isL2: bool, pk: string, w: Written, data: Bytes)
    requires Complete(plain, level, isL2)
    ensures Complete(plain[pk := RecordOf(w)], level[pk := Held(data, if isL2 then w.entry.expires else w.l1Ends)],
            isL2)
  {
  }

  lemma CountedAfterWrite(c: A.Counters, wrote: map<string, Written>, plain: Plain, pk: string, w: Written)
    requires Counted(c, wrote, plain) && AreLive(c.live, w.genKeys, w.entry.gens)
    ensures Counted(c, wrote[pk := w], plain[pk := RecordOf(w)])
  {
  }

  /** What begins at `start` for `ttl` ends no sooner than the whole jitter and three nanoseconds before that. */
  ghost predicate LastsAlmost(start: int, ends: int, ttl: int, jitter: real) {
    0 < ttl <= 0x20_0000_0000_0000 ==> (ends - start) as real > ttl as real * (1.0 - jitter) - 3.0
  }

  /** The record `r` of a write of `found` at `now`: it lasts `ttl` but for the jitter, in L1 the smaller of the two. */
  ghost predicate IsRecord(r: Record, slot: Slot, found: Found, ttl: int, l1TTL: int, jitter: real, now: int) {
    && r.genKeys == slot.genKeys && r.found == found && r.written == now && r.ttl == ttl
    && now < r.l1Ends <= r.expires
    && LastsAlmost(now, r.expires, ttl, jitter)
    && LastsAlmost(now, r.l1Ends, if ttl <= l1TTL then ttl else l1TTL, jitter)
    && (jitter == 0.0 && ttl <= 0x20_0000_0000_0000 ==>
          r.expires == now + ttl && r.l1Ends == now + if ttl <= l1TTL then ttl else l1TTL)
    && (T.NotRoundedUp(ttl) ==> r.expires <= now + ttl)
  }

  lemma WritesARecord(slot: Slot, found: Found, ttl: int, l1TTL: int, jitter: real, draw: real, now: int)
    requires 1 <= ttl && 1 <= l1TTL && 0.0 <= jitter < 1.0 && 0.0 <= draw < 1.0
    ensures IsRecord(RecordFor(slot, found, ttl, l1TTL, T.Scale(jitter, draw), now), slot, found, ttl, l1TTL, jitter,
            now)
  {
    hide T.Scale, T.Scaled, T.NotRoundedUp;
    T.WriteOrdersTtls(ttl, l1TTL, jitter, draw);
    if ttl <= 0x20_0000_0000_0000 {
      T.ScaledAtLeast(ttl, jitter, draw);
      T.ScaledAtLeast(T.Min(ttl, l1TTL), jitter, draw);
      if jitter == 0.0 {
        T.UnjitteredIsWhole(ttl, draw);
        T.UnjitteredIsWhole(T.Min(ttl, l1TTL), draw);
      }
    } else if l1TTL <= 0x20_0000_0000_0000 {
      T.ScaledAtLeast(l1TTL, jitter, draw);
    }
  }

  // ---- The cache ----

  class Cache {
    const namespace: string
    const hasL1: bool
    const hasL2: bool
    const tagged: bool
    const ttl: int
    const l1TTL: int
    const negTTL: int
    const jitter: real
    const maxValue: nat
    const codec: Bytes
    const gens: G.GenCache?

    var now: int
    var l1: Level
    var l2: Level
    var auth: A.Counters

    ghost var wrote: map<string, Written>
    ghost var plain: Plain
    /** The level that decides lost nothing, and the authority lost no counter. */
    ghost var levelKept: bool
    ghost var countersKept: bool

    predicate SetupOk() {
      && (hasL1 || hasL2)
      && 0 < l1TTL <= ttl && 0 <= negTTL <= ttl
      && 0.0 <= jitter < 1.0
      && 1 <= |codec| <= E.MAX_CODEC_ID
      && (gens != null <==> tagged && hasL1 && hasL2)
      && (gens != null ==> gens.ttl == l1TTL)
    }

    ghost predicate Valid()
      reads this, gens
    {
      && SetupOk()
      && 0 <= now
      && A.Valid(auth)
      && LevelOk(wrote, l1) && LevelOk(wrote, l2)
      && (!hasL1 ==> l1 == map[]) && (!hasL2 ==> l2 == map[])
      && AllWritten(auth, codec, maxValue, wrote)
      && PlainOk(auth, wrote, plain)
      && (!tagged ==> forall pk :: pk in wrote ==> wrote[pk].genKeys == [])
      && (gens != null ==> CopyOk(auth, gens.m))
      && (levelKept ==> Complete(plain, if hasL2 then l2 else l1, hasL2))
      && (countersKept ==> Counted(auth, wrote, plain))
    }

    constructor (namespace: string, hasL1: bool, hasL2: bool, tagged: bool, ttl: int, l1TTL: int, negTTL: int,
                 jitter: real, maxValue: nat, codec: Bytes, now: int, limit: nat)
      requires (hasL1 || hasL2) && 0 < l1TTL <= ttl && 0 <= negTTL <= ttl && 0.0 <= jitter < 1.0
      requires 1 <= |codec| <= E.MAX_CODEC_ID && 0 <= now && limit < A.TWO_TO_62
      ensures Valid() && plain == map[] && l1 == map[] && l2 == map[] && levelKept && countersKept && fresh(this)
      ensures this.namespace == namespace && this.hasL1 == hasL1 && this.hasL2 == hasL2 && this.tagged == tagged
      ensures this.ttl == ttl && this.l1TTL == l1TTL && this.negTTL == negTTL && this.jitter == jitter
      ensures this.maxValue == maxValue && this.codec == codec && this.now == now
      ensures auth == A.Counters(map[], map[], map[], 0, limit)
      ensures gens != null ==> fresh(gens) && gens.State() == G.EMPTY_COPY
    {
      this.namespace := namespace;
      this.hasL1, this.hasL2, this.tagged := hasL1, hasL2, tagged;
      this.ttl, this.l1TTL, this.negTTL, this.jitter := ttl, l1TTL, negTTL, jitter;
      this.maxValue, this.codec, this.now := maxValue, codec, now;
      l1, l2, auth := map[], map[], A.Counters(map[], map[], map[], 0, limit);
      wrote, plain, levelKept, countersKept := map[], map[], true, true;
      if tagged && hasL1 && hasL2 {
        gens := new G.GenCache(l1TTL);
      } else {
        gens := null;
      }
    }

    /** A slot of this cache: at most eight tags, and none in an untagged one. */
    predicate SlotOk(slot: Slot) {
      |slot.genKeys| <= E.MAX_TAGS && (!tagged ==> slot.genKeys == [])
    }

    // ---- The environment ----

    method Tick(dt: nat)
      requires Valid()
      modifies this`now
      ensures Valid() && now == old(now) + dt
    {
      hide LevelOk, AllWritten, PlainOk, CopyOk, Complete, Counted, A.Valid;
      now := now + dt;
    }

    /** Any entries of either level and any counters disappear: evicted, expired or deleted behind the cache's back. */
    method Lose(lost1: set<string>, lost2: set<string>, counters: set<string>)
      requires Valid()
      modifies this`l1, this`l2, this`auth, this`levelKept, this`countersKept
      ensures Valid()
      ensures l1 == old(l1) - lost1 && l2 == old(l2) - lost2 && auth == A.Lose(old(auth), counters)
      ensures levelKept == (old(levelKept) && (if hasL2 then lost2 else lost1) == {})
      ensures countersKept == (old(countersKept) && counters == {})
    {
      hide Valid, A.Lose;
      LoseCounters(counters);
      LoseEntries(lost1, lost2);
    }

    method LoseCounters(counters: set<string>)
      requires Valid()
      modifies this`auth, this`countersKept
      ensures Valid()
      ensures auth == A.Lose(old(auth), counters) && countersKept == (old(countersKept) && counters == {})
    {
      hide LevelOk, AllWritten, PlainOk, CopyOk, Complete, Counted, A.Valid, A.Later;
      CountersAfterLoss(auth, counters);
      SameLog(auth, A.Lose(auth, counters), codec, maxValue, wrote, plain);
      if gens != null {
        CopyLater(auth, A.Lose(auth, counters), gens.m);
      }
      auth := A.Lose(auth, counters);
      countersKept := countersKept && counters == {};
    }

    method LoseEntries(lost1: set<string>, lost2: set<string>)
      requires Valid()
      modifies this`l1, this`l2, this`levelKept
      ensures Valid()
      ensures l1 == old(l1) - lost1 && l2 == old(l2) - lost2
      ensures levelKept == (old(levelKept) && (if hasL2 then lost2 else lost1) == {})
    {
      hide LevelOk, AllWritten, PlainOk, CopyOk, Complete, Counted, A.Valid;
      LevelAfterLoss(wrote, l1, lost1);
      LevelAfterLoss(wrote, l2, lost2);
      l1, l2 := l1 - lost1, l2 - lost2;
      levelKept := levelKept && (if hasL2 then lost2 else lost1) == {};
    }

    // ---- Reading ----

    /** checked: a decoded, unexpired entry of this cache's codec. */
    method Checked(data: Bytes) returns (e: Option<E.Entry>)
      ensures e == (match E.Decoded(data, maxValue)
                    case Ok(d) => if d.codec == codec && now < d.expires then Some(d) else None
                    case Err(_) => None)
    {
      var r := E.Decode(data, maxValue);
      if r.Ok? && r.value.codec == codec && now < r.value.expires {
        return Some(r.value);
      }
      return None;
    }

    /** A level's answer for a key, decoded: the last entry written, if the level still has it. */
    method Look(level: Level, pk: string) returns (e: Option<E.Entry>, data: Bytes)
      requires LevelOk(wrote, level) && AllWritten(auth, codec, maxValue, wrote)
      ensures e.Some? <==> LevelGet(level, pk, now).Some?
      ensures e.Some? ==>
                && pk in level && pk in wrote && e.value == wrote[pk].entry && now < e.value.expires
                && E.Encoded(e.value) == Ok(data) && data == level[pk].data
    {
      if pk !in level || !(now < level[pk].until) {
        return None, [];
      }
      data := level[pk].data;
      assert WrittenOk(auth, codec, maxValue, wrote[pk]);
      E.DecodeOfEncode(wrote[pk].entry, maxValue);
      e := Checked(data);
    }

    /** Some level still has the last entry written under the slot's key. */
    ghost predicate StillHeld(slot: Slot)
      reads this
    {
      (slot.pk in l1 && now < l1[slot.pk].until) || (slot.pk in l2 && now < l2[slot.pk].until)
    }

    /** The local copy alone vouches for the entry L1 has: it answers the very generations that entry recorded. */
    ghost predicate VouchedFor(slot: Slot)
      reads this, gens
    {
      && gens != null && slot.pk in l1 && now < l1[slot.pk].until && slot.pk in wrote
      && G.Lookup(gens.State(), slot.genKeys, now) == Some(wrote[slot.pk].entry.gens)
    }

    /**
      L1 after a hit on `pk`: if it had no answer of its own, with L2's bytes copied into it, for the smaller
      of the L1 TTL and what is left of the entry.
     */
    ghost function AfterHit(before: Level, pk: string): Level
      reads this
    {
      if !hasL1 || LevelGet(before, pk, now).Some? || pk !in l2 || pk !in wrote then before
      else
        var left := wrote[pk].entry.expires - now;
        before[pk := Held(l2[pk].data, now + if l1TTL <= left then l1TTL else left)]
    }

    /** backfill: L1 gets L2's bytes, with the shorter of two lifetimes: its own TTL and what is left of the entry's. */
    method Backfill(pk: string, data: Bytes, expires: int)
      requires Valid() && hasL1 && hasL2
      requires pk in wrote && E.Encoded(wrote[pk].entry) == Ok(data) && expires == wrote[pk].entry.expires
      modifies this`l1
      ensures Valid()
      ensures l1 == (match T.BackfillTtl(l1TTL, expires, now)
                     case None => old(l1)
                     case Some(t) => old(l1)[pk := Held(data, now + t)])
      ensures pk in l2 && l2[pk].data == data && now < expires && LevelGet(old(l1), pk, now).None? ==>
                l1 == AfterHit(old(l1), pk)
    {
      hide AllWritten, PlainOk, CopyOk, Complete, Counted, A.Valid, E.Encoded;
      var t := T.Min(l1TTL, expires - now);
      if t <= 0 {
        return;
      }
      l1 := l1[pk := Held(data, now + t)];
    }

    /** readPlain: L1, then L2, copying an L2 hit into L1. */
    method ReadPlain(slot: Slot) returns (hit: Option<Found>)
      requires Valid() && !tagged && SlotOk(slot)
      modifies this`l1
      ensures Valid()
      ensures hit.Some? <==> old(StillHeld(slot))
      ensures hit.Some? ==> hit == PlainGet(plain, slot, now)
      ensures l1 == if hit.Some? then AfterHit(old(l1), slot.pk) else old(l1)
    {
      hide A.Valid, E.Encoded;
      if hasL1 {
        var e, _ := Look(l1, slot.pk);
        if e.Some? {
          HitIsPlain(auth, codec, maxValue, wrote, plain, slot, e.value.gens, now);
          return Some(FoundIn(e.value));
        }
      }
      if hasL2 {
        var e, data := Look(l2, slot.pk);
        if e.Some? {
          HitIsPlain(auth, codec, maxValue, wrote, plain, slot, e.value.gens, now);
          if hasL1 {
            Backfill(slot.pk, data, e.value.expires);
          }
          return Some(FoundIn(e.value));
        }
      }
      return None;
    }

    /** GetTagged: the generations, missing counters being created; the local copy is not touched. */
    method ReadGens(slot: Slot, chances: seq<A.Chance>) returns (current: seq<nat>)
      requires Valid() && tagged && |chances| == |slot.genKeys| && A.ChancesOk(auth, slot.genKeys, chances)
      modifies this`auth, this`countersKept
      ensures Valid()
      ensures (current, auth) == A.Read(old(auth), slot.genKeys, chances)
      ensures countersKept == (old(countersKept) && A.NothingLost(chances))
      ensures |current| == |slot.genKeys| && AreCurrent(auth, slot.genKeys, current)
    {
      hide LevelOk, AllWritten, PlainOk, CopyOk, Complete, Counted, A.Valid, A.ChancesOk, A.Read, AreCurrent;
      ReadAreCurrent(auth, slot.genKeys, chances);
      ghost var before := auth;
      var (fetched, after) := A.Read(auth, slot.genKeys, chances);
      current := fetched;
      SameLog(before, after, codec, maxValue, wrote, plain);
      if countersKept && A.NothingLost(chances) {
        A.ReadHolds(before, slot.genKeys, chances);
        CountedLater(before, after, wrote, plain);
      }
      if gens != null {
        CopyLater(before, after, gens.m);
      }
      auth := after;
      countersKept := countersKept && A.NothingLost(chances);
    }

    /** The same for a read: what was fetched goes into the local copy unless something was dropped since the epoch. */
    method FetchGens(slot: Slot, chances: seq<A.Chance>) returns (current: seq<nat>)
      requires Valid() && tagged && |chances| == |slot.genKeys| && A.ChancesOk(auth, slot.genKeys, chances)
      modifies this`auth, this`countersKept, gens
      ensures Valid()
      ensures (current, auth) == A.Read(old(auth), slot.genKeys, chances)
      ensures countersKept == (old(countersKept) && A.NothingLost(chances))
      ensures AreCurrent(auth, slot.genKeys, current)
      ensures gens != null ==>
                gens.State() == G.Store(old(gens.State()), slot.genKeys, current,
                                        G.Snapshot(old(gens.State()), slot.genKeys), now + l1TTL)
    {
      hide LevelOk, AllWritten, PlainOk, CopyOk, Complete, Counted, A.Valid, A.ChancesOk, A.Read, G.Store, AreCurrent,
           A.NothingLost;
      var since := G.Epoch(0, []);
      if gens != null {
        since := gens.TakeEpoch(slot.genKeys);
      }
      current := ReadGens(slot, chances);
      if gens != null {
        CopyAfterPut(auth, gens.State(), slot.genKeys, current, since, now + l1TTL);
        gens.Put(slot.genKeys, current, since, now);
      }
    }

    /** The first half of readTagged with two levels: an L1 entry checked against the local copy alone. */
    method ReadLocal(slot: Slot) returns (local: Option<E.Entry>, hit: Option<Found>, cached: seq<nat>)
      requires Valid() && gens != null
      ensures hasL2
      ensures local.Some? <==> LevelGet(l1, slot.pk, now).Some?
      ensures local.Some? ==> slot.pk in wrote && local.value == wrote[slot.pk].entry && now < local.value.expires
      ensures hit.Some? ==> hit == PlainGet(plain, slot, now) && AreCurrent(auth, slot.genKeys, cached)
      ensures hit.Some? <==> VouchedFor(slot)
    {
      hide A.Valid, E.Encoded, Complete, Counted;
      var e, _ := Look(l1, slot.pk);
      var answer := gens.Get(slot.genKeys, now);
      if e.Some? && answer.Some? && e.value.gens == answer.value {
        CachedAreCurrent(auth, gens.State(), slot.genKeys, now);
        HitIsPlain(auth, codec, maxValue, wrote, plain, slot, answer.value, now);
        return e, Some(FoundIn(e.value)), answer.value;
      }
      return e, None, [];
    }

    /** The second half of readTagged: the L1 entry, then the authority's own, against the generations fetched. */
    method Settle(slot: Slot, local: Option<E.Entry>, current: seq<nat>) returns (hit: Option<Found>)
      requires Valid() && tagged && AreCurrent(auth, slot.genKeys, current)
      requires local.Some? ==> slot.pk in wrote && local.value == wrote[slot.pk].entry && now < local.value.expires
      requires local.Some? <==> gens != null && LevelGet(l1, slot.pk, now).Some?
      modifies this`l1
      ensures Valid()
      ensures hit.Some? ==> hit == PlainGet(plain, slot, now)
      ensures hit.Some? <==> old(StillHeld(slot)) && slot.pk in wrote && wrote[slot.pk].entry.gens == current
      ensures l1 == if hit.Some? then AfterHit(old(l1), slot.pk) else old(l1)
    {
      hide A.Valid, E.Encoded, CopyOk, AreCurrent, AreLive, Complete, Counted;
      if local.Some? && local.value.gens == current {
        HitIsPlain(auth, codec, maxValue, wrote, plain, slot, current, now);
        return Some(FoundIn(local.value));
      }
      var e, data := Look(if hasL2 then l2 else l1, slot.pk);
      if e.Some? && e.value.gens == current {
        HitIsPlain(auth, codec, maxValue, wrote, plain, slot, current, now);
        if gens != null {
          Backfill(slot.pk, data, e.value.expires);
        }
        return Some(FoundIn(e.value));
      }
      return None;
    }

    /**
      readTagged: the L1 entry against the local copy; else the authority's generations, and against
      these the L1 entry again and then the authority's own entry, copied into L1.
     */
    method ReadTagged(slot: Slot, chances: seq<A.Chance>) returns (hit: Option<Found>, current: seq<nat>)
      requires Valid() && tagged && |chances| == |slot.genKeys| && A.ChancesOk(auth, slot.genKeys, chances)
      modifies this`l1, this`auth, this`countersKept, gens
      ensures Valid() && auth.bumps == old(auth.bumps) && auth.limit == old(auth.limit)
      ensures AreCurrent(auth, slot.genKeys, current)
      ensures hit.Some? ==> hit == PlainGet(plain, slot, now)
      ensures old(VouchedFor(slot)) ==>
                hit.Some? && auth == old(auth) && l1 == old(l1) && gens.State() == old(gens.State()) &&
                countersKept == old(countersKept)
      ensures !old(VouchedFor(slot)) ==>
                && (current, auth) == A.Read(old(auth), slot.genKeys, chances)
                && (hit.Some? <==> old(StillHeld(slot)) && slot.pk in wrote && wrote[slot.pk].entry.gens == current)
                && l1 == (if hit.Some? then AfterHit(old(l1), slot.pk) else old(l1))
                && countersKept == (old(countersKept) && A.NothingLost(chances))
      ensures !old(VouchedFor(slot)) && gens != null ==>
                gens.State() == G.Store(old(gens.State()), slot.genKeys, current,
                                        G.Snapshot(old(gens.State()), slot.genKeys), now + l1TTL)
      ensures old(countersKept) && A.NothingLost(chances) ==>
                (hit.Some? <==> PlainGet(plain, slot, now).Some? && old(StillHeld(slot)))
      ensures countersKept && hit.None? ==> AreLive(auth.live, slot.genKeys, current)
    {
      hide Valid, AreCurrent, AreLive, A.ChancesOk, A.Read, G.Store, G.Snapshot, G.Lookup, PlainGet;
      var local: Option<E.Entry> := None;
      if gens != null {
        var e, answer, cached := ReadLocal(slot);
        if answer.Some? {
          return answer, cached;
        }
        local := e;
      }
      ReadAuth(slot, chances);
      current := FetchGens(slot, chances);
      hit := Settle(slot, local, current);
    }

    /**
      What the authority's answer says of this cache: when it lost nothing, whether the plain map's
      record is current.
     */
    lemma ReadAuth(slot: Slot, chances: seq<A.Chance>)
      requires Valid() && |chances| == |slot.genKeys| && A.ChancesOk(auth, slot.genKeys, chances)
      ensures var (current, after) := A.Read(auth, slot.genKeys, chances);
              && after.bumps == auth.bumps && after.limit == auth.limit
              && (A.NothingLost(chances) ==> AreLive(after.live, slot.genKeys, current))
              && (countersKept && A.NothingLost(chances) && PlainGet(plain, slot, now).Some? ==>
                    slot.pk in wrote && wrote[slot.pk].entry.gens == current)
    {
      hide A.Read, A.Valid, A.ChancesOk, LevelOk, AllWritten, CopyOk, Complete;
      ReadAreCurrent(auth, slot.genKeys, chances);
      if A.NothingLost(chances) {
        var (current, after) := A.Read(auth, slot.genKeys, chances);
        A.ReadHolds(auth, slot.genKeys, chances);
        if countersKept && PlainGet(plain, slot, now).Some? {
          PlainIsCounted(auth, after, wrote, plain, slot, current, now);
        }
      }
    }

    // ---- Writing ----

    /** Each configured level holds the last entry written, until its record says, and is otherwise as before. */
    ghost predicate Stored(slot: Slot, before1: Level, before2: Level)
      reads this
    {
      && slot.pk in plain
      && (if hasL1 then slot.pk in l1 && l1 == before1[slot.pk := Held(l1[slot.pk].data, plain[slot.pk].l1Ends)]
          else l1 == before1)
      && (if hasL2 then slot.pk in l2 && l2 == before2[slot.pk := Held(l2[slot.pk].data, plain[slot.pk].expires)]
          else l2 == before2)
    }

    /** `found` was written under the slot, here and in the plain map, for `ttl` but for what the jitter drew. */
    ghost predicate Remembers(slot: Slot, found: Found, ttl: int, draw: real, before: Plain, before1: Level,
                              before2: Level)
      requires SetupOk() && 0.0 <= draw < 1.0
      reads this
    {
      && slot.pk in plain && plain == before[slot.pk := plain[slot.pk]]
      && plain[slot.pk] == RecordFor(slot, found, ttl, l1TTL, T.Scale(jitter, draw), now)
      && IsRecord(plain[slot.pk], slot, found, ttl, l1TTL, jitter, now)
      && Stored(slot, before1, before2)
    }

    /** write: one jitter draw for both levels, the entry's expiry being the longer of the two. */
    method Write(slot: Slot, found: Found, current: seq<nat>, ttl: int, draw: real) returns (ok: bool)
      requires Valid() && SlotOk(slot) && AreCurrent(auth, slot.genKeys, current)
      requires countersKept ==> AreLive(auth.live, slot.genKeys, current)
      requires found.Present? ==> |found.payload| <= maxValue
      requires 1 <= ttl && 0.0 <= draw < 1.0 && now + T.LongestTtl(ttl, T.Scale(jitter, draw)) < E.TWO_TO_63
      modifies this`l1, this`l2, this`wrote, this`plain
      ensures Valid()
      ensures ok <==> (found.Present? ==> found.payload != [])
      ensures !ok ==> plain == old(plain) && l1 == old(l1) && l2 == old(l2)
      ensures ok ==>
                && Remembers(slot, found, ttl, draw, old(plain), old(l1), old(l2))
                && slot.pk in wrote && wrote[slot.pk].entry.gens == current
    {
      hide A.Valid, E.Encoded, CopyOk, T.Scaled, T.Scale, T.NotRoundedUp, LevelOk, AllWritten, PlainOk, Complete,
           Counted, AreCurrent, AreLive, IsRecord;
      var f := T.Scale(jitter, draw);
      T.WriteOrdersTtls(ttl, l1TTL, jitter, draw);
      WritesARecord(slot, found, ttl, l1TTL, jitter, draw, now);
      IssuedFit(auth, slot.genKeys, current);
      var longest := T.LongestTtl(ttl, f);
      var e := EntryOf(found, now + longest, codec, current);
      EncodedExactlyWhen(found, now + longest, codec, current);
      var r := E.Encode(e);
      if r.Err? {
        return false;
      }
      ghost var w := Written(slot.genKeys, e, now + T.ShortTtl(ttl, l1TTL, f), now, ttl);
      WrittenNow(slot, found, current, ttl, draw, e, w);
      RecordKeeps(slot.pk, w, r.value);
      if hasL2 {
        l2 := l2[slot.pk := Held(r.value, now + longest)];
      }
      if hasL1 {
        l1 := l1[slot.pk := Held(r.value, now + T.ShortTtl(ttl, l1TTL, f))];
      }
      wrote := wrote[slot.pk := w];
      plain := plain[slot.pk := RecordOf(w)];
      ok := true;
    }

    /** With a new entry in place, both levels, the record of writes and the plain map agree again. */
    lemma RecordKeeps(pk: string, w: Written, data: Bytes)
      requires Valid() && WrittenOk(auth, codec, maxValue, w) && AreCurrent(auth, w.genKeys, w.entry.gens)
      requires countersKept ==> AreLive(auth.live, w.genKeys, w.entry.gens)
      requires E.Encoded(w.entry) == Ok(data) && w.l1Ends <= w.entry.expires
      ensures AllWritten(auth, codec, maxValue, wrote[pk := w])
      ensures PlainOk(auth, wrote[pk := w], plain[pk := RecordOf(w)])
      ensures LevelOk(wrote[pk := w], if hasL1 then l1[pk := Held(data, w.l1Ends)] else l1)
      ensures LevelOk(wrote[pk := w], if hasL2 then l2[pk := Held(data, w.entry.expires)] else l2)
      ensures levelKept ==>
                Complete(plain[pk := RecordOf(w)],
                         if hasL2 then l2[pk := Held(data, w.entry.expires)] else l1[pk := Held(data, w.l1Ends)], hasL2)
      ensures countersKept ==> Counted(auth, wrote[pk := w], plain[pk := RecordOf(w)])
    {
      hide A.Valid, E.Encoded, CopyOk, LevelOk, AllWritten, PlainOk, Complete, Counted, AreCurrent, AreLive, WrittenOk;
      WriteKeeps(auth, codec, maxValue, wrote, plain, pk, w);
      LevelAfterWrite(wrote, hasL1, l1, pk, w, data, w.l1Ends);
      LevelAfterWrite(wrote, hasL2, l2, pk, w, data, w.entry.expires);
      if levelKept {
        CompleteAfterWrite(plain, if hasL2 then l2 else l1, hasL2, pk, w, data);
      }
      if countersKept {
        CountedAfterWrite(auth, wrote, plain, pk, w);
      }
    }

    lemma {:induction false} WrittenNow(slot: Slot, found: Found, current: seq<nat>, ttl: int, draw: real, e: E.Entry,
                                        w: Written)
      requires Valid() && AreCurrent(auth, slot.genKeys, current) && 1 <= ttl && 0.0 <= draw < 1.0
      requires found.Present? ==> |found.payload| <= maxValue
      requires var f := T.Scale(jitter, draw);
               && e.absent == found.Absent? && e.expires == now + T.LongestTtl(ttl, f) && e.codec == codec
               && e.gens == current && e.payload == (if found.Present? then found.payload else [])
               && w == Written(slot.genKeys, e, now + T.ShortTtl(ttl, l1TTL, f), now, ttl)
      ensures WrittenOk(auth, codec, maxValue, w)
      ensures RecordOf(w) == RecordFor(slot, found, ttl, l1TTL, T.Scale(jitter, draw), now)
    {
      hide A.Valid, E.Encoded, CopyOk, T.Scaled, T.Scale, T.NotRoundedUp, LevelOk, AllWritten, PlainOk, Complete,
           Counted;
      T.WriteOrdersTtls(ttl, l1TTL, jitter, draw);
    }

    /** The environment of one read of the authority, in a tagged cache. */
    ghost predicate ChancesFor(slot: Slot, chances: seq<A.Chance>)
      reads this`auth
    {
      tagged ==> |chances| == |slot.genKeys| && A.ChancesOk(auth, slot.genKeys, chances)
    }

    /** An entry may live the TTL given for it, else the cache's own, without leaving the range of times. */
    predicate InRange(opt: Option<int>, draw: real, start: int)
    {
      && SetupOk() && 0.0 <= draw < 1.0
      && start + T.LongestTtl(if opt.Some? then opt.value else ttl, T.Scale(jitter, draw)) < E.TWO_TO_63
    }

    /** Set: the generations current now, then the write; the local copy of generations stays as it was. */
    method Set(slot: Slot, payload: Bytes, opt: Option<int>, chances: seq<A.Chance>, draw: real)
      returns (err: Option<Error>)
      requires Valid() && SlotOk(slot) && ChancesFor(slot, chances) && InRange(opt, draw, now)
      modifies this`l1, this`l2, this`auth, this`countersKept, this`wrote, this`plain
      ensures Valid()
      ensures var entryTTL := if opt.Some? then opt.value else ttl;
              && (err == Some(InvalidConfig) <==> entryTTL <= 0)
              && (err == Some(ValueTooLarge) <==> entryTTL > 0 && |payload| > maxValue)
              && (err == Some(CannotEncode) <==> entryTTL > 0 && payload == [])
              && (err == None <==> entryTTL > 0 && 0 < |payload| <= maxValue)
      ensures err.Some? ==> plain == old(plain) && l1 == old(l1) && l2 == old(l2)
      ensures err == None ==>
                Remembers(slot, Present(payload), if opt.Some? then opt.value else ttl, draw, old(plain), old(l1),
                          old(l2))
      ensures !tagged || err == Some(InvalidConfig) || err == Some(ValueTooLarge) ==>
                auth == old(auth) && countersKept == old(countersKept)
      ensures tagged && err == None ==>
                auth == A.Read(old(auth), slot.genKeys, chances).1 && slot.pk in wrote &&
                wrote[slot.pk].entry.gens == A.Read(old(auth), slot.genKeys, chances).0
      ensures old(countersKept) && A.NothingLost(chances) ==> countersKept
    {
      hide Valid, A.Read, AreCurrent, AreLive, A.ChancesOk, T.LongestTtl, T.ShortTtl, T.Scale, Remembers;
      var entryTTL := if opt.Some? then opt.value else ttl;
      if entryTTL <= 0 {
        return Some(InvalidConfig);
      }
      if |payload| > maxValue {
        return Some(ValueTooLarge);
      }
      var current: seq<nat> := [];
      if tagged {
        ReadAuth(slot, chances);
        current := ReadGens(slot, chances);
      } else {
        NoTags(slot);
      }
      var ok := Write(slot, Present(payload), current, entryTTL, draw);
      err := if ok then None else Some(CannotEncode);
    }

    /** Without tags there are no generations, and so none that is not current. */
    lemma NoTags(slot: Slot)
      requires !tagged && SlotOk(slot)
      ensures AreCurrent(auth, slot.genKeys, []) && AreLive(auth.live, slot.genKeys, [])
    {
    }

    method Delete(slot: Slot)
      requires Valid()
      modifies this`l1, this`l2, this`wrote, this`plain
      ensures Valid()
      ensures plain == old(plain) - {slot.pk}
      ensures l1 == old(l1) - {slot.pk} && l2 == old(l2) - {slot.pk}
    {
      hide A.Valid, CopyOk, LevelOk, AllWritten, PlainOk, Complete, Counted;
      DeleteKeeps(auth, codec, maxValue, wrote, plain, slot.pk);
      LevelAfterDelete(wrote, l1, slot.pk);
      LevelAfterDelete(wrote, l2, slot.pk);
      if levelKept {
        CompleteAfterDelete(plain, if hasL2 then l2 else l1, hasL2, slot.pk);
      }
      if countersKept {
        CountedAfterDelete(auth, wrote, plain, slot.pk);
      }
      if hasL1 {
        l1 := l1 - {slot.pk};
      }
      if hasL2 {
        l2 := l2 - {slot.pk};
      }
      wrote := wrote - {slot.pk};
      plain := plain - {slot.pk};
    }

    /** read: with or without tags; the generations are those a write after a miss records. */
    method Read(slot: Slot, chances: seq<A.Chance>) returns (hit: Option<Found>, current: seq<nat>)
      requires Valid() && SlotOk(slot) && ChancesFor(slot, chances)
      modifies this`l1, this`auth, this`countersKept, gens
      ensures Valid() && auth.bumps == old(auth.bumps) && auth.limit == old(auth.limit)
      ensures AreCurrent(auth, slot.genKeys, current)
      ensures hit.Some? ==> hit == PlainGet(plain, slot, now)
      ensures !tagged || (old(countersKept) && A.NothingLost(chances)) ==>
                (hit.Some? <==> PlainGet(plain, slot, now).Some? && old(StillHeld(slot)))
      ensures !tagged ==> (hit.Some? <==> old(StillHeld(slot)))
      ensures !tagged || old(VouchedFor(slot)) ==> auth == old(auth)
      ensures old(VouchedFor(slot)) ==> hit.Some?
      ensures tagged && hit.None? ==> (current, auth) == A.Read(old(auth), slot.genKeys, chances)
      ensures l1 == if hit.Some? then AfterHit(old(l1), slot.pk) else old(l1)
      ensures old(countersKept) && A.NothingLost(chances) ==> countersKept
      ensures countersKept && hit.None? ==> AreLive(auth.live, slot.genKeys, current)
    {
      hide Valid, AreCurrent, AreLive, A.ChancesOk, A.Read, G.Store, G.Snapshot, G.Lookup;
      Setup();
      if tagged {
        hit, current := ReadTagged(slot, chances);
      } else {
        hit := ReadPlain(slot);
        current := [];
        NoTags(slot);
      }
    }

    lemma Setup()
      requires Valid()
      ensures SetupOk() && (!hasL1 ==> l1 == map[]) && (!hasL2 ==> l2 == map[])
    {
    }

    /**
      Get: a hit is what the plain map holds, decided before the time of its write plus its TTL. What the
      plain map holds is a hit while any level still has it, as long as no counter was lost; and while the
      level that decides lost nothing either, hits and misses are exactly those of the plain map. What the
      local copy vouches for is answered without the authority.
     */
    method Get(slot: Slot, chances: seq<A.Chance>) returns (hit: Option<Found>)
      requires Valid() && SlotOk(slot) && ChancesFor(slot, chances)
      modifies this`l1, this`auth, this`countersKept, gens
      ensures Valid()
      ensures hit.Some? ==> hit == PlainGet(plain, slot, now)
      ensures hit.Some? ==> InTime(slot)
      ensures !tagged ==> (hit.Some? <==> old(StillHeld(slot)))
      ensures old(countersKept) && A.NothingLost(chances) ==>
                countersKept && (hit.Some? <==> PlainGet(plain, slot, now).Some? && old(StillHeld(slot)))
      ensures !tagged || old(VouchedFor(slot)) ==> auth == old(auth)
      ensures old(VouchedFor(slot)) ==> hit.Some?
      ensures l1 == if hit.Some? then AfterHit(old(l1), slot.pk) else old(l1)
      ensures levelKept && (!tagged || (old(countersKept) && A.NothingLost(chances))) ==>
                hit == PlainAnswer(plain, slot, now, hasL2)
    {
      hide Valid, AreCurrent, AreLive, A.ChancesOk, StillHeld, VouchedFor, PlainGet, PlainAnswer, AfterHit, LevelGet,
           A.NothingLost;
      if levelKept {
        AnswersExactly(slot);
      }
      var found, _ := Read(slot, chances);
      hit := found;
      if hit.Some? {
        AnsweredInTime(slot);
      }
    }

    /** The record of the slot was written less than its TTL ago. */
    ghost predicate InTime(slot: Slot)
      reads this
    {
      slot.pk in plain && (T.NotRoundedUp(plain[slot.pk].ttl) ==> now < plain[slot.pk].written + plain[slot.pk].ttl)
    }

    lemma AnsweredInTime(slot: Slot)
      requires Valid() && PlainGet(plain, slot, now).Some?
      ensures InTime(slot)
    {
      hide T.NotRoundedUp;
      if T.NotRoundedUp(plain[slot.pk].ttl) {
        ExpiresInTime(slot.pk);
      }
    }

    /** While the level that decides lost nothing, the plain map's answers are those still held. */
    lemma AnswersExactly(slot: Slot)
      requires Valid() && levelKept
      ensures PlainAnswer(plain, slot, now, hasL2) ==
              if PlainGet(plain, slot, now).Some? && StillHeld(slot) then PlainGet(plain, slot, now) else None
    {
      hide A.Valid, LevelOk, AllWritten, PlainOk, CopyOk, Counted;
      CompleteAnswers(plain, if hasL2 then l2 else l1, hasL2, slot, now);
    }

    lemma ExpiresInTime(pk: string)
      requires Valid() && pk in plain && T.NotRoundedUp(plain[pk].ttl)
      ensures plain[pk].expires <= plain[pk].written + plain[pk].ttl
    {
      assert WrittenOk(auth, codec, maxValue, wrote[pk]);
    }

    /**
      GetOrLoad: whatever it answers without loading is what the plain map holds and a level still has; what
      a load found is answered, and remembered from the time the load returned: a value that fits and is
      not empty, and an absence when absences are remembered.
     */
    method GetOrLoad(slot: Slot, opt: Option<int>, outcome: Outcome, took: nat, chances: seq<A.Chance>, draw: real)
      returns (r: Result<Bytes, Error>, loaded: bool)
      requires Valid() && SlotOk(slot) && ChancesFor(slot, chances)
      requires InRange(opt, draw, now + took) && InRange(Some(negTTL), draw, now + took)
      modifies this`l1, this`l2, this`auth, this`countersKept, this`now, this`wrote, this`plain, gens
      ensures Valid()
      ensures old(countersKept) && A.NothingLost(chances) ==> countersKept
      ensures r == Err(InvalidConfig) <==> (if opt.Some? then opt.value else ttl) <= 0
      ensures r == Err(InvalidConfig) ==> !loaded && l1 == old(l1) && auth == old(auth)
      ensures !loaded ==> plain == old(plain) && now == old(now) && l2 == old(l2)
      ensures !loaded && r != Err(InvalidConfig) ==>
                && l1 == AfterHit(old(l1), slot.pk)
                && ((r == Err(NotFound) && PlainGet(plain, slot, now) == Some(Absent)) ||
                    (r.Ok? && PlainGet(plain, slot, now) == Some(Present(r.value))))
      ensures r != Err(InvalidConfig) && (!tagged || (old(countersKept) && A.NothingLost(chances))) ==>
                (loaded <==> !(PlainGet(old(plain), slot, old(now)).Some? && old(StillHeld(slot))))
      ensures !tagged && r != Err(InvalidConfig) ==> (loaded <==> !old(StillHeld(slot)))
      ensures old(VouchedFor(slot)) && r != Err(InvalidConfig) ==> !loaded && auth == old(auth)
      ensures loaded ==>
                && now == old(now) + took
                && (tagged ==> auth == A.Read(old(auth), slot.genKeys, chances).1)
                && (!tagged ==> auth == old(auth))
                && match outcome {
                     case Loaded(payload) => r == Ok(payload)
                     case FoundNothing => r == Err(NotFound)
                     case Failed => r == Err(LoadFailed)
                   }
      ensures loaded && outcome.Loaded? && 0 < |outcome.payload| <= maxValue ==>
                Remembers(slot, Present(outcome.payload), if opt.Some? then opt.value else ttl, draw, old(plain),
                          old(l1), old(l2))
      ensures loaded && outcome.FoundNothing? && negTTL > 0 ==>
                Remembers(slot, Absent, negTTL, draw, old(plain), old(l1), old(l2))
      ensures loaded && !(outcome.Loaded? && 0 < |outcome.payload| <= maxValue) &&
              !(outcome.FoundNothing? && negTTL > 0) ==>
                plain == old(plain) && l1 == old(l1) && l2 == old(l2)
      ensures loaded && tagged && plain != old(plain) ==>
                slot.pk in wrote && wrote[slot.pk].entry.gens == A.Read(old(auth), slot.genKeys, chances).0
    {
      hide AreCurrent, AreLive, A.Valid, A.ChancesOk, A.Read, T.LongestTtl, T.ShortTtl, T.Scale, LevelOk, AllWritten,
           PlainOk, CopyOk, Complete, Counted, Remembers, StillHeld, VouchedFor, PlainGet, AfterHit, A.NothingLost;
      var entryTTL := if opt.Some? then opt.value else ttl;
      if entryTTL <= 0 {
        return Err(InvalidConfig), false;
      }
      var hit, current := Read(slot, chances);
      if hit.Some? {
        return if hit.value.Absent? then Err(NotFound) else Ok(hit.value.payload), false;
      }
      now := now + took;
      match outcome {
        case Loaded(payload) =>
          if |payload| <= maxValue {
            var _ := Write(slot, Present(payload), current, entryTTL, draw);
          }
          return Ok(payload), true;
        case FoundNothing =>
          if negTTL > 0 {
            var _ := Write(slot, Absent, current, negTTL, draw);
          }
          return Err(NotFound), true;
        case Failed =>
          return Err(LoadFailed), true;
      }
    }

    // ---- Invalidation ----

    /** The bump of a tag at the authority and, where there is a local copy, the drop. */
    method Retire(genKey: string, chance: A.Chance)
      requires Valid() && A.ChanceOk(auth, genKey, chance) && auth.bumps < auth.limit
      modifies this`auth, this`countersKept, this`plain, gens
      ensures Valid()
      ensures auth == A.Bumped(old(auth), genKey, chance, now)
      ensures countersKept == (old(countersKept) && A.NothingLost([chance]))
      ensures plain == PlainInvalidate(old(plain), genKey)
      ensures gens != null ==> gens.State() == G.Dropped(old(gens.State()), genKey)
    {
      hide A.Valid, A.ChanceOk, A.Bumped, LevelOk, AllWritten, PlainOk, CopyOk, Complete, Counted, PlainInvalidate;
      BumpKeeps(genKey, chance);
      auth := A.Bumped(auth, genKey, chance, now);
      countersKept := countersKept && A.NothingLost([chance]);
      plain := PlainInvalidate(plain, genKey);
      if gens != null {
        gens.Drop(genKey);
      }
    }

    lemma BumpKeeps(genKey: string, chance: A.Chance)
      requires Valid() && A.ChanceOk(auth, genKey, chance) && auth.bumps < auth.limit
      ensures var after, left := A.Bumped(auth, genKey, chance, now), PlainInvalidate(plain, genKey);
              && A.Valid(after) && AllWritten(after, codec, maxValue, wrote) && PlainOk(after, wrote, left)
              && (gens != null ==> CopyOk(after, gens.m - {genKey}))
              && (levelKept ==> Complete(left, if hasL2 then l2 else l1, hasL2))
              && (countersKept && A.NothingLost([chance]) ==> Counted(after, wrote, left))
    {
      hide A.Valid, A.ChanceOk, A.Bumped, LevelOk, AllWritten, PlainOk, CopyOk, Complete, Counted;
      A.BumpedFacts(auth, genKey, chance, now);
      var after := A.Bumped(auth, genKey, chance, now);
      BumpInvalidates(auth, after, genKey, now, codec, maxValue, wrote, plain);
      if levelKept {
        CompleteAfterBump(genKey, plain, if hasL2 then l2 else l1, hasL2);
      }
      if countersKept && A.NothingLost([chance]) {
        assert [chance][0] == chance;
        A.BumpMovesOne(auth, genKey, chance, now);
        CountedAfterBump(auth, after, genKey, wrote, plain);
      }
      if gens != null {
        CopyAfterBump(auth, after, genKey, now, gens.m);
      }
    }

    /** InvalidateTag: exactly the entries that carry the tag are retired. */
    method InvalidateTag(genKey: string, chance: A.Chance) returns (err: Option<Error>)
      requires Valid() && A.ChanceOk(auth, genKey, chance) && auth.bumps < auth.limit
      modifies this`auth, this`countersKept, this`plain, gens
      ensures Valid()
      ensures old(countersKept) && A.NothingLost([chance]) ==> countersKept
      ensures err == if tagged then None else Some(InvalidConfig)
      ensures plain == if tagged then PlainInvalidate(old(plain), genKey) else old(plain)
      ensures auth == if tagged then A.Bumped(old(auth), genKey, chance, now) else old(auth)
      ensures tagged && gens != null ==> gens.State() == G.Dropped(old(gens.State()), genKey)
    {
      if !tagged {
        return Some(InvalidConfig);
      }
      Retire(genKey, chance);
      return None;
    }

    // ---- Events ----

    /** onEvent for a key: L1 lets go of an accepted name, and where L1 is all there is the entry is gone. */
    method OnKeyEvent(name: string)
      requires Valid()
      modifies this`l1, this`wrote, this`plain
      ensures Valid()
      ensures var heard := hasL1 && K.EventKey(namespace, name).Some?;
              && l1 == (if heard then old(l1) - {name} else old(l1))
              && plain == (if heard && !hasL2 then old(plain) - {name} else old(plain))
    {
      hide A.Valid, CopyOk, LevelOk, AllWritten, PlainOk, Complete, Counted, K.EventKey;
      if !hasL1 || K.EventKey(namespace, name).None? {
        return;
      }
      LevelAfterLoss(wrote, l1, {name});
      if !hasL2 {
        DeleteKeeps(auth, codec, maxValue, wrote, plain, name);
        if levelKept {
          CompleteAfterDelete(plain, l1, hasL2, name);
        }
        if countersKept {
          CountedAfterDelete(auth, wrote, plain, name);
        }
        LevelAfterDelete(wrote, l1, name);
        LevelAfterDelete(wrote, l2, name);
        wrote := wrote - {name};
        plain := plain - {name};
      }
      l1 := l1 - {name};
    }

    /**
      onEvent for a tag: with a local copy its generation is dropped; where L1 is the authority, each
      replica keeps its own generations, and the event bumps this one's.
     */
    method OnTagEvent(name: string, chance: A.Chance)
      requires Valid() && auth.bumps < auth.limit
      requires K.GenKey(namespace, name).Ok? ==> A.ChanceOk(auth, K.GenKey(namespace, name).value, chance)
      modifies this`auth, this`countersKept, this`plain, gens
      ensures Valid()
      ensures countersKept == (old(countersKept) && (hasL2 || !tagged || K.GenKey(namespace, name).Err? ||
                                                     A.NothingLost([chance])))
      ensures var key := K.GenKey(namespace, name);
              && plain == (if tagged && key.Ok? && !hasL2 then PlainInvalidate(old(plain), key.value) else old(plain))
              && (tagged && key.Ok? && !hasL2 ==> auth == A.Bumped(old(auth), key.value, chance, now))
              && (!tagged || key.Err? || hasL2 ==> auth == old(auth))
              && (gens != null ==>
                    gens.State() == if key.Ok? then G.Dropped(old(gens.State()), key.value) else old(gens.State()))
    {
      hide A.Valid, A.ChanceOk, A.Bumped, CopyOk, LevelOk, AllWritten, PlainOk, Complete, Counted, K.GenKey;
      if !tagged {
        return;
      }
      var key := K.GenKey(namespace, name);
      if key.Err? {
        return;
      }
      if gens != null {
        CopyAfterDrop(auth, gens.m, key.value);
        gens.Drop(key.value);
      } else if !hasL2 {
        Retire(key.value, chance);
      }
    }

    /**
      onEvent: an event of another namespace is none of this cache's business. A key's makes L1 let go of
      it; a tag's drops the copied generation, or bumps the counter where L1 is the authority; and
      neither does anything else.
     */
    method OnEvent(e: Event, chance: A.Chance)
      requires Valid() && auth.bumps < auth.limit
      requires K.GenKey(namespace, e.name).Ok? ==> A.ChanceOk(auth, K.GenKey(namespace, e.name).value, chance)
      modifies this`l1, this`wrote, this`auth, this`countersKept, this`plain, gens
      ensures Valid()
      ensures var mine, key := e.namespace == namespace, K.GenKey(namespace, e.name);
              var deleted := mine && e.OfKey? && hasL1 && K.EventKey(namespace, e.name).Some?;
              var retired := mine && e.OfTag? && tagged && key.Ok?;
              && l1 == (if deleted then old(l1) - {e.name} else old(l1))
              && (gens != null ==>
                    gens.State() == if retired then G.Dropped(old(gens.State()), key.value) else old(gens.State()))
              && auth == (if retired && !hasL2 then A.Bumped(old(auth), key.value, chance, now) else old(auth))
              && plain == (if retired && !hasL2 then PlainInvalidate(old(plain), key.value)
                           else if deleted && !hasL2 then old(plain) - {e.name} else old(plain))
              && countersKept == (old(countersKept) && (!retired || hasL2 || A.NothingLost([chance])))
    {
      hide A.Valid, A.ChanceOk, A.Bumped, CopyOk, LevelOk, AllWritten, PlainOk, Complete, Counted, K.GenKey,
           K.EventKey, G.Dropped, PlainInvalidate, A.NothingLost;
      if e.namespace != namespace {
        return;
      }
      match e {
        case OfKey(_, name) => OnKeyEvent(name);
        case OfTag(_, name) => OnTagEvent(name, chance);
      }
    }
  }
}
