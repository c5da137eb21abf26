/**
  A replica's short-lived copy of tag generations (gencache.go).

  `Copy` is the state the mutex guards, and the functions below are the lock sections:
  the class `GenCache` updates the fields in place and is proved against them, and the
  protocol in TagProtocol.dfy interleaves them.
 */
module GenCopy {
  import opened Common

  const MAX_CACHED_GENS: nat := 10_000

  datatype CachedGen = CachedGen(gen: nat, expires: int)

  /** The clears so far, and the drops so far of each key a read is about to fetch. */
  datatype Epoch = Epoch(clears: nat, drops: seq<nat>)

  datatype Copy = Copy(m: map<string, CachedGen>, drops: map<string, nat>, clears: nat)

  const EMPTY_COPY := Copy(map[], map[], 0)

  function DropCount(c: Copy, k: string): nat {
    if k in c.drops then c.drops[k] else 0
  }

  function Snapshot(c: Copy, keys: seq<string>): Epoch {
    Epoch(c.clears, seq(|keys|, i requires 0 <= i < |keys| => DropCount(c, keys[i])))
  }

  predicate Live(c: Copy, k: string, now: int) {
    k in c.m && now < c.m[k].expires
  }

  function Lookup(c: Copy, keys: seq<string>, now: int): Option<seq<nat>> {
    if forall i :: 0 <= i < |keys| ==> Live(c, keys[i], now)
    then Some(seq(|keys|, i requires 0 <= i < |keys| && Live(c, keys[i], now) => c.m[keys[i]].gen))
    else None
  }

  /** Nothing the read is about was dropped, and nothing was cleared, as far as the counters tell. */
  predicate Accepts(c: Copy, keys: seq<string>, since: Epoch)
    requires |since.drops| == |keys|
  {
    && c.clears == since.clears
    && forall i :: 0 <= i < |keys| ==> DropCount(c, keys[i]) == since.drops[i]
  }

  function Cleared(c: Copy): Copy {
    Copy(map[], map[], c.clears + 1)
  }

  predicate Overflows(c: Copy, keys: seq<string>) {
    |c.m| + |keys| > MAX_CACHED_GENS || |c.drops| > MAX_CACHED_GENS
  }

  function Filled(m: map<string, CachedGen>, keys: seq<string>, gens: seq<nat>, expires: int): map<string, CachedGen>
    requires |keys| == |gens|
    decreases |keys|
  {
    if keys == [] then m
    else
      var last := |keys| - 1;
      Filled(m, keys[..last], gens[..last], expires)[keys[last] := CachedGen(gens[last], expires)]
  }

  function Store(c: Copy, keys: seq<string>, gens: seq<nat>, since: Epoch, expires: int): Copy
    requires |keys| == |gens| == |since.drops|
  {
    if !Accepts(c, keys, since) then c
    else
      var base := if Overflows(c, keys) then Cleared(c) else c;
      base.(m := Filled(base.m, keys, gens, expires))
  }

  predicate FloodedBy(c: Copy, k: string) {
    k !in c.drops && |c.drops| >= MAX_CACHED_GENS
  }

  function Dropped(c: Copy, k: string): Copy {
    var base := if FloodedBy(c, k) then c.(drops := map[], clears := c.clears + 1) else c;
    base.(m := base.m - {k}, drops := base.drops[k := DropCount(base, k) + 1])
  }

  // ---- The class ----

  class GenCache {
    const ttl: int
    var m: map<string, CachedGen>
    var drops: map<string, nat>
    var clears: nat

    ghost function State(): Copy
      reads this
    {
      Copy(m, drops, clears)
    }

    constructor (ttl: int)
      ensures State() == EMPTY_COPY && this.ttl == ttl
    {
      this.ttl := ttl;
      m, drops, clears := map[], map[], 0;
    }

    method TakeEpoch(genKeys: seq<string>) returns (e: Epoch)
      ensures e == Snapshot(State(), genKeys)
    {
      var counts: seq<nat> := [];
      for i := 0 to |genKeys|
        invariant |counts| == i
        invariant forall j :: 0 <= j < i ==> counts[j] == DropCount(State(), genKeys[j])
      {
        counts := counts + [if genKeys[i] in drops then drops[genKeys[i]] else 0];
      }
      e := Epoch(clears, counts);
    }

    method Get(genKeys: seq<string>, now: int) returns (r: Option<seq<nat>>)
      ensures r == Lookup(State(), genKeys, now)
    {
      var gens: seq<nat> := [];
      for i := 0 to |genKeys|
        invariant |gens| == i
        invariant forall j :: 0 <= j < i ==> Live(State(), genKeys[j], now) && gens[j] == m[genKeys[j]].gen
      {
        var k := genKeys[i];
        if k !in m || !(now < m[k].expires) {
          assert !Live(State(), genKeys[i], now);
          return None;
        }
        gens := gens + [m[k].gen];
      }
      r := Some(gens);
      assert gens == Lookup(State(), genKeys, now).value;
    }

    method Put(genKeys: seq<string>, gens: seq<nat>, since: Epoch, now: int)
      requires |genKeys| == |gens| == |since.drops|
      modifies this
      ensures State() == Store(old(State()), genKeys, gens, since, now + ttl)
    {
      if clears != since.clears {
        return;
      }
      for i := 0 to |genKeys|
        invariant forall j :: 0 <= j < i ==> DropCount(State(), genKeys[j]) == since.drops[j]
        invariant State() == old(State())
      {
        if (if genKeys[i] in drops then drops[genKeys[i]] else 0) != since.drops[i] {
          assert DropCount(State(), genKeys[i]) != since.drops[i];
          return;
        }
      }
      if |m| + |genKeys| > MAX_CACHED_GENS || |drops| > MAX_CACHED_GENS {
        Clear();
      }
      ghost var base := State();
      for i := 0 to |genKeys|
        invariant State() == base.(m := Filled(base.m, genKeys[..i], gens[..i], now + ttl))
      {
        m := m[genKeys[i] := CachedGen(gens[i], now + ttl)];
        assert genKeys[..i + 1][..i] == genKeys[..i] && gens[..i + 1][..i] == gens[..i];
      }
      assert genKeys[..|genKeys|] == genKeys && gens[..|gens|] == gens;
    }

    method Drop(genKey: string)
      modifies this
      ensures State() == Dropped(old(State()), genKey)
    {
      m := m - {genKey};
      if genKey !in drops && |drops| >= MAX_CACHED_GENS {
        drops := map[];
        clears := clears + 1;
      }
      drops := drops[genKey := (if genKey in drops then drops[genKey] else 0) + 1];
    }

    method Clear()
      modifies this
      ensures State() == Cleared(old(State()))
    {
      m, drops, clears := map[], map[], clears + 1;
    }
  }

  // ---- What a put stores ----

  lemma {:induction false} FilledOutside(m: map<string, CachedGen>, keys: seq<string>, gens: seq<nat>, expires: int,
                                         k: string)
    requires |keys| == |gens| && k !in keys
    ensures k in Filled(m, keys, gens, expires) <==> k in m
    ensures k in m ==> Filled(m, keys, gens, expires)[k] == m[k]
    decreases |keys|
  {
    if keys == [] {
    } else {
      var last := |keys| - 1;
      FilledOutside(m, keys[..last], gens[..last], expires, k);
    }
  }

  /** Every key a put names ends up with a generation the same put gave that key. */
  lemma {:induction false} FilledInside(m: map<string, CachedGen>, keys: seq<string>, gens: seq<nat>, expires: int,
                                        k: string)
    returns (i: nat)
    requires |keys| == |gens| && k in keys
    ensures i < |keys| && keys[i] == k
    ensures k in Filled(m, keys, gens, expires)
    ensures Filled(m, keys, gens, expires)[k] == CachedGen(gens[i], expires)
    decreases |keys|
  {
    var last := |keys| - 1;
    if keys[last] == k {
      i := last;
    } else {
      i := FilledInside(m, keys[..last], gens[..last], expires, k);
    }
  }

  ghost predicate Distinct(keys: seq<string>) {
    forall i, j :: 0 <= i < j < |keys| ==> keys[i] != keys[j]
  }

  /** An accepted put is what the next lookup answers, until it expires; a refused one changes nothing. */
  lemma PutThenGet(c: Copy, keys: seq<string>, gens: seq<nat>, since: Epoch, expires: int, now: int)
    requires |keys| == |gens| == |since.drops| && Distinct(keys)
    ensures !Accepts(c, keys, since) ==> Store(c, keys, gens, since, expires) == c
    ensures Accepts(c, keys, since) && now < expires ==>
            Lookup(Store(c, keys, gens, since, expires), keys, now) == Some(gens)
    ensures Accepts(c, keys, since) && now >= expires && keys != [] ==>
            Lookup(Store(c, keys, gens, since, expires), keys, now) == None
  {
    if Accepts(c, keys, since) {
      var base := if Overflows(c, keys) then Cleared(c) else c;
      var c' := Store(c, keys, gens, since, expires);
      forall i | 0 <= i < |keys|
        ensures keys[i] in c'.m && c'.m[keys[i]] == CachedGen(gens[i], expires)
      {
        var j := FilledInside(base.m, keys, gens, expires, keys[i]);
      }
      if now < expires {
        assert Lookup(c', keys, now).value == gens;
      } else if keys != [] {
        assert !Live(c', keys[0], now);
      }
    }
  }

  // ---- Histories of puts and drops ----

  datatype Op =
    | Put(keys: seq<string>, gens: seq<nat>, since: Epoch, expires: int)
    | Drop(key: string)

  predicate OpOk(op: Op) {
    op.Put? ==> |op.keys| == |op.gens| == |op.since.drops|
  }

  function Apply(c: Copy, op: Op): Copy
    requires OpOk(op)
  {
    match op
    case Put(keys, gens, since, expires) => Store(c, keys, gens, since, expires)
    case Drop(k) => Dropped(c, k)
  }

  function Replay(c: Copy, ops: seq<Op>): Copy
    requires forall i :: 0 <= i < |ops| ==> OpOk(ops[i])
    decreases |ops|
  {
    if ops == [] then c else Replay(Apply(c, ops[0]), ops[1..])
  }

  /** The operation empties the drop counters, and so counts as a clear. */
  predicate Clears(c: Copy, op: Op)
    requires OpOk(op)
  {
    match op
    case Put(keys, _, since, _) => Accepts(c, keys, since) && Overflows(c, keys)
    case Drop(k) => FloodedBy(c, k)
  }

  /** No operation of the history drops one of the keys, and none clears. */
  predicate Undisturbed(c: Copy, ops: seq<Op>, keys: seq<string>)
    requires forall i :: 0 <= i < |ops| ==> OpOk(ops[i])
    decreases |ops|
  {
    ops == [] ||
    (&& !(ops[0].Drop? && ops[0].key in keys)
     && !Clears(c, ops[0])
     && Undisturbed(Apply(c, ops[0]), ops[1..], keys))
  }

  /** `since` was taken at or before `c`: it names no clear or drop that has not happened yet. */
  predicate EpochBelow(c: Copy, keys: seq<string>, since: Epoch) {
    && |since.drops| == |keys|
    && since.clears <= c.clears
    && (since.clears == c.clears ==> forall i :: 0 <= i < |keys| ==> since.drops[i] <= DropCount(c, keys[i]))
  }

  /** One operation keeps every earlier epoch below the state, and never makes a refused epoch acceptable. */
  lemma StepKeepsEpochs(c: Copy, op: Op, keys: seq<string>, since: Epoch)
    requires OpOk(op) && EpochBelow(c, keys, since)
    ensures EpochBelow(Apply(c, op), keys, since)
    ensures Accepts(Apply(c, op), keys, since) <==>
              Accepts(c, keys, since) && !Clears(c, op) && !(op.Drop? && op.key in keys)
  {
    var c' := Apply(c, op);
    if op.Drop? && !Clears(c, op) && op.key in keys {
      var i :| 0 <= i < |keys| && keys[i] == op.key;
      if since.clears == c.clears {
        assert DropCount(c', keys[i]) == DropCount(c, keys[i]) + 1 > since.drops[i];
      }
    }
    assert c'.clears == if Clears(c, op) then c.clears + 1 else c.clears;
    if !Clears(c, op) {
      forall i | 0 <= i < |keys|
        ensures DropCount(c', keys[i]) >= DropCount(c, keys[i])
        ensures !(op.Drop? && op.key == keys[i]) ==> DropCount(c', keys[i]) == DropCount(c, keys[i])
      {
      }
    }
  }

  lemma {:induction false} ReplayDecides(c: Copy, ops: seq<Op>, keys: seq<string>, since: Epoch)
    requires forall i :: 0 <= i < |ops| ==> OpOk(ops[i])
    requires EpochBelow(c, keys, since)
    ensures EpochBelow(Replay(c, ops), keys, since)
    ensures Accepts(Replay(c, ops), keys, since) <==> Accepts(c, keys, since) && Undisturbed(c, ops, keys)
    decreases |ops|
  {
    if ops == [] {
    } else {
      StepKeepsEpochs(c, ops[0], keys, since);
      ReplayDecides(Apply(c, ops[0]), ops[1..], keys, since);
    }
  }

  /**
    A put takes effect exactly when, since its epoch, no key of it was dropped and nothing was
    cleared, whatever else happened and however often the drop counters were reset.
   */
  lemma PutAcceptedExactlyWhenUndisturbed(c: Copy, ops: seq<Op>, keys: seq<string>)
    requires forall i :: 0 <= i < |ops| ==> OpOk(ops[i])
    ensures Accepts(Replay(c, ops), keys, Snapshot(c, keys)) <==> Undisturbed(c, ops, keys)
  {
    ReplayDecides(c, ops, keys, Snapshot(c, keys));
  }

  // ---- Bounds ----

  predicate Bounded(c: Copy) {
    |c.m| <= MAX_CACHED_GENS && |c.drops| <= MAX_CACHED_GENS
  }

  lemma {:induction false} FilledSize(m: map<string, CachedGen>, keys: seq<string>, gens: seq<nat>, expires: int)
    requires |keys| == |gens|
    ensures |Filled(m, keys, gens, expires)| <= |m| + |keys|
    decreases |keys|
  {
    if keys == [] {
    } else {
      var last := |keys| - 1;
      FilledSize(m, keys[..last], gens[..last], expires);
      InsertSize(Filled(m, keys[..last], gens[..last], expires), keys[last], CachedGen(gens[last], expires));
    }
  }

  lemma InsertSize<V>(m: map<string, V>, k: string, v: V)
    ensures |m[k := v]| == if k in m then |m| else |m| + 1
  {
  }

  lemma RemoveSize<V>(m: map<string, V>, k: string)
    ensures |m - {k}| <= |m|
  {
  }

  /** Both maps stay within the bound under every mix of puts and drops of at most `MAX_CACHED_GENS` keys. */
  lemma {:induction false} ReplayStaysBounded(c: Copy, ops: seq<Op>)
    requires Bounded(c)
    requires forall i :: 0 <= i < |ops| ==> OpOk(ops[i]) && (ops[i].Put? ==> |ops[i].keys| <= MAX_CACHED_GENS)
    ensures Bounded(Replay(c, ops))
    decreases |ops|
  {
    if ops == [] {
    } else {
      match ops[0] {
        case Put(keys, gens, since, expires) =>
          FilledSize(c.m, keys, gens, expires);
          FilledSize(map[], keys, gens, expires);
        case Drop(k) =>
          RemoveSize(c.m, k);
          var base := if FloodedBy(c, k) then c.(drops := map[], clears := c.clears + 1) else c;
          InsertSize(base.drops, k, DropCount(base, k) + 1);
      }
      ReplayStaysBounded(Apply(c, ops[0]), ops[1..]);
    }
  }

  function Drops(flood: seq<string>): (ops: seq<Op>)
    ensures |ops| == |flood| && forall i :: 0 <= i < |ops| ==> ops[i] == Drop(flood[i])
  {
    seq(|flood|, i requires 0 <= i < |flood| => Drop(flood[i]))
  }

  /** A flood of drops, however large, removes the generations it names and no others. */
  lemma {:induction false} FloodRemovesOnlyItsOwn(c: Copy, flood: seq<string>)
    ensures Replay(c, Drops(flood)).m == c.m - (set k | k in flood)
    decreases |flood|
  {
    if flood == [] {
      assert c.m - (set k | k in flood) == c.m;
    } else {
      assert Drops(flood)[1..] == Drops(flood[1..]);
      var c' := Dropped(c, flood[0]);
      assert Replay(c, Drops(flood)) == Replay(c', Drops(flood[1..]));
      assert c'.m == c.m - {flood[0]};
      FloodRemovesOnlyItsOwn(c', flood[1..]);
      RemoveInTwo(c.m, flood);
    }
  }

  lemma RemoveInTwo(m: map<string, CachedGen>, flood: seq<string>)
    requires flood != []
    ensures m - (set k | k in flood) == (m - {flood[0]}) - (set k | k in flood[1..])
  {
  }

  // ---- What is not forgotten ----

  /** An accepted put keeps what other keys have, unless it would take either map past ten thousand. */
  lemma PutKeepsOthers(c: Copy, keys: seq<string>, gens: seq<nat>, since: Epoch, expires: int, k: string)
    requires |keys| == |gens| == |since.drops| && k !in keys
    requires Accepts(c, keys, since)
    ensures var c' := Store(c, keys, gens, since, expires);
            if |c.m| + |keys| <= 10_000 && |c.drops| <= 10_000
            then (k in c.m <==> k in c'.m) && (k in c.m ==> c'.m[k] == c.m[k]) && c'.drops == c.drops &&
              c'.clears == c.clears
            else k !in c'.m && c'.drops == map[] && c'.clears == c.clears + 1
  {
    var base := if Overflows(c, keys) then Cleared(c) else c;
    FilledOutside(base.m, keys, gens, expires, k);
  }

  /** A drop takes out its own key and counts once more; other keys, and their counts, stay as they were. */
  lemma DropKeepsOthers(c: Copy, k: string)
    requires k in c.drops || |c.drops| < 10_000
    ensures var c' := Dropped(c, k);
            c'.m == c.m - {k} && c'.clears == c.clears &&
            c'.drops == c.drops[k := (if k in c.drops then c.drops[k] else 0) + 1]
  {
  }

  /** Only the drop of a new key beside ten thousand others forgets the counts, and then every epoch is refused. */
  lemma DropForgetsCounts(c: Copy, k: string)
    requires k !in c.drops && |c.drops| >= 10_000
    ensures Dropped(c, k) == Copy(c.m - {k}, map[k := 1], c.clears + 1)
  {
  }

  /** How many keys a history names, each as often as it does. */
  function Names(ops: seq<Op>): nat {
    if ops == [] then 0 else (match ops[0]
                              case Put(keys, _, _, _) => |keys|
                              case Drop(_) => 1) + Names(ops[1..])
  }

  ghost predicate AllOk(ops: seq<Op>) {
    forall i :: 0 <= i < |ops| ==> OpOk(ops[i])
  }

  ghost predicate DropsNone(ops: seq<Op>, keys: seq<string>) {
    forall i :: 0 <= i < |ops| ==> !(ops[i].Drop? && ops[i].key in keys)
  }

  lemma StepGrows(c: Copy, op: Op)
    requires OpOk(op) && |c.m| + Names([op]) <= 10_000 && |c.drops| + Names([op]) <= 10_000
    ensures !Clears(c, op)
    ensures |Apply(c, op).m| <= |c.m| + Names([op]) && |Apply(c, op).drops| <= |c.drops| + Names([op])
  {
    match op {
      case Put(keys, gens, since, expires) => FilledSize(c.m, keys, gens, expires);
      case Drop(k) =>
        RemoveSize(c.m, k);
        InsertSize(c.drops, k, DropCount(c, k) + 1);
    }
  }

  lemma {:induction false} SmallIsUndisturbed(c: Copy, ops: seq<Op>, keys: seq<string>)
    requires AllOk(ops) && |c.m| + Names(ops) <= 10_000 && |c.drops| + Names(ops) <= 10_000
    ensures Undisturbed(c, ops, keys) <==> DropsNone(ops, keys)
    decreases |ops|
  {
    if ops == [] {
    } else {
      assert Names([ops[0]]) + Names(ops[1..]) == Names(ops);
      StepGrows(c, ops[0]);
      SmallIsUndisturbed(Apply(c, ops[0]), ops[1..], keys);
      assert DropsNone(ops, keys) <==> !(ops[0].Drop? && ops[0].key in keys) && DropsNone(ops[1..], keys);
    }
  }

  /**
    Within ten thousand keys a put takes effect exactly when no key of it was dropped since its epoch:
    nothing else in a history of puts and drops can refuse it.
   */
  lemma PutAcceptedUnlessDropped(c: Copy, ops: seq<Op>, keys: seq<string>)
    requires AllOk(ops) && |c.m| + Names(ops) <= 10_000 && |c.drops| + Names(ops) <= 10_000
    ensures Accepts(Replay(c, ops), keys, Snapshot(c, keys)) <==> DropsNone(ops, keys)
  {
    PutAcceptedExactlyWhenUndisturbed(c, ops, keys);
    SmallIsUndisturbed(c, ops, keys);
  }

  /** The history neither drops the key nor puts another generation for it. */
  predicate Spares(ops: seq<Op>, k: string) {
    forall i :: 0 <= i < |ops| ==>
      match ops[i]
      case Put(keys, _, _, _) => k !in keys
      case Drop(l) => l != k
  }

  /** And what the copy says of a key stays, within ten thousand keys, until the key is dropped or put again. */
  lemma {:induction false} SparedStays(c: Copy, ops: seq<Op>, k: string)
    requires AllOk(ops) && |c.m| + Names(ops) <= 10_000 && |c.drops| + Names(ops) <= 10_000
    requires k in c.m && Spares(ops, k)
    ensures k in Replay(c, ops).m && Replay(c, ops).m[k] == c.m[k]
    decreases |ops|
  {
    if ops == [] {
    } else {
      assert Names([ops[0]]) + Names(ops[1..]) == Names(ops);
      StepGrows(c, ops[0]);
      match ops[0] {
        case Put(keys, gens, since, expires) =>
          if Accepts(c, keys, since) {
            PutKeepsOthers(c, keys, gens, since, expires, k);
          }
        case Drop(l) => DropKeepsOthers(c, l);
      }
      SparedStays(Apply(c, ops[0]), ops[1..], k);
    }
  }

  /** A lookup answers exactly when every key is there and unexpired, and then what is there. */
  lemma LookupAnswersExactly(c: Copy, keys: seq<string>, now: int)
    ensures Lookup(c, keys, now).Some? <==> forall i :: 0 <= i < |keys| ==> keys[i] in c.m && now < c.m[keys[i]].expires
    ensures Lookup(c, keys, now).Some? ==>
              |Lookup(c, keys, now).value| == |keys| &&
              forall i :: 0 <= i < |keys| ==> keys[i] in c.m && Lookup(c, keys, now).value[i] == c.m[keys[i]].gen
  {
    if forall i :: 0 <= i < |keys| ==> keys[i] in c.m && now < c.m[keys[i]].expires {
      assert forall i :: 0 <= i < |keys| ==> Live(c, keys[i], now);
    } else {
      var i :| 0 <= i < |keys| && !(keys[i] in c.m && now < c.m[keys[i]].expires);
      assert !Live(c, keys[i], now);
    }
  }
}
