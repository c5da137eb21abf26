/**
  Where a key lives (tags.go, slotFor): its physical key and, in a tagged cache, the counter keys of its
  tags, sorted and without duplicates.
 */
module Slots {
  import opened Common
  import opened Keys
  import E = Envelope

  // ---- The order of Go strings ----

  predicate Below(a: string, b: string) {
    b != [] && (a == [] || a[0] < b[0] || (a[0] == b[0] && Below(a[1..], b[1..])))
  }

  lemma {:induction false} BelowTotal(a: string, b: string)
    ensures a == b || Below(a, b) || Below(b, a)
  {
    if a == [] || b == [] || a[0] != b[0] {
    } else {
      BelowTotal(a[1..], b[1..]);
      assert a == [a[0]] + a[1..] && b == [b[0]] + b[1..];
    }
  }

  lemma {:induction false} BelowIrreflexive(a: string)
    ensures !Below(a, a)
  {
    if a == [] {
    } else {
      BelowIrreflexive(a[1..]);
    }
  }

  lemma {:induction false} BelowTransitive(a: string, b: string, c: string)
    requires Below(a, b) && Below(b, c)
    ensures Below(a, c)
  {
    if a == [] || !(a[0] == b[0] == c[0]) {
    } else {
      BelowTransitive(a[1..], b[1..], c[1..]);
    }
  }

  // ---- Sorting and compacting ----

  predicate Ascending(s: seq<string>) {
    forall i :: 0 <= i < |s| - 1 ==> s[i] == s[i + 1] || Below(s[i], s[i + 1])
  }

  /** `t` put before the first element it does not follow. */
  function Inserted(t: string, s: seq<string>): seq<string> {
    if s == [] then [t]
    else if t == s[0] || Below(t, s[0]) then [t] + s
    else [s[0]] + Inserted(t, s[1..])
  }

  /** slices.Sort. */
  function Sorted(s: seq<string>): seq<string> {
    if s == [] then [] else Inserted(s[0], Sorted(s[1..]))
  }

  /** slices.Compact: one of each run of equal elements. */
  function Compacted(s: seq<string>): seq<string> {
    if |s| <= 1 then s
    else if s[0] == s[1] then Compacted(s[1..])
    else [s[0]] + Compacted(s[1..])
  }

  function Canonical(tags: seq<string>): seq<string> {
    Compacted(Sorted(tags))
  }

  lemma {:induction false} InsertedAscends(t: string, s: seq<string>)
    requires Ascending(s)
    ensures Ascending(Inserted(t, s))
    ensures Inserted(t, s) != [] && (Inserted(t, s)[0] == t || (s != [] && Inserted(t, s)[0] == s[0]))
  {
    if s == [] || t == s[0] || Below(t, s[0]) {
    } else {
      BelowTotal(t, s[0]);
      InsertedAscends(t, s[1..]);
    }
  }

  lemma {:induction false} InsertedPermutes(t: string, s: seq<string>)
    ensures multiset(Inserted(t, s)) == multiset(s) + multiset{t}
  {
    if s == [] || t == s[0] || Below(t, s[0]) {
    } else {
      InsertedPermutes(t, s[1..]);
      assert s == [s[0]] + s[1..];
    }
  }

  /** The sort is one: ascending, and a permutation of its input. */
  lemma {:induction false} SortedSorts(s: seq<string>)
    ensures Ascending(Sorted(s)) && multiset(Sorted(s)) == multiset(s)
  {
    if s == [] {
    } else {
      SortedSorts(s[1..]);
      InsertedAscends(s[0], Sorted(s[1..]));
      InsertedPermutes(s[0], Sorted(s[1..]));
      assert s == [s[0]] + s[1..];
    }
  }

  /** Strictly ascending: each element below all that follow it. */
  predicate Increasing(s: seq<string>) {
    forall i, j :: 0 <= i < j < |s| ==> Below(s[i], s[j])
  }

  lemma {:induction false} CompactedIncreases(s: seq<string>)
    requires Ascending(s)
    ensures Increasing(Compacted(s))
    ensures forall t :: t in Compacted(s) <==> t in s
    ensures s != [] ==> Compacted(s) != [] && Compacted(s)[0] == s[0]
  {
    if |s| <= 1 {
    } else {
      CompactedIncreases(s[1..]);
      assert s == [s[0]] + s[1..];
      var rest := Compacted(s[1..]);
      if s[0] != s[1] {
        forall j | 0 <= j < |rest|
          ensures Below(s[0], rest[j])
        {
          if j > 0 {
            BelowTransitive(s[0], rest[0], rest[j]);
          }
        }
      }
    }
  }

  /** A strictly ascending sequence is determined by what is in it. */
  lemma {:induction false} IncreasingUnique(a: seq<string>, b: seq<string>)
    requires Increasing(a) && Increasing(b) && (forall t :: t in a <==> t in b)
    ensures a == b
  {
    NonEmptyToo(a, b);
    NonEmptyToo(b, a);
    if a == [] {
    } else {
      assert a[0] in b && b[0] in a;
      FirstIsLeast(a, b[0]);
      FirstIsLeast(b, a[0]);
      if a[0] != b[0] {
        BelowTransitive(a[0], b[0], a[0]);
        BelowIrreflexive(a[0]);
      }
      forall t
        ensures t in a[1..] <==> t in b[1..]
      {
        RestOf(a, t);
        RestOf(b, t);
      }
      IncreasingUnique(a[1..], b[1..]);
      assert a == [a[0]] + a[1..] && b == [b[0]] + b[1..];
    }
  }

  lemma NonEmptyToo(a: seq<string>, b: seq<string>)
    requires forall t :: t in a <==> t in b
    ensures a != [] ==> b != []
  {
    if a != [] {
      assert a[0] in b;
    }
  }

  lemma FirstIsLeast(a: seq<string>, t: string)
    requires Increasing(a) && t in a
    ensures t == a[0] || Below(a[0], t)
  {
  }

  lemma RestOf(a: seq<string>, t: string)
    requires Increasing(a) && a != []
    ensures t in a[1..] <==> t in a && t != a[0]
  {
    BelowIrreflexive(a[0]);
    assert a == [a[0]] + a[1..];
  }

  lemma CanonicalFacts(tags: seq<string>)
    ensures Increasing(Canonical(tags))
    ensures forall t :: t in Canonical(tags) <==> t in tags
  {
    SortedSorts(tags);
    CompactedIncreases(Sorted(tags));
    forall t
      ensures t in Sorted(tags) <==> t in tags
    {
      assert t in multiset(Sorted(tags)) <==> t in multiset(tags);
    }
  }

  // ---- Slots ----

  function GenKeys(ns: string, tags: seq<string>): Result<seq<string>, KeyError>
    decreases |tags|
  {
    if tags == [] then Ok([])
    else
      match GenKeys(ns, tags[..|tags| - 1])
      case Err(e) => Err(e)
      case Ok(ks) =>
        match GenKey(ns, tags[|tags| - 1])
        case Err(e) => Err(e)
        case Ok(k) => Ok(ks + [k])
  }

  function SlotOf(ns: string, hashKeys: bool, hash: string -> string, tagged: bool, key: string,
                  tags: seq<string>): Result<Slot, KeyError>
    requires DigestFunction(hash)
  {
    match PhysicalKey(ns, hashKeys, hash, key)
    case Err(e) => Err(e)
    case Ok(pk) =>
      if !tagged then Ok(Slot(pk, []))
      else if |Canonical(tags)| > E.MAX_TAGS then Err(InvalidKey)
      else
        match GenKeys(ns, Canonical(tags))
        case Err(e) => Err(e)
        case Ok(ks) => Ok(Slot(pk, ks))
  }

  method SlotFor(ns: string, hashKeys: bool, hash: string -> string, tagged: bool, key: string, given: seq<string>)
    returns (r: Result<Slot, KeyError>)
    requires DigestFunction(hash)
    ensures r == SlotOf(ns, hashKeys, hash, tagged, key, given)
  {
    var pk := PhysicalKey(ns, hashKeys, hash, key);
    if pk.Err? {
      return Err(pk.error);
    }
    if !tagged {
      return Ok(Slot(pk.value, []));
    }
    var tags := Compacted(Sorted(given));
    if |tags| > E.MAX_TAGS {
      return Err(InvalidKey);
    }
    var genKeys: seq<string> := [];
    for i := 0 to |tags|
      invariant GenKeys(ns, tags[..i]) == Ok(genKeys)
    {
      assert tags[..i + 1][..i] == tags[..i];
      var k := GenKey(ns, tags[i]);
      if k.Err? {
        GenKeysFail(ns, tags, i + 1);
        return Err(k.error);
      }
      genKeys := genKeys + [k.value];
    }
    assert tags[..|tags|] == tags;
    r := Ok(Slot(pk.value, genKeys));
  }

  /** One refused tag refuses the slot, whatever follows it. */
  lemma {:induction false} GenKeysFail(ns: string, tags: seq<string>, n: nat)
    requires n <= |tags| && GenKeys(ns, tags[..n]).Err?
    ensures GenKeys(ns, tags) == Err(InvalidKey)
    decreases |tags|
  {
    if n == |tags| {
      assert tags[..n] == tags && GenKeys(ns, tags).error.InvalidKey?;
    } else {
      var init := tags[..|tags| - 1];
      assert init[..n] == tags[..n];
      GenKeysFail(ns, init, n);
    }
  }

  lemma {:induction false} GenKeysFacts(ns: string, tags: seq<string>)
    ensures GenKeys(ns, tags).Ok? <==> forall i :: 0 <= i < |tags| ==> GenKey(ns, tags[i]).Ok?
    ensures GenKeys(ns, tags).Ok? ==>
              && |GenKeys(ns, tags).value| == |tags|
              && forall i :: 0 <= i < |tags| ==> GenKey(ns, tags[i]) == Ok(GenKeys(ns, tags).value[i])
    decreases |tags|
  {
    if tags == [] {
    } else {
      var init := tags[..|tags| - 1];
      GenKeysFacts(ns, init);
      assert tags == init + [tags[|tags| - 1]];
    }
  }

  /** A tagged slot exists exactly for a good key with at most eight different tags, all of them good. */
  lemma SlotExistsExactlyWhen(ns: string, h: bool, hash: string -> string, key: string, tags: seq<string>)
    requires DigestFunction(hash)
    ensures SlotOf(ns, h, hash, true, key, tags).Ok? <==>
              && PhysicalKey(ns, h, hash, key).Ok?
              && |set t | t in tags| <= E.MAX_TAGS
              && forall t :: t in tags ==> GenKey(ns, t).Ok?
  {
    var c := Canonical(tags);
    CanonicalFacts(tags);
    GenKeysFacts(ns, c);
    IncreasingSize(c);
    assert (set t | t in tags) == (set t | t in c);
    forall t | t in tags
      ensures exists i :: 0 <= i < |c| && c[i] == t
    {
      assert t in c;
    }
  }

  lemma {:induction false} IncreasingSize(s: seq<string>)
    requires Increasing(s)
    ensures |set t | t in s| == |s|
  {
    if s == [] {
    } else {
      IncreasingSize(s[1..]);
      RestOf(s, s[0]);
      assert s == [s[0]] + s[1..];
      assert (set t | t in s) == {s[0]} + (set t | t in s[1..]);
    }
  }

  /**
    A tagged cache puts two calls in the same slot exactly when they have the same key and the same set
    of tags: neither the order nor the repetition of the tags matters, and nothing else is confused.
   */
  lemma SlotsAgreeExactlyWhen(ns: string, h: bool, hash: string -> string, key1: string, tags1: seq<string>,
                              key2: string, tags2: seq<string>)
    requires DigestFunction(hash) && ValidNamespace(ns)
    requires hash(key1) == hash(key2) ==> key1 == key2
    requires SlotOf(ns, h, hash, true, key1, tags1).Ok? && SlotOf(ns, h, hash, true, key2, tags2).Ok?
    ensures var s1 := SlotOf(ns, h, hash, true, key1, tags1).value;
            var s2 := SlotOf(ns, h, hash, true, key2, tags2).value;
            s1.pk == s2.pk && s1.genKeys == s2.genKeys <==> key1 == key2 && forall t :: t in tags1 <==> t in tags2
  {
    var c1, c2 := Canonical(tags1), Canonical(tags2);
    CanonicalFacts(tags1);
    CanonicalFacts(tags2);
    if forall t :: t in tags1 <==> t in tags2 {
      IncreasingUnique(c1, c2);
    }
    var s1 := SlotOf(ns, h, hash, true, key1, tags1).value;
    var s2 := SlotOf(ns, h, hash, true, key2, tags2).value;
    if s1.pk == s2.pk && s1.genKeys == s2.genKeys {
      PhysicalKeyInjective(ns, ns, h, h, hash, key1, key2);
      SameTags(ns, c1, c2, s1.genKeys);
    }
  }

  lemma SameTags(ns: string, c1: seq<string>, c2: seq<string>, ks: seq<string>)
    requires ValidNamespace(ns) && GenKeys(ns, c1) == Ok(ks) == GenKeys(ns, c2)
    ensures c1 == c2
  {
    GenKeysFacts(ns, c1);
    GenKeysFacts(ns, c2);
    forall i | 0 <= i < |ks|
      ensures c1[i] == c2[i]
    {
      GenKeyInjective(ns, ns, c1[i], c2[i]);
    }
  }

  /** Every slot of a tagged cache is what the protocol and its flight keys need. */
  lemma SlotsAreFlightSafe(ns: string, h: bool, hash: string -> string, key: string, tags: seq<string>)
    requires DigestFunction(hash) && ValidNamespace(ns) && SlotOf(ns, h, hash, true, key, tags).Ok?
    ensures var slot := SlotOf(ns, h, hash, true, key, tags).value; FlightSafe(slot.pk, slot.genKeys)
  {
    var slot := SlotOf(ns, h, hash, true, key, tags).value;
    GenKeysFacts(ns, Canonical(tags));
    BuiltKeysAreFlightSafe(ns, h, hash, key, Canonical(tags), slot.genKeys);
  }

  /** Strings are ordered by their first difference, a prefix before what it starts. */
  lemma {:induction false} BelowAtFirstDifference(a: string, b: string) returns (n: nat)
    requires a != b
    ensures n <= |a| && n <= |b| && a[..n] == b[..n] && (n < |a| || n < |b|)
    ensures n < |a| && n < |b| ==> a[n] != b[n]
    ensures Below(a, b) <==> n < |b| && (n == |a| || a[n] < b[n])
  {
    if a == [] || b == [] || a[0] != b[0] {
      n := 0;
    } else {
      var m := BelowAtFirstDifference(a[1..], b[1..]);
      n := m + 1;
      assert a[..n] == [a[0]] + a[1..][..m] && b[..n] == [b[0]] + b[1..][..m];
    }
  }

  /**
    A slot's parts: the physical key of the key, and one counter key for each different tag, in the
    order of the tags; and without tags none. A key that has none is refused first.
   */
  lemma SlotContents(ns: string, h: bool, hash: string -> string, tagged: bool, key: string, tags: seq<string>)
    requires DigestFunction(hash)
    ensures PhysicalKey(ns, h, hash, key).Err? ==> SlotOf(ns, h, hash, tagged, key, tags).Err?
    ensures !tagged && PhysicalKey(ns, h, hash, key).Ok? ==>
              SlotOf(ns, h, hash, tagged, key, tags) == Ok(Slot(PhysicalKey(ns, h, hash, key).value, []))
    ensures tagged && SlotOf(ns, h, hash, true, key, tags).Ok? ==>
              var slot, c := SlotOf(ns, h, hash, true, key, tags).value, Canonical(tags);
              && PhysicalKey(ns, h, hash, key) == Ok(slot.pk)
              && |slot.genKeys| == |c| <= 8 && Increasing(c) && (forall t :: t in c <==> t in tags)
              && (forall i :: 0 <= i < |c| ==> GenKey(ns, c[i]) == Ok(slot.genKeys[i]))
              && (ValidNamespace(ns) ==> forall i, j :: 0 <= i < j < |c| ==> slot.genKeys[i] != slot.genKeys[j])
  {
    hide Canonical, GenKeys;
    CanonicalFacts(tags);
    var c := Canonical(tags);
    GenKeysFacts(ns, c);
    if tagged && SlotOf(ns, h, hash, true, key, tags).Ok? && ValidNamespace(ns) {
      var ks := SlotOf(ns, h, hash, true, key, tags).value.genKeys;
      forall i, j | 0 <= i < j < |c|
        ensures ks[i] != ks[j]
      {
        DistinctGenKeys(ns, c, i, j);
      }
    }
  }

  lemma DistinctGenKeys(ns: string, c: seq<string>, i: nat, j: nat)
    requires ValidNamespace(ns) && Increasing(c) && i < j < |c| && GenKey(ns, c[i]).Ok?
    ensures GenKey(ns, c[i]) != GenKey(ns, c[j])
  {
    BelowIrreflexive(c[i]);
    GenKeyInjective(ns, ns, c[i], c[j]);
  }
}
