/**
  What the store must still answer (memory/memory.go): exactly what each call does to the recency list,
  and that an item stays while fewer other keys than there is room for have been used since.
 */
module LruUse {
  import opened Common
  import opened BigEndian
  import opened Lru
  import W = LruLaws

  // ---- Each call, exactly ----

  /** `b` is `a` with the item at `p` taken out. */
  ghost predicate TakenOut(a: seq<Item>, b: seq<Item>, p: nat) {
    p < |a| && b == a[..p] + a[p + 1..]
  }

  lemma WithoutTakesOut(items: seq<Item>, p: nat)
    requires DistinctKeys(items) && p < |items|
    ensures IndexOf(items, items[p].key) == p && TakenOut(items, Without(items, items[p].key), p)
  {
    var i := IndexOf(items, items[p].key);
    assert i == p;
  }

  lemma WithoutNothing(items: seq<Item>, key: string)
    requires forall j :: 0 <= j < |items| ==> items[j].key != key
    ensures IndexOf(items, key) == |items| && Without(items, key) == items
  {
  }

  /** A Get of an unexpired item answers its value and puts it in front of the others, in their order. */
  lemma GetHits(l: Lru, p: nat, now: int)
    requires Valid(l) && p < |l.items| && now < l.items[p].expires
    ensures var (answer, l') := Get(l, l.items[p].key, now);
            && answer == Some(l.items[p].value)
            && l' == l.(items := [l.items[p]] + (l.items[..p] + l.items[p + 1..]))
  {
    WithoutTakesOut(l.items, p);
  }

  /** A Get of an expired item takes it out, and reports that once. */
  lemma GetExpires(l: Lru, p: nat, now: int)
    requires Valid(l) && p < |l.items| && l.items[p].expires <= now
    ensures var (answer, l') := Get(l, l.items[p].key, now);
            && answer == None && TakenOut(l.items, l'.items, p)
            && l'.evicted == (if l.reporting then l.evicted + [Expired] else l.evicted)
  {
    WithoutTakesOut(l.items, p);
  }

  lemma GetMisses(l: Lru, key: string, now: int)
    requires forall j :: 0 <= j < |l.items| ==> l.items[j].key != key
    ensures Get(l, key, now) == (None, l)
  {
    WithoutNothing(l.items, key);
  }

  /** A Delete takes out what its key holds, and nothing else. */
  lemma DeleteTakesOut(l: Lru, key: string)
    requires Valid(l)
    ensures (forall j :: 0 <= j < |l.items| ==> l.items[j].key != key) ==> Delete(l, key) == l
    ensures forall p :: 0 <= p < |l.items| && l.items[p].key == key ==>
              TakenOut(l.items, Delete(l, key).items, p) && Delete(l, key).evicted == l.evicted
  {
    forall p | 0 <= p < |l.items| && l.items[p].key == key
      ensures TakenOut(l.items, Delete(l, key).items, p)
    {
      WithoutTakesOut(l.items, p);
    }
    if forall j :: 0 <= j < |l.items| ==> l.items[j].key != key {
      WithoutNothing(l.items, key);
    }
  }

  function AllKeys(items: seq<Item>): string {
    if items == [] then "" else AllKeys(items[..|items| - 1]) + items[|items| - 1].key
  }

  function AllValues(items: seq<Item>): Bytes {
    if items == [] then [] else AllValues(items[..|items| - 1]) + items[|items| - 1].value
  }

  /** What the byte limit limits: the lengths of all keys and all values. */
  lemma {:induction false} BytesAreLengths(items: seq<Item>)
    ensures TotalBytes(items) == |AllKeys(items)| + |AllValues(items)|
  {
    if items == [] {
    } else {
      BytesAreLengths(items[..|items| - 1]);
    }
  }

  /** What was just set is answered until it expires, if it fits an empty store. */
  lemma GetAfterSet(l: Lru, item: Item, now: int)
    requires Valid(l) && |item.key| + |item.value| <= l.maxBytes && now < item.expires
    ensures Get(Set(l, item), item.key, now).0 == Some(item.value)
  {
    SetValid(l, item);
    SetLeaves(l, item);
    GetHits(Set(l, item), 0, now);
  }

  /** A Set reports one eviction for each other item it takes out, and the ones replaced or too large for none. */
  lemma SetReportsEvictions(l: Lru, item: Item)
    requires Valid(l)
    ensures var others := |Without(l.items, item.key)|;
            var l' := Set(l, item);
            var kept := if Cost(item) <= l.maxBytes then |l'.items| - 1 else others;
            && 0 <= kept <= others
            && |l'.evicted| == |l.evicted| + (if l.reporting then others - kept else 0)
            && (forall i :: 0 <= i < |l.evicted| ==> l'.evicted[i] == l.evicted[i])
            && (forall i :: |l.evicted| <= i < |l'.evicted| ==> l'.evicted[i] == Capacity)
  {
    hide Trimmed, TotalBytes, Without;
  }

  // ---- Recent items stay ----

  /** `item` is in the list, and everything more recent is under a key of `used`. */
  ghost predicate RecentAt(items: seq<Item>, item: Item, used: set<string>, p: nat) {
    && p < |items| && items[p] == item && item.key !in used
    && forall j :: 0 <= j < p ==> items[j].key in used
  }

  function KeysOf(items: seq<Item>): set<string> {
    set j | 0 <= j < |items| :: items[j].key
  }

  lemma {:induction false} KeysCount(items: seq<Item>)
    requires DistinctKeys(items)
    ensures |KeysOf(items)| == |items|
  {
    if items == [] {
    } else {
      var init := items[..|items| - 1];
      KeysCount(init);
      assert KeysOf(items) == KeysOf(init) + {items[|items| - 1].key};
      assert items[|items| - 1].key !in KeysOf(init);
    }
  }

  lemma {:induction false} Smaller<T>(a: set<T>, b: set<T>)
    requires a <= b
    ensures |a| <= |b|
  {
    assert b == a + (b - a);
  }

  /** There are at least as many keys used as there are more recent items. */
  lemma RecentPosition(items: seq<Item>, item: Item, used: set<string>, p: nat)
    requires DistinctKeys(items) && RecentAt(items, item, used, p)
    ensures p <= |used|
  {
    KeysCount(items[..p]);
    Smaller(KeysOf(items[..p]), used);
  }

  lemma RecentAfterTake(items: seq<Item>, rest: seq<Item>, item: Item, used: set<string>, p: nat, i: nat)
    returns (q: nat)
    requires RecentAt(items, item, used, p) && TakenOut(items, rest, i) && i != p
    ensures RecentAt(rest, item, used - {items[i].key}, q) || !DistinctKeys(items)
    ensures RecentAt(rest, item, used, q) && q <= p
  {
    q := if i < p then p - 1 else p;
    forall j | 0 <= j < q
      ensures rest[j].key in used && (DistinctKeys(items) ==> rest[j].key != items[i].key)
    {
      assert rest[j] == items[if j < i then j else j + 1];
    }
  }

  lemma RecentAfterCons(items: seq<Item>, item: Item, used: set<string>, p: nat, first: Item)
    requires RecentAt(items, item, used, p) && first.key != item.key
    ensures RecentAt([first] + items, item, used + {first.key}, p + 1)
  {
    var all := [first] + items;
    forall j | 0 <= j < p + 1
      ensures all[j].key in used + {first.key}
    {
      if j > 0 {
        assert all[j] == items[j - 1];
      }
    }
  }

  /** The list without `key`, when that is not the item's own. */
  lemma RecentWithout(items: seq<Item>, item: Item, used: set<string>, p: nat, key: string) returns (q: nat)
    requires DistinctKeys(items) && RecentAt(items, item, used, p) && key != item.key
    ensures RecentAt(Without(items, key), item, used, q) && RecentAt(Without(items, key), item, used - {key}, q)
  {
    var i := IndexOf(items, key);
    if i == |items| {
      q := p;
    } else {
      WithoutTakesOut(items, i);
      q := RecentAfterTake(items, Without(items, key), item, used, p, i);
    }
  }

  lemma RecentAfterGet(l: Lru, item: Item, used: set<string>, p: nat, key: string, now: int) returns (q: nat)
    requires Valid(l) && RecentAt(l.items, item, used, p) && (key == item.key ==> now < item.expires)
    ensures var (answer, l') := Get(l, key, now);
            RecentAt(l'.items, item, if answer.Some? && key != item.key then used + {key} else used, q)
  {
    if key == item.key {
      GetHits(l, p, now);
      q := 0;
    } else {
      var r := RecentWithout(l.items, item, used, p, key);
      var i := IndexOf(l.items, key);
      if i == |l.items| {
        q := p;
      } else if now < l.items[i].expires {
        RecentAfterCons(Without(l.items, key), item, used, r, l.items[i]);
        q := r + 1;
      } else {
        q := r;
      }
    }
  }

  lemma RecentAfterSet(l: Lru, item: Item, used: set<string>, p: nat, other: Item) returns (q: nat)
    requires Valid(l) && RecentAt(l.items, item, used, p) && other.key != item.key
    requires Cost(other) + TotalBytes(Without(l.items, other.key)) <= l.maxBytes && |used + {other.key}| < l.maxEntries
    ensures RecentAt(Set(l, other).items, item, used + {other.key}, q)
  {
    hide TotalBytes, Trimmed, Without, Set;
    W.SetByCount(l, other);
    WithoutHasNot(l.items, other.key);
    var rest := Without(l.items, other.key);
    W.WithoutLength(l.items, other.key);
    var r := RecentWithout(l.items, item, used, p, other.key);
    RecentPosition(rest, item, used - {other.key}, r);
    assert used + {other.key} == (used - {other.key}) + {other.key};
    var kept := W.Kept(rest, l.maxEntries);
    assert RecentAt(kept, item, used, r);
    RecentAfterCons(kept, item, used, r, other);
    q := r + 1;
  }

  /** The keys that were set, or asked for and answered. */
  function UsedBy(l: Lru, ops: seq<W.Op>): set<string>
    requires l.maxEntries > 0 && l.maxBytes > 0
    decreases |ops|
  {
    if ops == [] then {}
    else
      var (answer, l') := W.Apply(l, ops[0]);
      var now := match ops[0]
                 case GetOp(key, _) => if answer.Some? then {key} else {}
                 case SetOp(item) => {item.key}
                 case DeleteOp(_) => {};
      now + UsedBy(l', ops[1..])
  }

  /** The calls neither set nor delete under the item's key, and ask for it only while it is unexpired. */
  predicate Spares(ops: seq<W.Op>, item: Item) {
    forall i :: 0 <= i < |ops| ==>
      match ops[i]
      case GetOp(key, now) => key == item.key ==> now < item.expires
      case SetOp(other) => other.key != item.key
      case DeleteOp(key) => key != item.key
  }

  lemma {:induction false} RecentAfterRun(l: Lru, item: Item, used: set<string>, p: nat, ops: seq<W.Op>)
    returns (q: nat)
    requires Valid(l) && RecentAt(l.items, item, used, p) && W.BytesNeverBind(l, ops) && Spares(ops, item)
    requires |used + (UsedBy(l, ops) - {item.key})| < l.maxEntries
    ensures Valid(W.Final(l, ops)) && RecentAt(W.Final(l, ops).items, item, used + (UsedBy(l, ops) - {item.key}), q)
    decreases |ops|
  {
    if ops == [] {
      q := p;
      assert used + (UsedBy(l, ops) - {item.key}) == used;
    } else {
      var l' := W.Apply(l, ops[0]).1;
      var all := used + (UsedBy(l, ops) - {item.key});
      var used', r := RecentAfterStep(l, item, used, p, ops);
      StepKeepsValid(l, ops[0]);
      assert Spares(ops[1..], item);
      assert used' + (UsedBy(l', ops[1..]) - {item.key}) == all;
      q := RecentAfterRun(l', item, used', r, ops[1..]);
    }
  }

  lemma StepKeepsValid(l: Lru, op: W.Op)
    requires Valid(l)
    ensures Valid(W.Apply(l, op).1) && W.Apply(l, op).1.maxEntries == l.maxEntries
  {
    match op {
      case GetOp(key, now) => GetValid(l, key, now);
      case SetOp(item) => SetValid(l, item);
      case DeleteOp(key) => DeleteValid(l, key);
    }
  }

  lemma RecentAfterStep(l: Lru, item: Item, used: set<string>, p: nat, ops: seq<W.Op>)
    returns (used': set<string>, q: nat)
    requires Valid(l) && RecentAt(l.items, item, used, p) && W.BytesNeverBind(l, ops) && Spares(ops, item) && ops != []
    requires |used + (UsedBy(l, ops) - {item.key})| < l.maxEntries
    ensures var l' := W.Apply(l, ops[0]).1;
            && RecentAt(l'.items, item, used', q)
            && used' + (UsedBy(l', ops[1..]) - {item.key}) == used + (UsedBy(l, ops) - {item.key})
  {
    var l' := W.Apply(l, ops[0]).1;
    match ops[0] {
      case GetOp(key, now) =>
        q := RecentAfterGet(l, item, used, p, key, now);
        used' := if Get(l, key, now).0.Some? && key != item.key then used + {key} else used;
      case SetOp(other) =>
        used' := used + {other.key};
        Smaller(used', used + (UsedBy(l, ops) - {item.key}));
        q := RecentAfterSet(l, item, used, p, other);
      case DeleteOp(key) =>
        used' := used;
        q := RecentWithout(l.items, item, used, p, key);
    }
  }

  /**
    With the byte limit not binding, an item that was just set or just answered is still answered, until
    it expires, after any calls that use fewer other keys than the store has entries.
   */
  lemma RecentIsAnswered(l: Lru, item: Item, ops: seq<W.Op>, now: int)
    requires Valid(l) && l.items != [] && l.items[0] == item && W.BytesNeverBind(l, ops) && Spares(ops, item)
    requires |UsedBy(l, ops) - {item.key}| < l.maxEntries && now < item.expires
    ensures Get(W.Final(l, ops), item.key, now).0 == Some(item.value)
  {
    assert {} + (UsedBy(l, ops) - {item.key}) == UsedBy(l, ops) - {item.key};
    var q := RecentAfterRun(l, item, {}, 0, ops);
    GetHits(W.Final(l, ops), q, now);
  }
}
