/**
  What the in-memory store holds, as a value (memory/memory.go): items from most to least recently
  used. The functions are the lock sections of `Store`; MemoryStore.dfy proves the linked list
  against them.
 */
module Lru {
  import opened Common
  import opened BigEndian

  datatype Item = Item(key: string, value: Bytes, expires: int)

  datatype Reason = Capacity | Expired

  /** `evicted` are the reports not yet delivered; nothing is queued unless `reporting`. */
  datatype Lru = Lru(maxEntries: int, maxBytes: int, reporting: bool, items: seq<Item>, evicted: seq<Reason>)

  function Cost(i: Item): nat {
    |i.key| + |i.value|
  }

  function TotalBytes(items: seq<Item>): nat {
    if items == [] then 0 else TotalBytes(items[..|items| - 1]) + Cost(items[|items| - 1])
  }

  ghost predicate DistinctKeys(items: seq<Item>) {
    forall i, j :: 0 <= i < j < |items| ==> items[i].key != items[j].key
  }

  /** The representation invariant, as a property of the value. */
  ghost predicate Valid(l: Lru) {
    && l.maxEntries > 0 && l.maxBytes > 0
    && DistinctKeys(l.items)
    && |l.items| <= l.maxEntries
    && TotalBytes(l.items) <= l.maxBytes
  }

  predicate Has(items: seq<Item>, key: string) {
    exists i :: 0 <= i < |items| && items[i].key == key
  }

  /** The position of `key`, or the length. */
  function IndexOf(items: seq<Item>, key: string): (i: nat)
    ensures i <= |items|
    ensures forall j :: 0 <= j < i ==> items[j].key != key
    ensures i < |items| ==> items[i].key == key
    ensures i < |items| <==> Has(items, key)
  {
    if items == [] then 0
    else if items[0].key == key then 0
    else
      assert Has(items[1..], key) <==> Has(items, key) by {
        if Has(items, key) {
          var j :| 0 <= j < |items| && items[j].key == key;
          assert items[1..][j - 1].key == key;
        }
        if Has(items[1..], key) {
          var j :| 0 <= j < |items[1..]| && items[1..][j].key == key;
          assert items[j + 1].key == key;
        }
      }
      1 + IndexOf(items[1..], key)
  }

  function Without(items: seq<Item>, key: string): seq<Item> {
    var i := IndexOf(items, key);
    if i < |items| then items[..i] + items[i + 1..] else items
  }

  predicate Fits(items: seq<Item>, entries: int, bytes: int) {
    |items| <= entries && TotalBytes(items) <= bytes
  }

  /** Items dropped from the least recent end until both limits hold. */
  function Trimmed(items: seq<Item>, entries: nat, bytes: nat): (r: seq<Item>)
    ensures |r| <= |items|
    decreases |items|
  {
    if Fits(items, entries, bytes) || items == [] then items else Trimmed(items[..|items| - 1], entries, bytes)
  }

  function Reports(l: Lru, reason: Reason, n: nat): seq<Reason> {
    if l.reporting then l.evicted + seq(n, i => reason) else l.evicted
  }

  function Get(l: Lru, key: string, now: int): (Option<Bytes>, Lru) {
    var i := IndexOf(l.items, key);
    if i == |l.items| then (None, l)
    else if now >= l.items[i].expires then
      (None, l.(items := Without(l.items, key), evicted := Reports(l, Expired, 1)))
    else (Some(l.items[i].value), l.(items := [l.items[i]] + Without(l.items, key)))
  }

  function Set(l: Lru, item: Item): Lru
    requires l.maxEntries > 0 && l.maxBytes > 0
  {
    var rest := Without(l.items, item.key);
    if Cost(item) > l.maxBytes then l.(items := rest)
    else
      var kept := Trimmed(rest, l.maxEntries - 1, l.maxBytes - Cost(item));
      l.(items := [item] + kept, evicted := Reports(l, Capacity, |rest| - |kept|))
  }

  function Delete(l: Lru, key: string): Lru {
    l.(items := Without(l.items, key))
  }

  // ---- What an eviction leaves ----

  lemma {:induction false} PrefixBytes(items: seq<Item>, n: nat)
    requires n <= |items|
    ensures TotalBytes(items[..n]) <= TotalBytes(items)
    decreases |items|
  {
    if n == |items| {
      assert items[..n] == items;
    } else {
      PrefixBytes(items[..|items| - 1], n);
      assert items[..|items| - 1][..n] == items[..n];
    }
  }

  /** Trimming keeps the longest prefix that fits both limits: every longer one breaks a limit. */
  lemma {:induction false} TrimmedIsLongest(items: seq<Item>, entries: nat, bytes: nat)
    ensures var r := Trimmed(items, entries, bytes);
            && r == items[..|r|]
            && Fits(r, entries, bytes)
            && forall n :: |r| < n <= |items| ==> !Fits(items[..n], entries, bytes)
    decreases |items|
  {
    if Fits(items, entries, bytes) || items == [] {
      assert items[..|items|] == items;
    } else {
      var init := items[..|items| - 1];
      TrimmedIsLongest(init, entries, bytes);
      var r := Trimmed(items, entries, bytes);
      assert items[..|r|] == init[..|r|];
      forall n | |r| < n <= |items|
        ensures !Fits(items[..n], entries, bytes)
      {
        if n < |items| {
          assert items[..n] == init[..n];
        } else {
          assert items[..n] == items;
        }
      }
    }
  }

  // ---- Removal ----

  lemma {:induction false} BytesOfConcat(a: seq<Item>, b: seq<Item>)
    ensures TotalBytes(a + b) == TotalBytes(a) + TotalBytes(b)
    decreases |b|
  {
    if b == [] {
      assert a + b == a;
    } else {
      var init := b[..|b| - 1];
      BytesOfConcat(a, init);
      assert (a + b)[..|a + b| - 1] == a + init;
    }
  }

  lemma BytesWithout(items: seq<Item>, key: string)
    ensures var i := IndexOf(items, key);
            TotalBytes(items) == TotalBytes(Without(items, key)) + (if i < |items| then Cost(items[i]) else 0)
  {
    var i := IndexOf(items, key);
    if i < |items| {
      assert items == items[..i] + ([items[i]] + items[i + 1..]);
      BytesOfConcat(items[..i], [items[i]] + items[i + 1..]);
      BytesOfConcat([items[i]], items[i + 1..]);
      BytesOfConcat(items[..i], items[i + 1..]);
      assert TotalBytes([items[i]]) == TotalBytes([]) + Cost(items[i]);
    }
  }

  lemma WithoutHasNot(items: seq<Item>, key: string)
    requires DistinctKeys(items)
    ensures DistinctKeys(Without(items, key)) && !Has(Without(items, key), key)
  {
  }

  // ---- The invariant through every operation ----

  lemma ConsBytes(item: Item, items: seq<Item>)
    ensures TotalBytes([item] + items) == Cost(item) + TotalBytes(items)
  {
    BytesOfConcat([item], items);
    assert TotalBytes([item]) == TotalBytes([]) + Cost(item);
  }

  lemma ConsDistinct(item: Item, rest: seq<Item>, n: nat)
    requires DistinctKeys(rest) && !Has(rest, item.key) && n <= |rest|
    ensures DistinctKeys([item] + rest[..n])
  {
  }

  lemma GetValid(l: Lru, key: string, now: int)
    requires Valid(l)
    ensures Valid(Get(l, key, now).1)
  {
    hide TotalBytes;
    var i := IndexOf(l.items, key);
    if i < |l.items| {
      var rest := Without(l.items, key);
      WithoutHasNot(l.items, key);
      BytesWithout(l.items, key);
      ConsBytes(l.items[i], rest);
      ConsDistinct(l.items[i], rest, |rest|);
      assert rest[..|rest|] == rest;
    }
  }

  lemma SetValid(l: Lru, item: Item)
    requires Valid(l)
    ensures Valid(Set(l, item))
  {
    hide TotalBytes, Trimmed;
    var rest := Without(l.items, item.key);
    WithoutHasNot(l.items, item.key);
    BytesWithout(l.items, item.key);
    if Cost(item) <= l.maxBytes {
      var kept := Trimmed(rest, l.maxEntries - 1, l.maxBytes - Cost(item));
      TrimmedIsLongest(rest, l.maxEntries - 1, l.maxBytes - Cost(item));
      ConsBytes(item, kept);
      ConsDistinct(item, rest, |kept|);
    }
  }

  /**
    A Set leaves the new item first and behind it the longest prefix of the others, in recency order,
    that fits with it; an item too large for an empty store only removes what its key held.
   */
  lemma SetLeaves(l: Lru, item: Item)
    requires Valid(l)
    ensures Cost(item) > l.maxBytes ==> Set(l, item) == l.(items := Without(l.items, item.key))
    ensures Cost(item) <= l.maxBytes ==>
              var rest := Without(l.items, item.key);
              var items := Set(l, item).items;
              && items != [] && items[0] == item
              && items[1..] <= rest
              && (forall n :: |items| - 1 < n <= |rest| ==> !Fits([item] + rest[..n], l.maxEntries, l.maxBytes))
  {
    hide TotalBytes, Trimmed;
    if Cost(item) <= l.maxBytes {
      var rest := Without(l.items, item.key);
      var kept := Trimmed(rest, l.maxEntries - 1, l.maxBytes - Cost(item));
      TrimmedIsLongest(rest, l.maxEntries - 1, l.maxBytes - Cost(item));
      assert ([item] + kept)[1..] == kept;
      forall n | |kept| < n <= |rest|
        ensures !Fits([item] + rest[..n], l.maxEntries, l.maxBytes)
      {
        ConsBytes(item, rest[..n]);
        assert !Fits(rest[..n], l.maxEntries - 1, l.maxBytes - Cost(item));
      }
    }
  }

  lemma DeleteValid(l: Lru, key: string)
    requires Valid(l)
    ensures Valid(Delete(l, key)) && !Has(Delete(l, key).items, key)
  {
    WithoutHasNot(l.items, key);
    BytesWithout(l.items, key);
  }
}
