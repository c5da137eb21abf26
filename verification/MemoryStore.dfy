/**
  The in-memory store as the program keeps it (memory/memory.go): a circular doubly linked list
  through a sentinel, a map from keys to list nodes, two running totals and a queue of eviction
  reports. Every method is proved against the functions of Lru.dfy and MemoryTags.dfy.
 */
module MemoryStore {
  import opened Common
  import opened BigEndian
  import A = Authority
  import L = Lru
  import T = MemoryTags

  class Entry {
    const key: string
    const value: Bytes
    const expires: int
    var prev: Entry?
    var next: Entry?

    constructor (key: string, value: Bytes, expires: int)
      ensures this.key == key && this.value == value && this.expires == expires
    {
      this.key, this.value, this.expires := key, value, expires;
      prev, next := null, null;
    }

    function Size(): nat {
      |key| + |value|
    }

    function AsItem(): L.Item {
      L.Item(key, value, expires)
    }
  }

  ghost function ItemsOf(nodes: seq<Entry>): (items: seq<L.Item>)
    ensures |items| == |nodes| && forall i :: 0 <= i < |nodes| ==> items[i] == nodes[i].AsItem()
  {
    seq(|nodes|, i requires 0 <= i < |nodes| => nodes[i].AsItem())
  }

  ghost predicate Distinct(nodes: seq<Entry>) {
    forall i, j :: 0 <= i < j < |nodes| ==> nodes[i] != nodes[j]
  }

  /** The map holds exactly the nodes of the list, each under its key. */
  ghost predicate Indexes(items: map<string, Entry>, nodes: seq<Entry>) {
    && (forall k :: k in items ==> items[k] in nodes && items[k].key == k)
    && (forall i :: 0 <= i < |nodes| ==> nodes[i].key in items && items[nodes[i].key] == nodes[i])
  }

  function Spliced<T>(s: seq<T>, i: nat): seq<T>
    requires i < |s|
  {
    s[..i] + s[i + 1..]
  }

  /** Where the neighbours of a node are once node `i` has left the list. */
  lemma SplicedAt(nodes: seq<Entry>, i: nat)
    requires i < |nodes| && Distinct(nodes)
    ensures var rest := Spliced(nodes, i);
            && |rest| == |nodes| - 1 && Distinct(rest)
            && forall j :: 0 <= j < |rest| ==> rest[j] == nodes[if j < i then j else j + 1]
  {
  }

  lemma IndexAt(items: map<string, Entry>, nodes: seq<Entry>, i: nat)
    requires Distinct(nodes) && Indexes(items, nodes) && i < |nodes|
    ensures L.IndexOf(ItemsOf(nodes), nodes[i].key) == i
    ensures L.Without(ItemsOf(nodes), nodes[i].key) == ItemsOf(Spliced(nodes, i))
  {
    hide L.IndexOf, ItemsOf;
    SplicedAt(nodes, i);
    var all := ItemsOf(nodes);
    assert all[i].key == nodes[i].key;
    var j := L.IndexOf(all, nodes[i].key);
    assert items[nodes[j].key] == nodes[j] && items[nodes[i].key] == nodes[i];
  }

  lemma IndexNowhere(items: map<string, Entry>, nodes: seq<Entry>, key: string)
    requires Indexes(items, nodes) && key !in items
    ensures L.IndexOf(ItemsOf(nodes), key) == |nodes|
  {
    forall i | 0 <= i < |nodes|
      ensures ItemsOf(nodes)[i].key != key
    {
    }
  }

  lemma IndexWithout(items: map<string, Entry>, nodes: seq<Entry>, i: nat)
    requires Distinct(nodes) && Indexes(items, nodes) && i < |nodes|
    ensures Indexes(items - {nodes[i].key}, Spliced(nodes, i)) && Distinct(Spliced(nodes, i))
    ensures nodes[i] !in Spliced(nodes, i)
  {
    var rest := Spliced(nodes, i);
    var left := items - {nodes[i].key};
    forall k | k in left
      ensures left[k] in rest && left[k].key == k
    {
      var j :| 0 <= j < |nodes| && nodes[j] == items[k];
      assert rest[if j < i then j else j - 1] == nodes[j];
    }
    forall j | 0 <= j < |rest|
      ensures rest[j].key in left && left[rest[j].key] == rest[j] && rest[j] != nodes[i]
    {
      assert rest[j] == nodes[if j < i then j else j + 1];
    }
  }

  /** What the map, the items and the byte sum become when node `i` goes. */
  lemma RemovedFacts(items: map<string, Entry>, nodes: seq<Entry>, i: nat)
    requires Distinct(nodes) && Indexes(items, nodes) && i < |nodes|
    ensures Indexes(items - {nodes[i].key}, Spliced(nodes, i))
    ensures ItemsOf(Spliced(nodes, i)) == L.Without(ItemsOf(nodes), nodes[i].key)
    ensures L.TotalBytes(ItemsOf(Spliced(nodes, i))) == L.TotalBytes(ItemsOf(nodes)) - nodes[i].Size()
  {
    IndexAt(items, nodes, i);
    IndexWithout(items, nodes, i);
    L.BytesWithout(ItemsOf(nodes), nodes[i].key);
  }

  /** Where each node is once node `i` has moved to the front. */
  lemma MovedAt(nodes: seq<Entry>, i: nat)
    requires i < |nodes|
    ensures var moved := [nodes[i]] + Spliced(nodes, i);
            && |moved| == |nodes|
            && (forall j :: 0 <= j < |moved| ==> moved[j] == nodes[if j == 0 then i else if j <= i then j - 1 else j])
            && (forall j :: 0 <= j < |nodes| ==> nodes[j] in moved)
  {
    var moved := [nodes[i]] + Spliced(nodes, i);
    forall j | 0 <= j < |nodes|
      ensures nodes[j] in moved
    {
      assert moved[if j == i then 0 else if j < i then j + 1 else j] == nodes[j];
    }
  }

  lemma TouchedIndex(items: map<string, Entry>, nodes: seq<Entry>, i: nat)
    requires Distinct(nodes) && Indexes(items, nodes) && i < |nodes|
    ensures Indexes(items, [nodes[i]] + Spliced(nodes, i))
  {
    hide Spliced, Distinct;
    MovedAt(nodes, i);
  }

  /** The same for a node that goes back to the front. */
  lemma TouchedFacts(items: map<string, Entry>, nodes: seq<Entry>, i: nat)
    requires Distinct(nodes) && Indexes(items, nodes) && i < |nodes|
    ensures var moved := [nodes[i]] + Spliced(nodes, i);
            && Indexes(items, moved) && nodes[i] !in Spliced(nodes, i)
            && ItemsOf(moved) == [nodes[i].AsItem()] + L.Without(ItemsOf(nodes), nodes[i].key)
            && L.TotalBytes(ItemsOf(moved)) == L.TotalBytes(ItemsOf(nodes))
            && |moved| == |nodes|
  {
    hide L.TotalBytes, L.IndexOf, L.Without, Indexes, Distinct;
    var rest := Spliced(nodes, i);
    RemovedFacts(items, nodes, i);
    IndexWithout(items, nodes, i);
    TouchedIndex(items, nodes, i);
    assert ItemsOf([nodes[i]] + rest) == [nodes[i].AsItem()] + ItemsOf(rest);
    L.ConsBytes(nodes[i].AsItem(), ItemsOf(rest));
  }

  lemma InsertedFacts(items: map<string, Entry>, nodes: seq<Entry>, e: Entry)
    requires Indexes(items, nodes) && e.key !in items
    ensures Indexes(items[e.key := e], [e] + nodes)
    ensures ItemsOf([e] + nodes) == [e.AsItem()] + ItemsOf(nodes)
    ensures L.TotalBytes(ItemsOf([e] + nodes)) == L.TotalBytes(ItemsOf(nodes)) + e.Size()
  {
    L.ConsBytes(e.AsItem(), ItemsOf(nodes));
  }

  /** Where the map's node for `key` stands in the list. */
  lemma Position(items: map<string, Entry>, nodes: seq<Entry>, key: string) returns (i: nat)
    requires Distinct(nodes) && Indexes(items, nodes) && key in items
    ensures i < |nodes| && nodes[i] == items[key] && nodes[i].key == key
    ensures L.IndexOf(ItemsOf(nodes), key) == i && ItemsOf(nodes)[i] == nodes[i].AsItem()
  {
    i :| 0 <= i < |nodes| && nodes[i] == items[key];
    IndexAt(items, nodes, i);
  }

  ghost predicate Among(a: seq<Entry>, b: seq<Entry>) {
    forall i :: 0 <= i < |a| ==> a[i] in b
  }

  lemma AmongTransitive(a: seq<Entry>, b: seq<Entry>, c: seq<Entry>)
    requires Among(a, b) && Among(b, c)
    ensures Among(a, c)
  {
  }

  /** Evicting the last node changes nothing about which prefix will remain. */
  lemma RoomStep(nodes: seq<Entry>, entries: nat, bytes: nat)
    requires |nodes| > entries || L.TotalBytes(ItemsOf(nodes)) > bytes
    ensures nodes != [] && Spliced(nodes, |nodes| - 1) == nodes[..|nodes| - 1]
    ensures L.Trimmed(ItemsOf(nodes), entries, bytes) == L.Trimmed(ItemsOf(Spliced(nodes, |nodes| - 1)), entries, bytes)
  {
    assert nodes == [] ==> L.TotalBytes(ItemsOf(nodes)) == 0;
    assert ItemsOf(nodes)[..|nodes| - 1] == ItemsOf(nodes[..|nodes| - 1]);
  }

  lemma RoomDone(nodes: seq<Entry>, entries: nat, bytes: nat)
    requires |nodes| <= entries && L.TotalBytes(ItemsOf(nodes)) <= bytes
    ensures L.Trimmed(ItemsOf(nodes), entries, bytes) == ItemsOf(nodes)
  {
  }

  class Store {
    const maxEntries: int
    const maxBytes: int
    const reporting: bool
    const head: Entry
    var size: int
    var count: int
    var items: map<string, Entry>
    var evicted: seq<L.Reason>
    /** The list from most to least recently used, without the sentinel. */
    ghost var nodes: seq<Entry>

    // ---- The representation ----

    /** The node at position `i` of the circle, where the sentinel stands before the first and after the last. */
    ghost function At(ns: seq<Entry>, i: int): Entry {
      if 0 <= i < |ns| then ns[i] else head
    }

    ghost predicate Linked()
      reads this`nodes, head`prev, head`next, nodes`prev, nodes`next
    {
      && head !in nodes
      && Distinct(nodes)
      && (forall i {:trigger nodes[i].next} :: 0 <= i < |nodes| ==> nodes[i].next == At(nodes, i + 1))
      && (forall i {:trigger nodes[i].prev} :: 0 <= i < |nodes| ==> nodes[i].prev == At(nodes, i - 1))
      && head.next == At(nodes, 0)
      && head.prev == At(nodes, |nodes| - 1)
    }

    ghost predicate Totalled()
      reads this`nodes, this`count, this`size
    {
      count == |nodes| && size == L.TotalBytes(ItemsOf(nodes))
    }

    /** What every lock section may rely on between its steps: everything but the limits. */
    ghost predicate Consistent()
      reads this, head, nodes
    {
      maxEntries > 0 && maxBytes > 0 && Linked() && Indexes(items, nodes) && Totalled()
    }

    ghost function View(): L.Lru
      reads this
    {
      L.Lru(maxEntries, maxBytes, reporting, ItemsOf(nodes), evicted)
    }

    ghost predicate Valid()
      reads this, head, nodes
    {
      Consistent() && L.Valid(View())
    }

    constructor (maxEntries: int, maxBytes: int, reporting: bool)
      requires maxEntries > 0 && maxBytes > 0
      ensures Valid() && View() == L.Lru(maxEntries, maxBytes, reporting, [], [])
      ensures fresh(head) && nodes == []
    {
      this.maxEntries, this.maxBytes, this.reporting := maxEntries, maxBytes, reporting;
      head := new Entry("", [], 0);
      size, count, items, evicted, nodes := 0, 0, map[], [], [];
      new;
      head.next, head.prev := head, head;
    }

    // ---- Pointer surgery ----

    /** The links of all nodes but `was[i]`, and of the sentinel, lead around that node. */
    ghost predicate Skipping(was: seq<Entry>, i: nat)
      requires i < |was|
      reads head`prev, head`next, was`prev, was`next
    {
      && (forall j {:trigger was[j].next} :: 0 <= j < |was| && j != i ==>
            was[j].next == At(was, if j + 1 == i then i + 1 else j + 1))
      && (forall j {:trigger was[j].prev} :: 0 <= j < |was| && j != i ==>
            was[j].prev == At(was, if j - 1 == i then i - 1 else j - 1))
      && head.next == At(was, if i == 0 then 1 else 0)
      && head.prev == At(was, if i == |was| - 1 then i - 1 else |was| - 1)
    }

    lemma AtSpliced(was: seq<Entry>, i: nat, m: int)
      requires i < |was| && Distinct(was) && -1 <= m < |was|
      ensures At(Spliced(was, i), m) == At(was, if m < i then m else m + 1)
    {
      SplicedAt(was, i);
    }

    /** Once node `i` has left the list, the links that lead around it are the list's own. */
    lemma SkippingLinksAt(was: seq<Entry>, i: nat, j: nat)
      requires i < |was| && Distinct(was) && head !in was && Skipping(was, i) && nodes == Spliced(was, i) && j < |nodes|
      ensures nodes[j].next == At(nodes, j + 1) && nodes[j].prev == At(nodes, j - 1)
    {
      SplicedAt(was, i);
      AtSpliced(was, i, j + 1);
      AtSpliced(was, i, j - 1);
      hide Distinct, Spliced, At;
      var k := if j < i then j else j + 1;
      assert nodes[j] == was[k];
      assert was[k].next == At(was, if k + 1 == i then i + 1 else k + 1);
      assert was[k].prev == At(was, if k - 1 == i then i - 1 else k - 1);
    }

    lemma SplicedApart(was: seq<Entry>, i: nat)
      requires i < |was| && Distinct(was) && head !in was
      ensures |Spliced(was, i)| == |was| - 1 && Distinct(Spliced(was, i)) && head !in Spliced(was, i)
    {
      SplicedAt(was, i);
    }

    lemma SkippingLinks(was: seq<Entry>, i: nat)
      requires i < |was| && Distinct(was) && head !in was && Skipping(was, i) && nodes == Spliced(was, i)
      ensures Linked()
    {
      SplicedApart(was, i);
      AtSpliced(was, i, 0);
      AtSpliced(was, i, |nodes| - 1);
      SkippingEnds(was, i);
      hide Distinct, Spliced, Skipping, At;
      forall j | 0 <= j < |nodes|
        ensures nodes[j].next == At(nodes, j + 1) && nodes[j].prev == At(nodes, j - 1)
      {
        SkippingLinksAt(was, i, j);
      }
    }

    lemma SkippingEnds(was: seq<Entry>, i: nat)
      requires i < |was| && Skipping(was, i)
      ensures head.next == At(was, if 0 < i then 0 else 1)
      ensures head.prev == At(was, if |was| - 2 < i then |was| - 2 else |was| - 1)
    {
    }

    /** The neighbours of a node are joined to each other, and the node to nothing. */
    method Bypass(e: Entry, ghost i: nat)
      requires Linked() && i < |nodes| && nodes[i] == e
      modifies head`prev, head`next, nodes`prev, nodes`next
      ensures Skipping(nodes, i)
    {
      assert e.prev == At(nodes, i - 1) && e.next == At(nodes, i + 1);
      e.prev.next, e.next.prev := e.next, e.prev;
      e.prev, e.next := null, null;
    }

    method Unlink(e: Entry, ghost i: nat)
      requires Linked() && i < |nodes| && nodes[i] == e
      modifies this`nodes, head, nodes
      ensures Linked() && nodes == old(Spliced(nodes, i))
      ensures unchanged(this`items, this`count, this`size, this`evicted)
    {
      ghost var was := nodes;
      Bypass(e, i);
      nodes := Spliced(was, i);
      SkippingLinks(was, i);
    }

    method PushFront(e: Entry)
      requires Linked() && e != head && e !in nodes
      modifies this`nodes, e, head, nodes
      ensures Linked() && nodes == [e] + old(nodes)
      ensures unchanged(this`items, this`count, this`size, this`evicted)
    {
      e.prev, e.next := head, head.next;
      head.next.prev := e;
      head.next := e;
      nodes := [e] + nodes;
    }

    // ---- The map and the totals ----

    /** Puts a new node at the front, in the map and in the totals. */
    method Insert(e: Entry)
      requires Consistent() && e != head && e !in nodes && e.key !in items
      modifies this`nodes, this`items, this`count, this`size, e, head, nodes
      ensures Consistent() && nodes == [e] + old(nodes)
      ensures ItemsOf(nodes) == [e.AsItem()] + ItemsOf(old(nodes))
    {
      hide L.TotalBytes, ItemsOf, Indexes, Distinct, At;
      InsertedFacts(items, nodes, e);
      items := items[e.key := e];
      PushFront(e);
      count := count + 1;
      size := size + e.Size();
    }

    /** The map and the totals catch up with the list after `was[i]` has left it. */
    method Forget(e: Entry, ghost was: seq<Entry>, ghost i: nat)
      requires i < |was| && was[i] == e && nodes == Spliced(was, i)
      requires Distinct(was) && Indexes(items, was) && count == |was| && size == L.TotalBytes(ItemsOf(was))
      modifies this`items, this`count, this`size
      ensures Indexes(items, nodes) && Totalled() && items == old(items) - {e.key}
      ensures ItemsOf(nodes) == L.Without(ItemsOf(was), e.key)
    {
      hide Distinct, L.TotalBytes, L.Without, L.IndexOf, ItemsOf;
      RemovedFacts(items, was, i);
      items := items - {e.key};
      count := count - 1;
      size := size - e.Size();
    }

    method Remove(e: Entry, ghost i: nat)
      requires Consistent() && i < |nodes| && nodes[i] == e
      modifies this`nodes, this`items, this`count, this`size, head, nodes
      ensures Consistent() && nodes == old(Spliced(nodes, i)) && items == old(items) - {e.key}
      ensures Among(nodes, old(nodes))
      ensures View() == L.Delete(old(View()), e.key)
    {
      hide L.TotalBytes, L.Without, L.IndexOf, ItemsOf, Indexes;
      ghost var was := nodes;
      Unlink(e, i);
      Forget(e, was, i);
    }

    method Evict(e: Entry, reason: L.Reason, ghost i: nat)
      requires Consistent() && i < |nodes| && nodes[i] == e
      modifies this, head, nodes
      ensures Consistent() && nodes == old(Spliced(nodes, i)) && items == old(items) - {e.key}
      ensures Among(nodes, old(nodes))
      ensures View() == L.Delete(old(View()), e.key).(evicted := L.Reports(old(View()), reason, 1))
    {
      hide Linked, Indexes, L.TotalBytes, L.Without, ItemsOf, Spliced;
      Remove(e, i);
      if reporting {
        evicted := evicted + [reason];
      }
    }

    /** Makes room for the node at position `i` at the front of the list. */
    method Touch(e: Entry, ghost i: nat)
      requires Consistent() && i < |nodes| && nodes[i] == e
      modifies this`nodes, head, nodes
      ensures Consistent() && nodes == [e] + old(Spliced(nodes, i))
      ensures unchanged(this`items, this`count, this`size, this`evicted)
      ensures ItemsOf(nodes) == [e.AsItem()] + L.Without(ItemsOf(old(nodes)), e.key) && Among(nodes, old(nodes))
    {
      hide L.TotalBytes, L.Without, L.IndexOf, ItemsOf;
      ghost var was := nodes;
      TouchedFacts(items, nodes, i);
      Unlink(e, i);
      PushFront(e);
    }

    // ---- The lock sections ----

    /** What positions are looked up by. */
    lemma Known()
      requires Consistent()
      ensures Distinct(nodes) && Indexes(items, nodes)
    {
    }

    method GetLocked(key: string, now: int) returns (r: Option<Bytes>)
      requires Consistent()
      modifies this, head, nodes
      ensures Consistent() && Among(nodes, old(nodes))
      ensures (r, View()) == L.Get(old(View()), key, now)
    {
      Known();
      assert Among(nodes, nodes);
      hide Among, Consistent, L.TotalBytes, L.Without, L.IndexOf, ItemsOf, Distinct, Indexes, Spliced;
      if key !in items {
        IndexNowhere(items, nodes, key);
        return None;
      }
      var e := items[key];
      ghost var i := Position(items, nodes, key);
      if !(now < e.expires) {
        Evict(e, L.Expired, i);
        return None;
      }
      Touch(e, i);
      r := Some(e.value);
    }

    /** Drops what `key` holds, if anything. */
    method RemoveKey(key: string)
      requires Consistent()
      modifies this`nodes, this`items, this`count, this`size, head, nodes
      ensures Consistent() && key !in items && Among(nodes, old(nodes))
      ensures View() == L.Delete(old(View()), key)
    {
      if key in items {
        var e := items[key];
        ghost var i := Position(items, nodes, key);
        Remove(e, i);
      } else {
        IndexNowhere(items, nodes, key);
      }
    }

    method EvictLast()
      requires Consistent() && nodes != []
      modifies this, head, nodes
      ensures Consistent() && nodes == old(Spliced(nodes, |nodes| - 1)) && items.Keys <= old(items.Keys)
      ensures Among(nodes, old(nodes))
      ensures evicted == L.Reports(old(View()), L.Capacity, 1)
    {
      assert head.prev == nodes[|nodes| - 1];
      hide L.TotalBytes, L.IndexOf, L.Without, ItemsOf, Linked;
      Evict(head.prev, L.Capacity, |nodes| - 1);
    }

    /**
      The eviction loop: it ends, evicts only list nodes, never the sentinel, and stops at the
      longest prefix that leaves room.
     */
    method MakeRoom(cost: nat)
      requires Consistent() && cost <= maxBytes
      modifies this, head, nodes
      ensures Consistent() && Among(nodes, old(nodes)) && items.Keys <= old(items.Keys)
      ensures count < maxEntries && size + cost <= maxBytes
      ensures ItemsOf(nodes) == L.Trimmed(ItemsOf(old(nodes)), maxEntries - 1, maxBytes - cost)
      ensures evicted == L.Reports(old(View()), L.Capacity, |old(nodes)| - |nodes|)
    {
      hide L.TotalBytes, L.Trimmed, L.IndexOf, L.Without, ItemsOf, Linked, Indexes;
      while count >= maxEntries || size + cost > maxBytes
        invariant Consistent() && Among(nodes, old(nodes)) && items.Keys <= old(items.Keys)
        invariant |nodes| <= |old(nodes)|
        invariant L.Trimmed(ItemsOf(nodes), maxEntries - 1, maxBytes - cost) ==
                  L.Trimmed(ItemsOf(old(nodes)), maxEntries - 1, maxBytes - cost)
        invariant evicted == L.Reports(old(View()), L.Capacity, |old(nodes)| - |nodes|)
        decreases |nodes|
      {
        ghost var before := nodes;
        RoomStep(nodes, maxEntries - 1, maxBytes - cost);
        EvictLast();
        AmongTransitive(nodes, before, old(nodes));
      }
      RoomDone(nodes, maxEntries - 1, maxBytes - cost);
    }

    method SetLocked(e: Entry)
      requires Consistent() && e != head && e !in nodes
      modifies this, e, head, nodes
      ensures Consistent() && Among(nodes, [e] + old(nodes))
      ensures View() == L.Set(old(View()), e.AsItem())
    {
      hide L.TotalBytes, L.Trimmed, L.IndexOf, L.Without, ItemsOf, Linked, Indexes;
      ghost var was := nodes;
      RemoveKey(e.key);
      if e.Size() > maxBytes {
        return;
      }
      ghost var rest := nodes;
      MakeRoom(e.Size());
      AmongTransitive(nodes, rest, was);
      Insert(e);
    }

    method CounterLocked(gk: string, ttl: int, now: int, draw: Option<nat>) returns (r: Option<nat>)
      requires Consistent()
      modifies this, head, nodes
      ensures Consistent() && (forall i :: 0 <= i < |nodes| ==> nodes[i] in old(nodes) || fresh(nodes[i]))
      ensures (r, View()) == T.Counter(old(View()), gk, ttl, now, draw)
    {
      hide L.Get, L.Set, L.TotalBytes, Linked, Indexes, ItemsOf;
      var v := GetLocked(gk, now);
      if v.Some? && |v.value| == 8 {
        return Some(Uint64(v.value));
      }
      if draw.None? {
        return None;
      }
      var g := A.NewGeneration(draw.value);
      var e := new Entry(gk, PutUint64(g), now + ttl);
      SetLocked(e);
      r := Some(g);
    }

    /** One round of Bump's loop. */
    method AdvanceLocked(gk: string, ttl: int, now: int, draw: Option<nat>) returns (ok: bool)
      requires Consistent()
      modifies this, head, nodes
      ensures Consistent() && (forall i :: 0 <= i < |nodes| ==> nodes[i] in old(nodes) || fresh(nodes[i]))
      ensures (ok, View()) == T.Advance(old(View()), gk, ttl, now, draw)
    {
      hide L.Get, L.Set, L.TotalBytes, Linked, Indexes, ItemsOf, T.Counter;
      var g := CounterLocked(gk, ttl, now, draw);
      if g.None? {
        return false;
      }
      var e := new Entry(gk, PutUint64((g.value + 1) % TWO_TO_64), now + ttl);
      SetLocked(e);
      ok := true;
    }

    // ---- The interface ----

    method Get(key: string, now: int) returns (r: Option<Bytes>)
      requires Valid()
      modifies this, head, nodes
      ensures Valid() && Among(nodes, old(nodes))
      ensures (r, View()) == L.Get(old(View()), key, now)
    {
      L.GetValid(View(), key, now);
      r := GetLocked(key, now);
    }

    method Set(key: string, value: Bytes, ttl: int, now: int) returns (r: Option<T.Failure>)
      requires Valid()
      modifies this, head, nodes
      ensures Valid() && (forall i :: 0 <= i < |nodes| ==> nodes[i] in old(nodes) || fresh(nodes[i]))
      ensures ttl <= 0 ==> r == Some(T.BadTtl) && View() == old(View())
      ensures ttl > 0 ==> r == None && View() == L.Set(old(View()), L.Item(key, value, now + ttl))
    {
      hide L.Set, L.TotalBytes, Linked, Indexes, ItemsOf;
      if ttl <= 0 {
        return Some(T.BadTtl);
      }
      var e := new Entry(key, value, now + ttl);
      L.SetValid(View(), e.AsItem());
      SetLocked(e);
      r := None;
    }

    method Delete(key: string)
      requires Valid()
      modifies this, head, nodes
      ensures Valid() && Among(nodes, old(nodes))
      ensures View() == L.Delete(old(View()), key)
    {
      L.DeleteValid(View(), key);
      RemoveKey(key);
    }

    method GetTagged(key: string, genKeys: seq<string>, genTTL: int, now: int, draws: seq<Option<nat>>)
      returns (r: Result<T.Tagged, T.Failure>)
      requires Valid() && |draws| == |genKeys|
      modifies this, head, nodes
      ensures Valid() && (forall i :: 0 <= i < |nodes| ==> nodes[i] in old(nodes) || fresh(nodes[i]))
      ensures (r, View()) == T.GetTagged(old(View()), key, genKeys, genTTL, now, draws)
    {
      hide L.Get, L.Set, L.TotalBytes, Linked, Indexes, ItemsOf, T.Counter;
      if genTTL <= 0 {
        return Err(T.BadTtl);
      }
      L.GetValid(View(), key, now);
      T.CountersValid(L.Get(View(), key, now).1, genKeys, genTTL, now, draws);
      var value := GetLocked(key, now);
      ghost var l1 := View();
      var gens: seq<nat> := [];
      for i := 0 to |genKeys|
        invariant Consistent() && (forall i :: 0 <= i < |nodes| ==> nodes[i] in old(nodes) || fresh(nodes[i]))
        invariant (Some(gens), View()) == T.Counters(l1, genKeys[..i], genTTL, now, draws[..i])
      {
        assert genKeys[..i + 1][..i] == genKeys[..i] && draws[..i + 1][..i] == draws[..i];
        var g := CounterLocked(genKeys[i], genTTL, now, draws[i]);
        if g.None? {
          T.FailureStops(l1, genKeys, genTTL, now, draws, i + 1);
          return Err(T.NoRandomness);
        }
        gens := gens + [g.value];
      }
      assert genKeys[..|genKeys|] == genKeys && draws[..|draws|] == draws;
      r := Ok(T.Tagged(value, gens));
    }

    method Bump(genKeys: seq<string>, genTTL: int, now: int, draws: seq<Option<nat>>) returns (r: Option<T.Failure>)
      requires Valid() && |draws| == |genKeys|
      modifies this, head, nodes
      ensures Valid() && (forall i :: 0 <= i < |nodes| ==> nodes[i] in old(nodes) || fresh(nodes[i]))
      ensures (r, View()) == T.Bump(old(View()), genKeys, genTTL, now, draws)
    {
      hide L.Get, L.Set, L.TotalBytes, Linked, Indexes, ItemsOf, T.Counter;
      if genTTL <= 0 {
        return Some(T.BadTtl);
      }
      ghost var l := View();
      T.AdvancesValid(l, genKeys, genTTL, now, draws);
      for i := 0 to |genKeys|
        invariant Consistent() && (forall i :: 0 <= i < |nodes| ==> nodes[i] in old(nodes) || fresh(nodes[i]))
        invariant (true, View()) == T.Advances(l, genKeys[..i], genTTL, now, draws[..i])
      {
        assert genKeys[..i + 1][..i] == genKeys[..i] && draws[..i + 1][..i] == draws[..i];
        var ok := AdvanceLocked(genKeys[i], genTTL, now, draws[i]);
        if !ok {
          T.AdvanceStops(l, genKeys, genTTL, now, draws, i + 1);
          return Some(T.NoRandomness);
        }
      }
      assert genKeys[..|genKeys|] == genKeys && draws[..|draws|] == draws;
      r := None;
    }

    /** Takes the queued reports, to be delivered outside the lock. */
    method TakeReports() returns (pending: seq<L.Reason>)
      requires Valid()
      modifies this`evicted
      ensures Valid()
      ensures pending == (if reporting then old(evicted) else [])
      ensures View() == old(View()).(evicted := if reporting then [] else old(evicted))
    {
      hide L.TotalBytes, ItemsOf, Linked, Indexes;
      if !reporting {
        return [];
      }
      pending := evicted;
      evicted := [];
    }
  }
}
