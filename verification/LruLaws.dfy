/**
  Capacity monotonicity of the store: with the byte limit out of play, a store with more room answers
  every hit a smaller one answers, with the same value, over every sequence of calls.
 */
module LruLaws {
  import opened Common
  import opened BigEndian
  import opened Lru

  datatype Op = GetOp(key: string, now: int) | SetOp(item: Item) | DeleteOp(key: string)

  function Apply(l: Lru, op: Op): (Option<Bytes>, Lru)
    requires l.maxEntries > 0 && l.maxBytes > 0
  {
    match op
    case GetOp(key, now) => Get(l, key, now)
    case SetOp(item) => (None, Set(l, item))
    case DeleteOp(key) => (None, Delete(l, key))
  }

  /** The answers of a sequence of calls. */
  function Answers(l: Lru, ops: seq<Op>): (r: seq<Option<Bytes>>)
    requires l.maxEntries > 0 && l.maxBytes > 0
    ensures |r| == |ops|
    decreases |ops|
  {
    if ops == [] then []
    else
      var (answer, l') := Apply(l, ops[0]);
      [answer] + Answers(l', ops[1..])
  }

  /** The store a sequence of calls leaves. */
  function Final(l: Lru, ops: seq<Op>): Lru
    requires l.maxEntries > 0 && l.maxBytes > 0
    decreases |ops|
  {
    if ops == [] then l else Final(Apply(l, ops[0]).1, ops[1..])
  }

  /** Every value set along the way fits beside all that is held then. */
  predicate BytesNeverBind(l: Lru, ops: seq<Op>)
    requires l.maxEntries > 0 && l.maxBytes > 0
    decreases |ops|
  {
    ops == [] ||
    (&& (ops[0].SetOp? ==> Cost(ops[0].item) + TotalBytes(Without(l.items, ops[0].item.key)) <= l.maxBytes)
     && BytesNeverBind(Apply(l, ops[0]).1, ops[1..]))
  }

  /** `a` is `b` with some items left out. */
  predicate Subsequence(a: seq<Item>, b: seq<Item>)
    decreases |b|
  {
    a == [] || (b != [] && ((a[0] == b[0] && Subsequence(a[1..], b[1..])) || Subsequence(a, b[1..])))
  }

  lemma SubsequenceCons(a: seq<Item>, b: seq<Item>, x: Item)
    requires Subsequence(a, b)
    ensures Subsequence([x] + a, [x] + b) && Subsequence(a, [x] + b)
  {
  }

  lemma WithoutCons(items: seq<Item>, key: string)
    requires items != []
    ensures Without(items, key) ==
            if items[0].key == key then items[1..] else [items[0]] + Without(items[1..], key)
  {
    IndexCons(items, key);
    hide IndexOf;
    var rest := items[1..];
    var j := IndexOf(rest, key);
    if items[0].key != key && j < |rest| {
      assert items[..j + 1] + items[j + 2..] == [items[0]] + (rest[..j] + rest[j + 1..]);
    }
  }

  lemma IndexCons(items: seq<Item>, key: string)
    requires items != []
    ensures IndexOf(items, key) == if items[0].key == key then 0 else 1 + IndexOf(items[1..], key)
  {
  }

  lemma {:induction false} SubsequenceHas(a: seq<Item>, b: seq<Item>, key: string)
    requires Subsequence(a, b) && DistinctKeys(b)
    ensures DistinctKeys(a)
    ensures Has(a, key) ==> Has(b, key) && a[IndexOf(a, key)] == b[IndexOf(b, key)]
    decreases |b|
  {
    if a == [] {
    } else {
      if a[0] == b[0] && Subsequence(a[1..], b[1..]) {
        SubsequenceMembers(a[1..], b[1..]);
        SubsequenceHas(a[1..], b[1..], key);
      } else {
        SubsequenceMembers(a, b[1..]);
        SubsequenceHas(a, b[1..], key);
      }
    }
  }

  lemma {:induction false} SubsequenceMembers(a: seq<Item>, b: seq<Item>)
    requires Subsequence(a, b)
    ensures |a| <= |b|
    ensures forall i :: 0 <= i < |a| ==> a[i] in b
    decreases |b|
  {
    if a == [] {
    } else {
      if a[0] == b[0] && Subsequence(a[1..], b[1..]) {
        SubsequenceMembers(a[1..], b[1..]);
      } else {
        SubsequenceMembers(a, b[1..]);
      }
    }
  }

  lemma WithoutAbsent(items: seq<Item>, key: string)
    requires !Has(items, key)
    ensures Without(items, key) == items
  {
  }

  lemma {:induction false} SubsequenceWithout(a: seq<Item>, b: seq<Item>, key: string)
    requires Subsequence(a, b) && DistinctKeys(b)
    ensures Subsequence(Without(a, key), Without(b, key))
    decreases |b|
  {
    hide Without, Has;
    if a == [] {
      WithoutAbsentFromNone(key);
    } else {
      WithoutCons(b, key);
      WithoutCons(a, key);
      if a[0] == b[0] && Subsequence(a[1..], b[1..]) {
        SubsequenceWithout(a[1..], b[1..], key);
        SubsequenceCons(Without(a[1..], key), Without(b[1..], key), a[0]);
      } else if b[0].key == key {
        HeadOccursOnce(b);
        SubsequenceHas(a, b[1..], key);
        WithoutAbsent(a, key);
      } else {
        SubsequenceWithout(a, b[1..], key);
        SubsequenceCons(Without(a, key), Without(b[1..], key), b[0]);
      }
    }
  }

  lemma WithoutAbsentFromNone(key: string)
    ensures Without([], key) == []
  {
  }

  lemma HeadOccursOnce(items: seq<Item>)
    requires items != [] && DistinctKeys(items)
    ensures !Has(items[1..], items[0].key)
  {
  }

  /** Dropping the last item of the longer list costs the shorter one at most that very item. */
  lemma {:induction false} SubsequenceDropLast(a: seq<Item>, b: seq<Item>)
    requires Subsequence(a, b) && b != [] && DistinctKeys(b)
    ensures a != [] && a[|a| - 1] == b[|b| - 1] ==> Subsequence(a[..|a| - 1], b[..|b| - 1])
    ensures a == [] || a[|a| - 1] != b[|b| - 1] ==> Subsequence(a, b[..|b| - 1])
    decreases |b|
  {
    SubsequenceMembers(a, b);
    if a == [] || |b| == 1 {
      assert a == [] || (|a| == 1 && a[0] in b && a[..|a| - 1] == []);
    } else {
      var rest := b[1..];
      assert b[..|b| - 1] == [b[0]] + rest[..|rest| - 1];
      if a[0] == b[0] && Subsequence(a[1..], rest) {
        var tail := a[1..];
        SubsequenceDropLast(tail, rest);
        assert a == [b[0]] + tail;
        assert b[0].key != b[|b| - 1].key;
        if |a| > 1 && a[|a| - 1] == b[|b| - 1] {
          assert a[..|a| - 1] == [b[0]] + tail[..|tail| - 1];
          SubsequenceCons(tail[..|tail| - 1], rest[..|rest| - 1], b[0]);
        } else {
          SubsequenceCons(tail, rest[..|rest| - 1], b[0]);
        }
      } else {
        SubsequenceDropLast(a, rest);
        if a[|a| - 1] == b[|b| - 1] {
          SubsequenceCons(a[..|a| - 1], rest[..|rest| - 1], b[0]);
        } else {
          SubsequenceCons(a, rest[..|rest| - 1], b[0]);
        }
      }
    }
  }

  /** What the smaller store's recency list and size are to the larger one's. */
  ghost predicate Mirrors(small: Lru, large: Lru) {
    && Valid(small) && Valid(large)
    && small.maxEntries <= large.maxEntries
    && Subsequence(small.items, large.items)
    && |large.items| - |small.items| <= large.maxEntries - small.maxEntries
  }

  /** Without the byte limit a Set evicts at most one item, and only from a full store. */
  lemma {:induction false} TrimmedByCount(items: seq<Item>, entries: nat, bytes: nat)
    requires TotalBytes(items) <= bytes && |items| <= entries + 1
    ensures Trimmed(items, entries, bytes) == if |items| <= entries then items else items[..|items| - 1]
  {
  }

  lemma WithoutLength(items: seq<Item>, key: string)
    ensures |Without(items, key)| == if Has(items, key) then |items| - 1 else |items|
  {
  }

  /** What a full store keeps of `rest` when one more item comes in. */
  function Kept(rest: seq<Item>, n: int): seq<Item>
    requires 0 < n
  {
    if |rest| <= n - 1 then rest else rest[..|rest| - 1]
  }

  lemma SetByCount(l: Lru, item: Item)
    requires Valid(l) && Cost(item) + TotalBytes(Without(l.items, item.key)) <= l.maxBytes
    ensures Set(l, item).items == [item] + Kept(Without(l.items, item.key), l.maxEntries)
    ensures Set(l, item).maxEntries == l.maxEntries
  {
    hide TotalBytes, Trimmed;
    WithoutLength(l.items, item.key);
    TrimmedByCount(Without(l.items, item.key), l.maxEntries - 1, l.maxBytes - Cost(item));
  }

  lemma SetMirrors(small: Lru, large: Lru, item: Item)
    requires Mirrors(small, large)
    requires Cost(item) + TotalBytes(Without(small.items, item.key)) <= small.maxBytes
    requires Cost(item) + TotalBytes(Without(large.items, item.key)) <= large.maxBytes
    ensures Mirrors(Set(small, item), Set(large, item))
  {
    hide TotalBytes, Trimmed, Without, Set;
    SetValid(small, item);
    SetValid(large, item);
    SetByCount(small, item);
    SetByCount(large, item);
    var a := Without(small.items, item.key);
    var b := Without(large.items, item.key);
    SubsequenceWithout(small.items, large.items, item.key);
    SubsequenceHas(small.items, large.items, item.key);
    WithoutLength(small.items, item.key);
    WithoutLength(large.items, item.key);
    WithoutHasNot(large.items, item.key);
    KeptMirrors(a, b, small.maxEntries, large.maxEntries);
    SubsequenceCons(Kept(a, small.maxEntries), Kept(b, large.maxEntries), item);
  }

  lemma KeptMirrors(a: seq<Item>, b: seq<Item>, n: int, m: int)
    requires Subsequence(a, b) && DistinctKeys(b) && 0 < n <= m && |a| <= n && |b| <= m && |b| - |a| <= m - n
    ensures Subsequence(Kept(a, n), Kept(b, m)) && |Kept(b, m)| - |Kept(a, n)| <= m - n
  {
    if |b| > m - 1 {
      SubsequenceDropLast(a, b);
      if a[|a| - 1] != b[|b| - 1] {
        DropLastOfShorter(a, b[..|b| - 1]);
      }
    } else if |a| > n - 1 {
      DropLastOfShorter(a, b);
    }
  }

  lemma {:induction false} DropLastOfShorter(a: seq<Item>, b: seq<Item>)
    requires Subsequence(a, b) && a != []
    ensures Subsequence(a[..|a| - 1], b)
    decreases |b|
  {
    if a[0] == b[0] && Subsequence(a[1..], b[1..]) {
      if |a| > 1 {
        DropLastOfShorter(a[1..], b[1..]);
        assert a[1..][..|a| - 2] == a[..|a| - 1][1..];
      }
    } else {
      DropLastOfShorter(a, b[1..]);
    }
  }

  lemma GetMirrors(small: Lru, large: Lru, key: string, now: int)
    requires Mirrors(small, large)
    ensures Mirrors(Get(small, key, now).1, Get(large, key, now).1)
    ensures Get(small, key, now).0.Some? ==> Get(large, key, now).0 == Get(small, key, now).0
  {
    GetValid(small, key, now);
    GetValid(large, key, now);
    var a := Without(small.items, key);
    var b := Without(large.items, key);
    SubsequenceWithout(small.items, large.items, key);
    SubsequenceHas(small.items, large.items, key);
    WithoutLength(small.items, key);
    WithoutLength(large.items, key);
    if Has(large.items, key) {
      SubsequenceCons(a, b, large.items[IndexOf(large.items, key)]);
    }
  }

  lemma DeleteMirrors(small: Lru, large: Lru, key: string)
    requires Mirrors(small, large)
    ensures Mirrors(Delete(small, key), Delete(large, key))
  {
    DeleteValid(small, key);
    DeleteValid(large, key);
    SubsequenceWithout(small.items, large.items, key);
    SubsequenceHas(small.items, large.items, key);
    WithoutLength(small.items, key);
    WithoutLength(large.items, key);
  }

  /**
    Every hit of the smaller store is a hit of the larger one, with the same value, at every call of
    every sequence, and the recency lists stay as they were to each other.
   */
  lemma {:induction false} LargerStoreHitsMore(small: Lru, large: Lru, ops: seq<Op>)
    requires Mirrors(small, large) && BytesNeverBind(small, ops) && BytesNeverBind(large, ops)
    ensures forall i :: 0 <= i < |ops| && Answers(small, ops)[i].Some? ==>
              Answers(large, ops)[i] == Answers(small, ops)[i]
    ensures Mirrors(Final(small, ops), Final(large, ops))
    decreases |ops|
  {
    if ops == [] {
    } else {
      match ops[0] {
        case GetOp(key, now) => GetMirrors(small, large, key, now);
        case SetOp(item) => SetMirrors(small, large, item);
        case DeleteOp(key) => DeleteMirrors(small, large, key);
      }
      LargerStoreHitsMore(Apply(small, ops[0]).1, Apply(large, ops[0]).1, ops[1..]);
    }
  }

  /**
    Two stores of one program, created with n <= m entries: whatever the smaller one still answers, the
    larger one does too, and its recency list holds the smaller one's in the same order.
   */
  lemma CapacityMonotonicity(n: int, m: int, bytes: int, ops: seq<Op>)
    requires 0 < n <= m && bytes > 0
    requires BytesNeverBind(Lru(n, bytes, false, [], []), ops) && BytesNeverBind(Lru(m, bytes, false, [], []), ops)
    ensures forall i :: 0 <= i < |ops| && Answers(Lru(n, bytes, false, [], []), ops)[i].Some? ==>
              Answers(Lru(m, bytes, false, [], []), ops)[i] == Answers(Lru(n, bytes, false, [], []), ops)[i]
    ensures Subsequence(Final(Lru(n, bytes, false, [], []), ops).items, Final(Lru(m, bytes, false, [], []), ops).items)
  {
    LargerStoreHitsMore(Lru(n, bytes, false, [], []), Lru(m, bytes, false, [], []), ops);
  }
}
