/** Big-endian integers, as Go's binary.BigEndian writes and reads them. */
module BigEndian {
  import opened Common

  newtype byte = x: int | 0 <= x < 256

  type Bytes = seq<byte>

  /** 256 to the power `n`. */
  function Radix(n: nat): (r: nat)
    ensures r >= 1
  {
    if n == 0 then 1 else 256 * Radix(n - 1)
  }

  /** The last `n` bytes of `v`, most significant first. */
  function Put(v: nat, n: nat): (b: Bytes)
    ensures |b| == n
  {
    if n == 0 then [] else Put(v / 256, n - 1) + [(v % 256) as byte]
  }

  function Value(b: Bytes): nat {
    if b == [] then 0 else 256 * Value(b[..|b| - 1]) + b[|b| - 1] as nat
  }

  lemma {:induction false} ValueBound(b: Bytes)
    ensures Value(b) < Radix(|b|)
  {
    if b == [] {
    } else {
      ValueBound(b[..|b| - 1]);
    }
  }

  lemma {:induction false} ValueOfPut(v: nat, n: nat)
    requires v < Radix(n)
    ensures Value(Put(v, n)) == v
  {
    if n == 0 {
    } else {
      assert v / 256 < Radix(n - 1);
      ValueOfPut(v / 256, n - 1);
      assert Put(v, n)[..n - 1] == Put(v / 256, n - 1);
    }
  }

  lemma {:induction false} PutOfValue(b: Bytes)
    ensures Put(Value(b), |b|) == b
  {
    if b == [] {
    } else {
      var init := b[..|b| - 1];
      PutOfValue(init);
      assert Value(b) / 256 == Value(init) && Value(b) % 256 == b[|b| - 1] as nat;
      assert b == init + [b[|b| - 1]];
    }
  }

  lemma RadixOfEight()
    ensures Radix(8) == TWO_TO_64
  {
  }

  function PutUint64(v: nat): (b: Bytes)
    ensures |b| == 8
  {
    Put(v, 8)
  }

  function Uint64(b: Bytes): (v: nat)
    requires |b| == 8
    ensures v < TWO_TO_64
  {
    ValueBound(b);
    RadixOfEight();
    Value(b)
  }

  lemma Uint64OfPut(v: nat)
    requires v < TWO_TO_64
    ensures Uint64(PutUint64(v)) == v
  {
    RadixOfEight();
    ValueOfPut(v, 8);
  }

  lemma PutOfUint64(b: Bytes)
    requires |b| == 8
    ensures PutUint64(Uint64(b)) == b
  {
    PutOfValue(b);
  }

  lemma ValueSnoc(b: Bytes, n: nat)
    requires n < |b|
    ensures Value(b[..n + 1]) == 256 * Value(b[..n]) + b[n] as nat
  {
    assert b[..n + 1][..n] == b[..n];
  }

  /** The eight bytes of a 64-bit integer, weighed: the first is the most significant. */
  lemma Weights(b: Bytes)
    requires |b| == 8
    ensures Uint64(b) ==
            0x100_0000_0000_0000 * b[0] as nat + 0x1_0000_0000_0000 * b[1] as nat + 0x100_0000_0000 * b[2] as nat
            + 0x1_0000_0000 * b[3] as nat + 0x100_0000 * b[4] as nat + 0x1_0000 * b[5] as nat + 0x100 * b[6] as nat
            + b[7] as nat
  {
    assert Value(b[..0]) == 0 && b[..8] == b;
    ValueSnoc(b, 0);
    ValueSnoc(b, 1);
    ValueSnoc(b, 2);
    ValueSnoc(b, 3);
    ValueSnoc(b, 4);
    ValueSnoc(b, 5);
    ValueSnoc(b, 6);
    ValueSnoc(b, 7);
  }
}
