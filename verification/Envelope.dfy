/** The storage format of every entry (internal/envelope/envelope.go). */
module Envelope {
  import opened Common
  import opened BigEndian

  const VERSION: byte := 2
  const MAX_TAGS: nat := 8
  const HEADER_LEN: nat := 11
  const MAX_CODEC_ID: nat := 32
  const EXPIRY_OFFSET: nat := 2
  const CODEC_OFFSET: nat := 10

  const TWO_TO_63: int := 0x8000_0000_0000_0000

  /** A logical expiry in nanoseconds, as Go's int64 holds it. */
  type Nanos = t: int | -TWO_TO_63 <= t < TWO_TO_63

  type Uint64Value = v: nat | v < TWO_TO_64

  datatype Entry = Entry(absent: bool, expires: Nanos, codec: Bytes, gens: seq<Uint64Value>, payload: Bytes)

  datatype Failure =
    | TooShort | UnknownVersion | UnknownFlags | CodecPastEnd | NoTagCount | TooManyTags | GensPastEnd
    | BadExpiry | BadCodecLen | AbsentWithPayload | ValueWithoutPayload | PayloadTooLong

  function Check(absent: bool, expiry: int, codecLen: nat, payloadLen: nat): Option<Failure> {
    if expiry <= 0 then Some(BadExpiry)
    else if codecLen < 1 || codecLen > MAX_CODEC_ID then Some(BadCodecLen)
    else if absent && payloadLen != 0 then Some(AbsentWithPayload)
    else if !absent && payloadLen == 0 then Some(ValueWithoutPayload)
    else None
  }

  /** The bytes of the generations, in order. */
  function GenBytes(gens: seq<Uint64Value>): (b: Bytes)
    ensures |b| == 8 * |gens|
  {
    if gens == [] then [] else GenBytes(gens[..|gens| - 1]) + PutUint64(gens[|gens| - 1])
  }

  /** The first `n` generations found in `b`. */
  function GensIn(b: Bytes, n: nat): (gens: seq<Uint64Value>)
    requires 8 * n <= |b|
    ensures |gens| == n
  {
    if n == 0 then [] else GensIn(b, n - 1) + [Uint64(b[8 * (n - 1)..8 * n])]
  }

  /** int64 of a uint64. */
  function Signed(v: Uint64Value): Nanos {
    if v < TWO_TO_63 then v else v - TWO_TO_64
  }

  function Header(e: Entry): (b: Bytes)
    requires 0 <= e.expires && |e.codec| < 256
    ensures |b| == HEADER_LEN
  {
    [VERSION, if e.absent then 1 else 0] + PutUint64(e.expires) + [|e.codec| as byte]
  }

  function Layout(e: Entry): Bytes
    requires 0 <= e.expires && |e.codec| < 256 && |e.gens| < 256
  {
    Header(e) + e.codec + [|e.gens| as byte] + GenBytes(e.gens) + e.payload
  }

  function Encoded(e: Entry): Result<Bytes, Failure> {
    match Check(e.absent, e.expires, |e.codec|, |e.payload|)
    case Some(f) => Err(f)
    case None => if |e.gens| > MAX_TAGS then Err(TooManyTags) else Ok(Layout(e))
  }

  function DecodedTail(data: Bytes, codecLen: nat, maxPayload: int): Result<Entry, Failure>
    requires |data| >= HEADER_LEN && codecLen == data[CODEC_OFFSET] as nat
    requires data[1] <= 1
  {
    if |data| < HEADER_LEN + codecLen then Err(CodecPastEnd)
    else
      var rest := data[HEADER_LEN + codecLen..];
      if |rest| < 1 then Err(NoTagCount)
      else
        var tags := rest[0] as nat;
        if tags > MAX_TAGS then Err(TooManyTags)
        else if |rest| < 1 + 8 * tags then Err(GensPastEnd)
        else
          var payload := rest[1 + 8 * tags..];
          var absent := data[1] == 1;
          var expiry := Signed(Uint64(data[EXPIRY_OFFSET..CODEC_OFFSET]));
          match Check(absent, expiry, codecLen, |payload|)
          case Some(f) => Err(f)
          case None =>
            if |payload| > maxPayload then Err(PayloadTooLong)
            else Ok(Entry(absent, expiry, data[HEADER_LEN..HEADER_LEN + codecLen], GensIn(rest[1..], tags), payload))
  }

  function Decoded(data: Bytes, maxPayload: int): Result<Entry, Failure> {
    if |data| < HEADER_LEN then Err(TooShort)
    else if data[0] != VERSION then Err(UnknownVersion)
    else if data[1] > 1 then Err(UnknownFlags)
    else DecodedTail(data, data[CODEC_OFFSET] as nat, maxPayload)
  }

  // ---- The program ----

  method Encode(e: Entry) returns (r: Result<Bytes, Failure>)
    ensures r == Encoded(e)
  {
    var failure := Check(e.absent, e.expires, |e.codec|, |e.payload|);
    if failure.Some? {
      return Err(failure.value);
    }
    if |e.gens| > MAX_TAGS {
      return Err(TooManyTags);
    }
    var flags: byte := 0;
    if e.absent {
      flags := 1;
    }
    var out: Bytes := [VERSION, flags];
    out := out + PutUint64(e.expires);
    out := out + [|e.codec| as byte];
    out := out + e.codec;
    out := out + [|e.gens| as byte];
    ghost var start := out;
    for i := 0 to |e.gens|
      invariant out == start + GenBytes(e.gens[..i])
    {
      out := out + PutUint64(e.gens[i]);
      assert e.gens[..i + 1][..i] == e.gens[..i];
    }
    assert e.gens[..|e.gens|] == e.gens;
    r := Ok(out + e.payload);
  }

  method Decode(data: Bytes, maxPayload: int) returns (r: Result<Entry, Failure>)
    ensures r == Decoded(data, maxPayload)
  {
    if |data| < HEADER_LEN {
      return Err(TooShort);
    }
    if data[0] != VERSION {
      return Err(UnknownVersion);
    }
    var flags := data[1];
    if flags > 1 {
      return Err(UnknownFlags);
    }
    var expiry := Signed(Uint64(data[EXPIRY_OFFSET..CODEC_OFFSET]));
    var codecLen := data[CODEC_OFFSET] as nat;
    if |data| < HEADER_LEN + codecLen {
      return Err(CodecPastEnd);
    }
    var rest := data[HEADER_LEN + codecLen..];
    if |rest| < 1 {
      return Err(NoTagCount);
    }
    var tags := rest[0] as nat;
    if tags > MAX_TAGS {
      return Err(TooManyTags);
    }
    if |rest| < 1 + 8 * tags {
      return Err(GensPastEnd);
    }
    var gens: seq<Uint64Value> := [];
    for i := 0 to tags
      invariant gens == GensIn(rest[1..], i)
    {
      assert rest[1..][8 * i..8 * (i + 1)] == rest[1 + 8 * i..][..8];
      gens := gens + [Uint64(rest[1 + 8 * i..][..8])];
    }
    var payload := rest[1 + 8 * tags..];
    var absent := flags == 1;
    var failure := Check(absent, expiry, codecLen, |payload|);
    if failure.Some? {
      return Err(failure.value);
    }
    if |payload| > maxPayload {
      return Err(PayloadTooLong);
    }
    r := Ok(Entry(absent, expiry, data[HEADER_LEN..HEADER_LEN + codecLen], gens, payload));
  }

  // ---- Round trips ----

  lemma {:induction false} GensOfBytes(gens: seq<Uint64Value>, rest: Bytes)
    ensures GensIn(GenBytes(gens) + rest, |gens|) == gens
  {
    var n := |gens|;
    if n == 0 {
    } else {
      var init := gens[..n - 1];
      var last := PutUint64(gens[n - 1]);
      GensOfBytes(init, last + rest);
      assert GenBytes(gens) + rest == GenBytes(init) + (last + rest);
      assert (GenBytes(gens) + rest)[8 * (n - 1)..8 * n] == last;
      Uint64OfPut(gens[n - 1]);
    }
  }

  lemma {:induction false} BytesOfGens(b: Bytes, n: nat)
    requires 8 * n <= |b|
    ensures GenBytes(GensIn(b, n)) == b[..8 * n]
  {
    if n == 0 {
    } else {
      BytesOfGens(b, n - 1);
      var gens := GensIn(b, n);
      assert gens[..n - 1] == GensIn(b, n - 1);
      PutOfUint64(b[8 * (n - 1)..8 * n]);
      assert b[..8 * n] == b[..8 * (n - 1)] + b[8 * (n - 1)..8 * n];
    }
  }

  lemma LayoutParts(e: Entry)
    requires 0 <= e.expires && |e.codec| < 256 && |e.gens| < 256
    ensures |Layout(e)| >= HEADER_LEN + |e.codec|
    ensures Layout(e)[..HEADER_LEN] == Header(e)
    ensures Layout(e)[HEADER_LEN..HEADER_LEN + |e.codec|] == e.codec
    ensures Layout(e)[HEADER_LEN + |e.codec|..] == [|e.gens| as byte] + GenBytes(e.gens) + e.payload
  {
  }

  lemma HeaderParts(e: Entry)
    requires 0 <= e.expires && |e.codec| < 256
    ensures Header(e)[0] == VERSION && Header(e)[1] == (if e.absent then 1 else 0)
    ensures Header(e)[EXPIRY_OFFSET..CODEC_OFFSET] == PutUint64(e.expires)
    ensures Header(e)[CODEC_OFFSET] == |e.codec| as byte
  {
  }

  lemma TailParts(e: Entry, rest: Bytes)
    requires |e.gens| < 256 && rest == [|e.gens| as byte] + GenBytes(e.gens) + e.payload
    ensures |rest| == 1 + 8 * |e.gens| + |e.payload|
    ensures rest[0] == |e.gens| as byte
    ensures rest[1..] == GenBytes(e.gens) + e.payload
    ensures rest[1 + 8 * |e.gens|..] == e.payload
  {
  }

  /** What is written is what is read back, within the payload limit. */
  lemma DecodeOfEncode(e: Entry, maxPayload: int)
    requires Encoded(e).Ok?
    ensures Decoded(Encoded(e).value, maxPayload) ==
            if |e.payload| <= maxPayload then Ok(e) else Err(PayloadTooLong)
  {
    var data := Layout(e);
    LayoutParts(e);
    HeaderParts(e);
    var rest := data[HEADER_LEN + |e.codec|..];
    TailParts(e, rest);
    assert data[0] == data[..HEADER_LEN][0] && data[1] == data[..HEADER_LEN][1];
    assert data[CODEC_OFFSET] == data[..HEADER_LEN][CODEC_OFFSET];
    assert data[EXPIRY_OFFSET..CODEC_OFFSET] == data[..HEADER_LEN][EXPIRY_OFFSET..CODEC_OFFSET];
    Uint64OfPut(e.expires);
    GensOfBytes(e.gens, e.payload);
  }

  lemma HeaderOfDecoded(data: Bytes, e: Entry)
    requires |data| >= HEADER_LEN && 0 <= e.expires && |e.codec| == data[CODEC_OFFSET] as nat
    requires data[0] == VERSION && data[1] <= 1 && e.absent == (data[1] == 1)
    requires e.expires == Signed(Uint64(data[EXPIRY_OFFSET..CODEC_OFFSET]))
    ensures Header(e) == data[..HEADER_LEN]
  {
    PutOfUint64(data[EXPIRY_OFFSET..CODEC_OFFSET]);
    assert data[..HEADER_LEN] == [data[0], data[1]] + data[EXPIRY_OFFSET..CODEC_OFFSET] + [data[CODEC_OFFSET]];
  }

  /** Bytes cut as Decode cuts them are the bytes again. */
  lemma Reassembled(data: Bytes, codecLen: nat, tags: nat)
    requires |data| >= HEADER_LEN + codecLen + 1 + 8 * tags
    ensures var rest := data[HEADER_LEN + codecLen..];
            data == data[..HEADER_LEN] + data[HEADER_LEN..HEADER_LEN + codecLen] + [rest[0]]
                    + rest[1..][..8 * tags] + rest[1 + 8 * tags..]
  {
  }

  /** Accepted bytes are exactly what their entry encodes to. */
  lemma EncodeOfDecode(data: Bytes, maxPayload: int)
    requires Decoded(data, maxPayload).Ok?
    ensures Encoded(Decoded(data, maxPayload).value) == Ok(data)
    ensures |Decoded(data, maxPayload).value.payload| <= maxPayload
  {
    var e := Decoded(data, maxPayload).value;
    var codecLen := data[CODEC_OFFSET] as nat;
    var rest := data[HEADER_LEN + codecLen..];
    var tags := rest[0] as nat;
    HeaderOfDecoded(data, e);
    BytesOfGens(rest[1..], tags);
    Reassembled(data, codecLen, tags);
  }

  /** Decode accepts exactly the images of Encode within the payload limit, and no bytes mean two entries. */
  lemma AcceptsExactlyTheEncodable(data: Bytes, maxPayload: int)
    ensures Decoded(data, maxPayload).Ok? <==> exists e :: Encoded(e) == Ok(data) && |e.payload| <= maxPayload
    ensures forall e, f :: Encoded(e) == Ok(data) && Encoded(f) == Ok(data) ==> e == f
  {
    if Decoded(data, maxPayload).Ok? {
      EncodeOfDecode(data, maxPayload);
    }
    forall e | Encoded(e) == Ok(data)
      ensures |e.payload| <= maxPayload ==> Decoded(data, maxPayload) == Ok(e)
      ensures forall f :: Encoded(f) == Ok(data) ==> e == f
    {
      DecodeOfEncode(e, maxPayload);
      forall f | Encoded(f) == Ok(data)
        ensures e == f
      {
        DecodeOfEncode(e, |e.payload| + |f.payload|);
        DecodeOfEncode(f, |e.payload| + |f.payload|);
      }
    }
  }

  // ---- The bytes themselves ----

  /** An entry is encoded exactly when it can be: a positive expiry, a codec id, at most eight tags, and a payload
      unless it is an absence. */
  lemma EncodesExactlyWhen(e: Entry)
    ensures Encoded(e).Ok? <==>
              && 0 < e.expires && 1 <= |e.codec| <= 32 && |e.gens| <= 8
              && (e.absent <==> e.payload == [])
  {
  }

  lemma {:induction false} GenBytesAt(gens: seq<Uint64Value>, j: nat)
    requires j < |gens|
    ensures GenBytes(gens)[8 * j..8 * j + 8] == PutUint64(gens[j])
  {
    var last := |gens| - 1;
    assert GenBytes(gens) == GenBytes(gens[..last]) + PutUint64(gens[last]);
    if j < last {
      GenBytesAt(gens[..last], j);
      assert GenBytes(gens)[8 * j..8 * j + 8] == GenBytes(gens[..last])[8 * j..8 * j + 8];
    } else {
      assert GenBytes(gens)[8 * j..8 * j + 8] == PutUint64(gens[j]);
    }
  }

  /** The bytes of `v` stand at `at`, most significant first. */
  ghost predicate StandsAt(data: Bytes, at: nat, v: nat) {
    && at + 8 <= |data|
    && v == 0x100_0000_0000_0000 * data[at] as nat + 0x1_0000_0000_0000 * data[at + 1] as nat
            + 0x100_0000_0000 * data[at + 2] as nat + 0x1_0000_0000 * data[at + 3] as nat
            + 0x100_0000 * data[at + 4] as nat + 0x1_0000 * data[at + 5] as nat
            + 0x100 * data[at + 6] as nat + data[at + 7] as nat
  }

  lemma PutStands(data: Bytes, at: nat, v: nat)
    requires at + 8 <= |data| && v < TWO_TO_64 && data[at..at + 8] == PutUint64(v)
    ensures StandsAt(data, at, v)
  {
    Uint64OfPut(v);
    Weights(data[at..at + 8]);
  }

  lemma SliceOfSlice(b: Bytes, from: nat, to: nat, i: nat, j: nat)
    requires i <= j <= to - from && to <= |b|
    ensures b[from..to][i..j] == b[from + i..from + j]
  {
    var a := b[from..to];
    assert forall k :: i <= k < j ==> a[k] == b[from + k];
    assert a[i..j] == b[from + i..from + j];
  }

  lemma GenStands(data: Bytes, at: nat, gens: seq<Uint64Value>, j: nat)
    requires j < |gens| && at + 8 * |gens| <= |data| && data[at..at + 8 * |gens|] == GenBytes(gens)
    ensures StandsAt(data, at + 8 * j, gens[j])
  {
    hide GenBytes, StandsAt;
    GenBytesAt(gens, j);
    SliceOfSlice(data, at, at + 8 * |gens|, 8 * j, 8 * j + 8);
    PutStands(data, at + 8 * j, gens[j]);
  }

  /**
    The layout, byte by byte: version 2, the absence flag, the expiry, the length of the codec id, the id,
    the number of generations, these, and the payload to the end.
   */
  lemma LayoutByteByByte(e: Entry)
    requires Encoded(e).Ok?
    ensures var data, n := Encoded(e).value, |e.codec|;
            && |data| == 12 + n + 8 * |e.gens| + |e.payload|
            && data[0] == 2 && data[1] == (if e.absent then 1 else 0)
            && StandsAt(data, 2, e.expires)
            && data[10] as nat == n && data[11..11 + n] == e.codec
            && data[11 + n] as nat == |e.gens|
            && (forall j :: 0 <= j < |e.gens| ==> StandsAt(data, 12 + n + 8 * j, e.gens[j]))
            && data[12 + n + 8 * |e.gens|..] == e.payload
  {
    hide StandsAt, GenBytes, Layout, Header;
    var data, n := Layout(e), |e.codec|;
    LayoutParts(e);
    HeaderParts(e);
    var rest := data[HEADER_LEN + n..];
    TailParts(e, rest);
    assert data[0] == data[..HEADER_LEN][0] && data[1] == data[..HEADER_LEN][1] && data[10] == data[..HEADER_LEN][10];
    assert data[2..10] == data[..HEADER_LEN][2..10];
    PutStands(data, 2, e.expires);
    assert data[11 + n] == rest[0];
    assert data[12 + n..] == rest[1..];
    assert data[12 + n + 8 * |e.gens|..] == rest[1 + 8 * |e.gens|..];
    assert data[12 + n..12 + n + 8 * |e.gens|] == rest[1..][..8 * |e.gens|] == GenBytes(e.gens);
    forall j | 0 <= j < |e.gens|
      ensures StandsAt(data, 12 + n + 8 * j, e.gens[j])
    {
      GenStands(data, 12 + n, e.gens, j);
    }
  }
}
