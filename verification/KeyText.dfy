/**
  What keys are as text (keys.go, tags.go, cache.go): a key is accepted exactly when it is a non-empty UTF-8
  encoding of characters none of which is a control character, by the definition of UTF-8 in section 3
  of RFC 3629; and how digests and generations are spelled.
 */
module KeyText {
  import opened Common
  import opened Keys

  // ---- UTF-8 ----

  /** A Unicode scalar value: a code point that is no surrogate. */
  predicate Scalar(r: int) {
    0 <= r < 0xD800 || 0xE000 <= r < 0x11_0000
  }

  predicate Control(r: int) {
    0 <= r <= 0x1F || 0x7F <= r <= 0x9F
  }

  function Continuation(bits: int): char
    requires 0 <= bits < 64
  {
    (0x80 + bits) as char
  }

  /** The encoding of one character. */
  function Utf8(r: int): (s: string)
    requires Scalar(r)
    ensures 1 <= |s| <= 4
  {
    if r < 0x80 then [r as char]
    else if r < 0x800 then [(0xC0 + r / 0x40) as char, Continuation(r % 0x40)]
    else if r < 0x1_0000 then [(0xE0 + r / 0x1000) as char, Continuation(r / 0x40 % 0x40), Continuation(r % 0x40)]
    else [(0xF0 + r / 0x4_0000) as char, Continuation(r / 0x1000 % 0x40), Continuation(r / 0x40 % 0x40),
          Continuation(r % 0x40)]
  }

  function Utf8Text(rs: seq<int>): string
    requires forall i :: 0 <= i < |rs| ==> Scalar(rs[i])
  {
    if rs == [] then "" else Utf8(rs[0]) + Utf8Text(rs[1..])
  }

  lemma EncodedShort(r: int, rest: string)
    requires Scalar(r) && r < 0x800
    ensures var s := Utf8(r) + rest; RuneSize(s) == |Utf8(r)| && (StartsWithControl(s) <==> Control(r))
  {
    var s := Utf8(r) + rest;
    assert s[0] == Utf8(r)[0];
    if r >= 0x80 {
      assert s[1] == Utf8(r)[1];
    }
  }

  lemma EncodedThree(r: int, rest: string)
    requires Scalar(r) && 0x800 <= r < 0x1_0000
    ensures var s := Utf8(r) + rest; RuneSize(s) == |Utf8(r)| && !StartsWithControl(s)
  {
    var s := Utf8(r) + rest;
    assert s[0] == Utf8(r)[0] && s[1] == Utf8(r)[1] && s[2] == Utf8(r)[2];
  }

  lemma EncodedFour(r: int, rest: string)
    requires Scalar(r) && 0x1_0000 <= r
    ensures var s := Utf8(r) + rest; RuneSize(s) == |Utf8(r)| && !StartsWithControl(s)
  {
    var s := Utf8(r) + rest;
    assert s[0] == Utf8(r)[0] && s[1] == Utf8(r)[1] && s[2] == Utf8(r)[2] && s[3] == Utf8(r)[3];
  }

  /** The rune at the start of an encoded text is the one that was encoded there. */
  lemma EncodedRune(r: int, rest: string)
    requires Scalar(r)
    ensures var s := Utf8(r) + rest; RuneSize(s) == |Utf8(r)| && (StartsWithControl(s) <==> Control(r))
  {
    hide Utf8, RuneSize, StartsWithControl;
    if r < 0x800 {
      EncodedShort(r, rest);
    } else if r < 0x1_0000 {
      EncodedThree(r, rest);
    } else {
      EncodedFour(r, rest);
    }
  }

  /** The character whose encoding leads with `lead` and continues with these bytes. */
  function Packed(lead: int, c1: int, c2: int): int {
    0x1000 * lead + 0x40 * (c1 - 0x80) + (c2 - 0x80)
  }

  lemma Unpacks(lead: int, c1: int, c2: int)
    requires 0 <= lead && 0x80 <= c1 < 0xC0 && 0x80 <= c2 < 0xC0
    ensures var r := Packed(lead, c1, c2); r / 0x1000 == lead && r / 0x40 % 0x40 == c1 - 0x80 && r % 0x40 == c2 - 0x80
  {
    var r := Packed(lead, c1, c2);
    assert r / 0x40 == 0x40 * lead + (c1 - 0x80);
  }

  lemma DecodedThree(s: string) returns (r: int)
    requires s != [] && RuneSize(s) == 3
    ensures Scalar(r) && Utf8(r) == s[..3]
  {
    var lead := s[0] as int - 0xE0;
    r := Packed(lead, s[1] as int, s[2] as int);
    Unpacks(lead, s[1] as int, s[2] as int);
  }

  lemma DecodedFour(s: string) returns (r: int)
    requires s != [] && RuneSize(s) == 4
    ensures Scalar(r) && Utf8(r) == s[..4]
  {
    var lead := 0x40 * (s[0] as int - 0xF0) + (s[1] as int - 0x80);
    r := Packed(lead, s[2] as int, s[3] as int);
    Unpacks(lead, s[2] as int, s[3] as int);
    assert r / 0x4_0000 == s[0] as int - 0xF0;
  }

  /** And every rune found is the encoding of a character. */
  lemma DecodedRune(s: string) returns (r: int)
    requires s != [] && RuneSize(s) > 0
    ensures Scalar(r) && Utf8(r) == s[..RuneSize(s)]
  {
    hide Utf8;
    var n := RuneSize(s);
    if n == 1 {
      r := s[0] as int;
      Short(r, s);
    } else if n == 2 {
      r := 0x40 * (s[0] as int - 0xC0) + (s[1] as int - 0x80);
      Short(r, s);
    } else if n == 3 {
      r := DecodedThree(s);
    } else {
      r := DecodedFour(s);
    }
  }

  lemma Short(r: int, s: string)
    requires s != [] && 1 <= RuneSize(s) <= 2
    requires r == if RuneSize(s) == 1 then s[0] as int else 0x40 * (s[0] as int - 0xC0) + (s[1] as int - 0x80)
    ensures Scalar(r) && Utf8(r) == s[..RuneSize(s)]
  {
  }

  ghost predicate Clean(rs: seq<int>) {
    forall i :: 0 <= i < |rs| ==> Scalar(rs[i]) && !Control(rs[i])
  }

  lemma {:induction false} TextIsClean(rs: seq<int>)
    requires Clean(rs)
    ensures CleanUtf8(Utf8Text(rs))
    ensures rs != [] ==> Utf8Text(rs) != ""
  {
    if rs == [] {
    } else {
      var rest := Utf8Text(rs[1..]);
      TextIsClean(rs[1..]);
      EncodedRune(rs[0], rest);
      assert (Utf8(rs[0]) + rest)[|Utf8(rs[0])|..] == rest;
    }
  }

  lemma {:induction false} CleanIsText(s: string) returns (rs: seq<int>)
    requires CleanUtf8(s)
    ensures Clean(rs) && Utf8Text(rs) == s && (s != "" ==> rs != [])
    decreases |s|
  {
    if s == [] {
      rs := [];
    } else {
      var n := RuneSize(s);
      var r := DecodedRune(s);
      EncodedRune(r, s[n..]);
      assert s == Utf8(r) + s[n..];
      var rest := CleanIsText(s[n..]);
      rs := [r] + rest;
      assert rs[1..] == rest;
    }
  }

  /** A key or a tag is good text: at least one character, all well encoded, none a control character. */
  ghost predicate GoodText(key: string) {
    exists rs :: rs != [] && Clean(rs) && Utf8Text(rs) == key
  }

  lemma ValidKeyExactlyWhen(key: string)
    ensures ValidKey(key) <==> GoodText(key)
  {
    if ValidKey(key) {
      var rs := CleanIsText(key);
    }
    if GoodText(key) {
      var rs :| rs != [] && Clean(rs) && Utf8Text(rs) == key;
      TextIsClean(rs);
    }
  }

  // ---- What becomes of a key and of a tag ----

  /**
    A key has a physical key exactly when it is good text of at most 256 bytes, or of any length where
    keys are hashed.
   */
  lemma PhysicalKeyExactlyWhen(ns: string, h: bool, hash: string -> string, key: string)
    requires DigestFunction(hash)
    ensures PhysicalKey(ns, h, hash, key).Ok? <==> GoodText(key) && (|key| <= 256 || h)
    ensures PhysicalKey(ns, h, hash, key).Ok? ==>
              PhysicalKey(ns, h, hash, key).value ==
              "cistern:v1:" + ns + ":-:" + if |key| <= 256 then "k:" + key else "h:" + Hex(hash(key))
  {
    ValidKeyExactlyWhen(key);
  }

  /** A tag has a counter exactly when it is good text of at most 256 bytes. */
  lemma GenKeyExactlyWhen(ns: string, tag: string)
    ensures GenKey(ns, tag).Ok? <==> GoodText(tag) && |tag| <= 256
    ensures GenKey(ns, tag).Ok? ==> GenKey(ns, tag).value == "cistern:v1:" + ns + ":g:" + tag
  {
    ValidKeyExactlyWhen(tag);
  }

  /** `name` is that of a verbatim key `rest` of the namespace, or of a digest whose hexadecimal digits are `rest`. */
  ghost predicate Names(ns: string, name: string, rest: string) {
    || (name == "cistern:v1:" + ns + ":-:" + "k:" + rest && GoodText(rest) && |rest| <= 256)
    || (name == "cistern:v1:" + ns + ":-:" + "h:" + rest && |rest| == 64 && HexDecodes(rest))
  }

  lemma HeardName(ns: string, name: string) returns (rest: string)
    requires EventKey(ns, name).Some?
    ensures Names(ns, name, rest)
  {
    hide GoodText;
    var p := EntryPrefix(ns);
    var tail := name[|p|..];
    rest := tail[2..];
    assert name == p + tail;
    ValidKeyExactlyWhen(rest);
    if "k:" <= tail {
      assert tail == "k:" + rest;
      assert name == p + "k:" + rest;
    } else {
      assert tail == "h:" + rest;
      assert name == p + "h:" + rest;
    }
  }

  lemma VerbatimNameHeard(ns: string, key: string)
    requires ValidKey(key) && |key| <= 256
    ensures EventKey(ns, EntryPrefix(ns) + "k:" + key) == Some(key)
  {
    var p := EntryPrefix(ns);
    assert p + "k:" + key == p + ("k:" + key);
    CutAppended(p, "k:" + key);
    CutAppended("k:", key);
  }

  /** A key event is heard exactly when it names a verbatim key of the namespace, or 64 hexadecimal digits. */
  lemma EventKeyExactlyWhen(ns: string, name: string)
    ensures EventKey(ns, name).Some? <==> exists rest :: Names(ns, name, rest)
  {
    if EventKey(ns, name).Some? {
      var rest := HeardName(ns, name);
    }
    forall rest | Names(ns, name, rest)
      ensures EventKey(ns, name).Some?
    {
      NamedIsHeard(ns, name, rest);
    }
  }

  lemma NamedIsHeard(ns: string, name: string, rest: string)
    requires Names(ns, name, rest)
    ensures EventKey(ns, name).Some?
  {
    hide EventKey, GoodText, ValidKey, HexDecodes;
    ValidKeyExactlyWhen(rest);
    if GoodText(rest) && |rest| <= 256 {
      VerbatimNameHeard(ns, rest);
    }
    if |rest| == 64 && HexDecodes(rest) {
      HashedNameAccepted(ns, rest);
    }
  }

  // ---- Digits ----

  /** Each byte of a digest is spelled as two digits, the higher first. */
  lemma {:induction false} HexSpells(d: string, i: nat)
    requires (forall j :: 0 <= j < |d| ==> Within(d[j], 0, 255)) && i < |d|
    ensures Hex(d)[2 * i] == "0123456789abcdef"[d[i] as int / 16]
    ensures Hex(d)[2 * i + 1] == "0123456789abcdef"[d[i] as int % 16]
  {
    if i == 0 {
      HexDigitSpells(d[0] as int / 16);
      HexDigitSpells(d[0] as int % 16);
    } else {
      HexSpells(d[1..], i - 1);
    }
  }

  lemma HexDigitSpells(n: int)
    requires 0 <= n < 16
    ensures HexDigit(n) == "0123456789abcdef"[n]
  {
  }

  /** The number that decimal digits spell. */
  function Spelled(s: string): int {
    if s == [] then 0 else 10 * Spelled(s[..|s| - 1]) + (s[|s| - 1] as int - '0' as int)
  }

  /** A generation is spelled in decimal digits, without leading zeros. */
  lemma {:induction false} DecimalSpells(n: nat)
    ensures Spelled(Decimal(n)) == n
    ensures forall i :: 0 <= i < |Decimal(n)| ==> Decimal(n)[i] in "0123456789"
    ensures n > 0 ==> Decimal(n)[0] != '0'
  {
    if n < 10 {
      assert Spelled(Decimal(n)[..0]) == 0;
      assert Decimal(n)[0] in "0123456789" by { DigitSpells(n); }
    } else {
      var s := Decimal(n / 10);
      DecimalSpells(n / 10);
      assert Decimal(n)[..|s|] == s;
      DigitSpells(n % 10);
    }
  }

  lemma DigitSpells(n: int)
    requires 0 <= n < 10
    ensures Digit(n) in "0123456789"
  {
    assert Digit(n) == "0123456789"[n];
  }

  // ---- Flights ----

  /** In an untagged cache loads are shared exactly by the callers of the same physical key. */
  lemma UntaggedFlightsShareExactlyWhen(pk1: string, pk2: string, ks1: seq<string>, ks2: seq<string>,
                                        g1: Option<seq<nat>>, g2: Option<seq<nat>>)
    ensures FlightKey(pk1, false, ks1, g1) == FlightKey(pk2, false, ks2, g2) <==> pk1 == pk2
  {
  }
}
