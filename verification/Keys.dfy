/**
  Physical keys, counter keys, event names and flight keys (keys.go, tags.go, events.go, cache.go).

  A Go string is a sequence of bytes; here it is a `string` whose characters stand for those bytes,
  so lengths are byte lengths. A character above 255 is no byte, and no key accepts one.
 */
module Keys {
  import opened Common

  const MAX_KEY_BYTES: nat := 256
  const SHA256_SIZE: nat := 32

  // ---- UTF-8 without control characters (section 4 of RFC 3629) ----

  predicate Within(c: char, lo: int, hi: int) {
    lo <= c as int <= hi
  }

  predicate Tail(s: string, i: nat) {
    i < |s| && Within(s[i], 0x80, 0xBF)
  }

  predicate TailWithin(s: string, lo: int, hi: int) {
    1 < |s| && Within(s[1], lo, hi)
  }

  /** The number of bytes of the well-formed rune that starts `s`, or 0. */
  function RuneSize(s: string): (n: nat)
    requires s != []
    ensures n <= |s|
  {
    var c := s[0];
    if Within(c, 0x00, 0x7F) then 1
    else if Within(c, 0xC2, 0xDF) && Tail(s, 1) then 2
    else if c as int == 0xE0 && TailWithin(s, 0xA0, 0xBF) && Tail(s, 2) then 3
    else if Within(c, 0xE1, 0xEC) && Tail(s, 1) && Tail(s, 2) then 3
    else if c as int == 0xED && TailWithin(s, 0x80, 0x9F) && Tail(s, 2) then 3
    else if Within(c, 0xEE, 0xEF) && Tail(s, 1) && Tail(s, 2) then 3
    else if c as int == 0xF0 && TailWithin(s, 0x90, 0xBF) && Tail(s, 2) && Tail(s, 3) then 4
    else if Within(c, 0xF1, 0xF3) && Tail(s, 1) && Tail(s, 2) && Tail(s, 3) then 4
    else if c as int == 0xF4 && TailWithin(s, 0x80, 0x8F) && Tail(s, 2) && Tail(s, 3) then 4
    else 0
  }

  /** The first rune is U+0000-U+001F or U+007F-U+009F. */
  predicate StartsWithControl(s: string)
    requires s != [] && RuneSize(s) > 0
  {
    Within(s[0], 0x00, 0x1F) || s[0] as int == 0x7F || (s[0] as int == 0xC2 && s[1] as int < 0xA0)
  }

  predicate CleanUtf8(s: string)
    decreases |s|
  {
    s == [] || (RuneSize(s) > 0 && !StartsWithControl(s) && CleanUtf8(s[RuneSize(s)..]))
  }

  predicate ValidKey(key: string) {
    key != "" && CleanUtf8(key)
  }

  /** A byte that can neither end a log line nor separate the parts of a flight key. */
  predicate Printable(c: char) {
    c as int >= 0x20 && c as int != 0x7F
  }

  ghost predicate AllPrintable(s: string) {
    forall i :: 0 <= i < |s| ==> Printable(s[i])
  }

  lemma {:induction false} CleanIsPrintable(s: string)
    requires CleanUtf8(s)
    ensures AllPrintable(s)
    decreases |s|
  {
    if s == [] {
    } else {
      var n := RuneSize(s);
      CleanIsPrintable(s[n..]);
      forall i | 0 <= i < |s|
        ensures Printable(s[i])
      {
        if i >= n {
          assert s[i] == s[n..][i - n];
        }
      }
    }
  }

  // ---- Namespaces and prefixes ----

  predicate NamespaceChar(c: char) {
    'a' <= c <= 'z' || '0' <= c <= '9' || c == '.' || c == '_' || c == '-'
  }

  predicate ValidNamespace(ns: string) {
    1 <= |ns| <= 64 && forall i :: 0 <= i < |ns| ==> NamespaceChar(ns[i])
  }

  function EntryPrefix(ns: string): string {
    "cistern:v1:" + ns + ":-:"
  }

  function CounterPrefix(ns: string): string {
    "cistern:v1:" + ns + ":g:"
  }

  // ---- Key construction ----

  datatype KeyError = InvalidKey

  function HexDigit(n: int): (c: char)
    requires 0 <= n < 16
    ensures '0' <= c <= '9' || 'a' <= c <= 'f'
  {
    if n < 10 then ('0' as int + n) as char else ('a' as int + n - 10) as char
  }

  ghost predicate IsDigest(d: string) {
    |d| == SHA256_SIZE && forall i :: 0 <= i < |d| ==> Within(d[i], 0, 255)
  }

  function Hex(d: string): (s: string)
    requires forall i :: 0 <= i < |d| ==> Within(d[i], 0, 255)
    ensures |s| == 2 * |d|
  {
    if d == [] then ""
    else
      assert Within(d[0], 0, 255);
      [HexDigit(d[0] as int / 16), HexDigit(d[0] as int % 16)] + Hex(d[1..])
  }

  /** SHA-256 as far as the keys depend on it: 32 bytes for every key. */
  ghost predicate DigestFunction(hash: string -> string) {
    forall k :: IsDigest(hash(k))
  }

  function PhysicalKey(ns: string, hashKeys: bool, hash: string -> string, key: string): Result<string, KeyError>
    requires DigestFunction(hash)
  {
    if !ValidKey(key) then Err(InvalidKey)
    else if |key| <= MAX_KEY_BYTES then Ok(EntryPrefix(ns) + "k:" + key)
    else if !hashKeys then Err(InvalidKey)
    else
      assert IsDigest(hash(key));
      Ok(EntryPrefix(ns) + "h:" + Hex(hash(key)))
  }

  function GenKey(ns: string, tag: string): Result<string, KeyError> {
    if !ValidKey(tag) then Err(InvalidKey)
    else if |tag| > MAX_KEY_BYTES then Err(InvalidKey)
    else Ok(CounterPrefix(ns) + tag)
  }

  // ---- Cutting at the first separator ----

  lemma CutNotBefore(a: string, b: string, ra: string, rb: string, sep: char)
    requires sep !in b && a + [sep] + ra == b + [sep] + rb
    ensures |b| <= |a|
  {
    var s := a + [sep] + ra;
    assert s[|a|] == sep;
    forall i | 0 <= i < |b|
      ensures s[i] != sep
    {
      assert (b + [sep] + rb)[i] == b[i];
    }
  }

  lemma SplitUnique(a: string, b: string, ra: string, rb: string, sep: char)
    requires sep !in a && sep !in b
    requires a + [sep] + ra == b + [sep] + rb
    ensures a == b && ra == rb
  {
    CutNotBefore(a, b, ra, rb, sep);
    CutNotBefore(b, a, rb, ra, sep);
    var s := a + [sep] + ra;
    assert a == s[..|a|] && b == (b + [sep] + rb)[..|b|];
    assert ra == s[|a| + 1..] && rb == (b + [sep] + rb)[|b| + 1..];
  }

  /** The namespace of a key, its generations component and the rest can be read back from the key. */
  lemma ComponentsUnique(ns1: string, ns2: string, kind1: char, kind2: char, rest1: string, rest2: string)
    requires ValidNamespace(ns1) && ValidNamespace(ns2)
    requires "cistern:v1:" + ns1 + [':', kind1, ':'] + rest1 == "cistern:v1:" + ns2 + [':', kind2, ':'] + rest2
    ensures ns1 == ns2 && kind1 == kind2 && rest1 == rest2
  {
    var head := "cistern:v1:";
    var t1 := ns1 + [':'] + ([kind1, ':'] + rest1);
    var t2 := ns2 + [':'] + ([kind2, ':'] + rest2);
    assert head + ns1 + [':', kind1, ':'] + rest1 == head + t1;
    assert head + ns2 + [':', kind2, ':'] + rest2 == head + t2;
    assert t1 == (head + t1)[|head|..] && t2 == (head + t2)[|head|..];
    SplitUnique(ns1, ns2, [kind1, ':'] + rest1, [kind2, ':'] + rest2, ':');
    var u1 := [kind1, ':'] + rest1;
    var u2 := [kind2, ':'] + rest2;
    assert u1[0] == kind1 && u2[0] == kind2;
    assert u1[2..] == rest1 && u2[2..] == rest2;
  }

  lemma {:induction false} HexInjective(a: string, b: string)
    requires forall i :: 0 <= i < |a| ==> Within(a[i], 0, 255)
    requires forall i :: 0 <= i < |b| ==> Within(b[i], 0, 255)
    requires Hex(a) == Hex(b)
    ensures a == b
  {
    assert |a| == |b|;
    if a == [] {
    } else {
      assert Hex(a)[0] == HexDigit(a[0] as int / 16) && Hex(a)[1] == HexDigit(a[0] as int % 16);
      assert Hex(b)[0] == HexDigit(b[0] as int / 16) && Hex(b)[1] == HexDigit(b[0] as int % 16);
      assert a[0] as int == b[0] as int;
      assert Hex(a)[2..] == Hex(a[1..]) && Hex(b)[2..] == Hex(b[1..]);
      HexInjective(a[1..], b[1..]);
      assert a == [a[0]] + a[1..] && b == [b[0]] + b[1..];
    }
  }

  // ---- The key space ----

  ghost function KeyTail(hash: string -> string, key: string): string
    requires DigestFunction(hash)
  {
    if |key| <= MAX_KEY_BYTES then "k:" + key
    else
      assert IsDigest(hash(key));
      "h:" + Hex(hash(key))
  }

  lemma PhysicalKeyForm(ns: string, h: bool, hash: string -> string, key: string)
    requires DigestFunction(hash) && PhysicalKey(ns, h, hash, key).Ok?
    ensures PhysicalKey(ns, h, hash, key).value == "cistern:v1:" + ns + [':', '-', ':'] + KeyTail(hash, key)
  {
    hide CleanUtf8, Hex;
    assert EntryPrefix(ns) == "cistern:v1:" + ns + [':', '-', ':'];
  }

  lemma KeyTailInjective(hash: string -> string, k1: string, k2: string)
    requires DigestFunction(hash) && KeyTail(hash, k1) == KeyTail(hash, k2)
    requires hash(k1) == hash(k2) ==> k1 == k2
    ensures k1 == k2
  {
    hide Hex;
    var r1, r2 := KeyTail(hash, k1), KeyTail(hash, k2);
    assert IsDigest(hash(k1)) && IsDigest(hash(k2));
    assert r1[0] == r2[0];
    if |k1| <= MAX_KEY_BYTES {
      assert r1[2..] == k1 && r2[2..] == k2;
    } else {
      assert r1[2..] == Hex(hash(k1)) && r2[2..] == Hex(hash(k2));
      HexInjective(hash(k1), hash(k2));
    }
  }

  /**
    Two consumer keys share a physical key only when they are one key of one namespace, given that
    the hash tells the two apart when it is used on both.
   */
  lemma PhysicalKeyInjective(ns1: string, ns2: string, h1: bool, h2: bool, hash: string -> string, k1: string,
                             k2: string)
    requires DigestFunction(hash) && ValidNamespace(ns1) && ValidNamespace(ns2)
    requires hash(k1) == hash(k2) ==> k1 == k2
    requires PhysicalKey(ns1, h1, hash, k1).Ok?
    ensures PhysicalKey(ns1, h1, hash, k1) == PhysicalKey(ns2, h2, hash, k2) ==> ns1 == ns2 && k1 == k2
  {
    hide PhysicalKey, KeyTail, ValidNamespace, DigestFunction;
    if PhysicalKey(ns1, h1, hash, k1) == PhysicalKey(ns2, h2, hash, k2) {
      PhysicalKeyForm(ns1, h1, hash, k1);
      PhysicalKeyForm(ns2, h2, hash, k2);
      ComponentsUnique(ns1, ns2, '-', '-', KeyTail(hash, k1), KeyTail(hash, k2));
      KeyTailInjective(hash, k1, k2);
    }
  }

  /** No entry of any namespace lives under a counter's key, so a write never touches a counter. */
  lemma CountersDisjointFromEntries(ns1: string, ns2: string, h: bool, hash: string -> string, key: string, tag: string)
    requires DigestFunction(hash) && ValidNamespace(ns1) && ValidNamespace(ns2)
    requires PhysicalKey(ns1, h, hash, key).Ok?
    ensures PhysicalKey(ns1, h, hash, key) != GenKey(ns2, tag)
  {
    if PhysicalKey(ns1, h, hash, key) == GenKey(ns2, tag) {
      PhysicalKeyForm(ns1, h, hash, key);
      assert GenKey(ns2, tag).value == "cistern:v1:" + ns2 + [':', 'g', ':'] + tag;
      ComponentsUnique(ns1, ns2, '-', 'g', KeyTail(hash, key), tag);
      assert false;
    }
  }

  lemma GenKeyInjective(ns1: string, ns2: string, t1: string, t2: string)
    requires ValidNamespace(ns1) && ValidNamespace(ns2)
    requires GenKey(ns1, t1).Ok?
    ensures GenKey(ns1, t1) == GenKey(ns2, t2) ==> ns1 == ns2 && t1 == t2
  {
    if GenKey(ns1, t1) == GenKey(ns2, t2) {
      assert GenKey(ns1, t1).value == "cistern:v1:" + ns1 + [':', 'g', ':'] + t1;
      assert GenKey(ns2, t2).value == "cistern:v1:" + ns2 + [':', 'g', ':'] + t2;
      ComponentsUnique(ns1, ns2, 'g', 'g', t1, t2);
    }
  }

  // ---- Event names ----

  function CutPrefix(s: string, prefix: string): Option<string> {
    if prefix <= s then Some(s[|prefix|..]) else None
  }

  predicate IsLowerHex(c: char) {
    '0' <= c <= '9' || 'a' <= c <= 'f'
  }

  predicate IsHex(c: char) {
    IsLowerHex(c) || 'A' <= c <= 'F'
  }

  predicate HexDecodes(s: string) {
    |s| % 2 == 0 && forall i :: 0 <= i < |s| ==> IsHex(s[i])
  }

  /** The consumer key a key event names: None when the name is not accepted, "" for a hashed key. */
  function EventKey(ns: string, name: string): Option<string> {
    match CutPrefix(name, EntryPrefix(ns))
    case None => None
    case Some(rest) =>
      match CutPrefix(rest, "k:")
      case Some(key) => if |key| <= MAX_KEY_BYTES && ValidKey(key) then Some(key) else None
      case None =>
        match CutPrefix(rest, "h:")
        case Some(sum) => if |sum| == 2 * SHA256_SIZE && HexDecodes(sum) then Some("") else None
        case None => None
  }

  lemma CutAppended(prefix: string, rest: string)
    ensures CutPrefix(prefix + rest, prefix) == Some(rest)
  {
  }

  lemma {:induction false} HexIsLower(d: string)
    requires forall i :: 0 <= i < |d| ==> Within(d[i], 0, 255)
    ensures forall i :: 0 <= i < |Hex(d)| ==> IsLowerHex(Hex(d)[i])
  {
    if d == [] {
    } else {
      HexIsLower(d[1..]);
      forall i | 0 <= i < |Hex(d)|
        ensures IsLowerHex(Hex(d)[i])
      {
        if i >= 2 {
          assert Hex(d)[i] == Hex(d[1..])[i - 2];
        }
      }
    }
  }

  /** Every physical key of the cache is accepted, and a verbatim consumer key is recovered. */
  lemma EventKeyAcceptsPhysicalKeys(ns: string, h: bool, hash: string -> string, key: string)
    requires DigestFunction(hash) && PhysicalKey(ns, h, hash, key).Ok?
    ensures EventKey(ns, PhysicalKey(ns, h, hash, key).value) == Some(if |key| <= MAX_KEY_BYTES then key else "")
  {
    var name := PhysicalKey(ns, h, hash, key).value;
    assert IsDigest(hash(key));
    assert name == EntryPrefix(ns) + KeyTail(hash, key);
    CutAppended(EntryPrefix(ns), KeyTail(hash, key));
    if |key| <= MAX_KEY_BYTES {
      CutAppended("k:", key);
    } else {
      var sum := Hex(hash(key));
      assert ("h:" + sum)[0] == 'h';
      assert !("k:" <= "h:" + sum);
      CutAppended("h:", sum);
      HexIsLower(hash(key));
    }
  }

  /** A consumer key is reported only for the one name the cache stores that key under. */
  lemma EventKeyReportsOnlyItsOwn(ns: string, name: string, h: bool, hash: string -> string)
    requires DigestFunction(hash)
    requires EventKey(ns, name).Some? && EventKey(ns, name).value != ""
    ensures PhysicalKey(ns, h, hash, EventKey(ns, name).value) == Ok(name)
  {
    var p := EntryPrefix(ns);
    var rest := name[|p|..];
    assert name == p + rest;
    if !("k:" <= rest) {
      assert false;
    }
    assert rest == "k:" + rest[2..];
    assert name == p + "k:" + rest[2..];
  }

  function LowerHexValue(c: char): (n: int)
    requires IsLowerHex(c)
    ensures 0 <= n < 16 && HexDigit(n) == c
  {
    if c <= '9' then c as int - '0' as int else c as int - 'a' as int + 10
  }

  lemma {:induction false} LowerHexIsHexOf(s: string) returns (d: string)
    requires |s| % 2 == 0 && forall i :: 0 <= i < |s| ==> IsLowerHex(s[i])
    ensures |s| == 2 * |d| && (forall i :: 0 <= i < |d| ==> Within(d[i], 0, 255)) && Hex(d) == s
    decreases |s|
  {
    if s == [] {
      d := "";
    } else {
      var rest := LowerHexIsHexOf(s[2..]);
      var hi, lo := LowerHexValue(s[0]), LowerHexValue(s[1]);
      d := [(16 * hi + lo) as char] + rest;
      assert d[1..] == rest;
      assert d[0] as int / 16 == hi && d[0] as int % 16 == lo;
      assert s == [s[0], s[1]] + s[2..];
    }
  }

  /** Some key of some hash is stored under `name` by a cache that hashes long keys exactly if `h`. */
  ghost predicate Storable(ns: string, h: bool, name: string) {
    exists hash: string -> string, key :: DigestFunction(hash) && PhysicalKey(ns, h, hash, key) == Ok(name)
  }

  predicate EndsInLowerHex(name: string) {
    |name| >= 64 && forall i :: |name| - 64 <= i < |name| ==> IsLowerHex(name[i])
  }

  /** The parts of an accepted name of a hashed key. */
  lemma HashedNameParts(ns: string, name: string) returns (sum: string)
    requires EventKey(ns, name) == Some("")
    ensures |sum| == 64 && name == EntryPrefix(ns) + "h:" + sum
    ensures EndsInLowerHex(name) <==> forall i :: 0 <= i < 64 ==> IsLowerHex(sum[i])
  {
    var rest := name[|EntryPrefix(ns)|..];
    assert name == EntryPrefix(ns) + rest;
    sum := rest[2..];
    assert rest == "h:" + sum;
    assert name == EntryPrefix(ns) + "h:" + sum;
    SameTail(name, sum);
  }

  lemma SameTail(name: string, sum: string)
    requires |sum| == 64 <= |name| && name[|name| - 64..] == sum
    ensures EndsInLowerHex(name) <==> forall i :: 0 <= i < 64 ==> IsLowerHex(sum[i])
  {
    forall i | 0 <= i < 64
      ensures sum[i] == name[i + (|name| - 64)]
    {
    }
  }

  function LongKey(n: nat): (s: string)
    ensures |s| == n
  {
    if n == 0 then "" else "a" + LongKey(n - 1)
  }

  lemma {:induction false} LongKeyIsClean(n: nat)
    ensures CleanUtf8(LongKey(n))
  {
    if n == 0 {
    } else {
      LongKeyIsClean(n - 1);
      assert LongKey(n)[1..] == LongKey(n - 1);
    }
  }

  /** Every digest is the hash of some key that is stored hashed. */
  lemma DigestIsStorable(ns: string, d: string)
    requires IsDigest(d)
    ensures Storable(ns, true, EntryPrefix(ns) + "h:" + Hex(d))
  {
    var hash: string -> string := k => d;
    var key := LongKey(MAX_KEY_BYTES + 1);
    LongKeyIsClean(MAX_KEY_BYTES + 1);
    assert DigestFunction(hash);
    assert PhysicalKey(ns, true, hash, key) == Ok(EntryPrefix(ns) + "h:" + Hex(d));
  }

  /** What is stored is accepted, and says under which key it may be stored. */
  lemma StoredNames(ns: string, h: bool, hash: string -> string, key: string)
    requires DigestFunction(hash) && PhysicalKey(ns, h, hash, key).Ok?
    requires EventKey(ns, PhysicalKey(ns, h, hash, key).value) == Some("")
    ensures h && EndsInLowerHex(PhysicalKey(ns, h, hash, key).value)
  {
    EventKeyAcceptsPhysicalKeys(ns, h, hash, key);
    assert IsDigest(hash(key));
    HexIsLower(hash(key));
    var name := PhysicalKey(ns, h, hash, key).value;
    assert name == EntryPrefix(ns) + "h:" + Hex(hash(key));
    SameTail(name, Hex(hash(key)));
  }

  lemma KindOfAccepted(ns: string, name: string)
    requires EventKey(ns, name).Some?
    ensures EventKey(ns, name).value != "" <==> EntryPrefix(ns) + "k:" <= name
  {
    var p := EntryPrefix(ns);
    var rest := name[|p|..];
    assert name == p + rest;
    if "k:" <= rest {
      assert name == (p + "k:") + rest[2..];
    }
  }

  /**
    An event name that is accepted names a key the cache could have stored exactly when it is of kind k,
    or the cache hashes long keys and the digits are lower-case. The check looks at neither of the latter.
   */
  lemma AcceptedNamesStoredExactlyWhen(ns: string, name: string, h: bool)
    requires EventKey(ns, name).Some?
    ensures Storable(ns, h, name) <==> EntryPrefix(ns) + "k:" <= name || (h && EndsInLowerHex(name))
  {
    KindOfAccepted(ns, name);
    hide PhysicalKey, EventKey;
    if EventKey(ns, name).value != "" {
      var hash: string -> string := k => seq(SHA256_SIZE, i => '0');
      assert DigestFunction(hash);
      EventKeyReportsOnlyItsOwn(ns, name, h, hash);
    } else {
      forall hash: string -> string, key | DigestFunction(hash) && PhysicalKey(ns, h, hash, key) == Ok(name)
        ensures h && EndsInLowerHex(name)
      {
        StoredNames(ns, h, hash, key);
      }
      if h && EndsInLowerHex(name) {
        var sum := HashedNameParts(ns, name);
        var d := LowerHexIsHexOf(sum);
        assert IsDigest(d);
        DigestIsStorable(ns, d);
      }
    }
  }

  lemma HashedNameAccepted(ns: string, sum: string)
    requires |sum| == 2 * SHA256_SIZE && HexDecodes(sum)
    ensures EventKey(ns, EntryPrefix(ns) + "h:" + sum) == Some("")
  {
    assert EntryPrefix(ns) + "h:" + sum == EntryPrefix(ns) + ("h:" + sum);
    CutAppended(EntryPrefix(ns), "h:" + sum);
    assert ("h:" + sum)[0] == 'h';
    assert !("k:" <= "h:" + sum);
    CutAppended("h:", sum);
  }

  /** An upper-case name is accepted, and no cache of the namespace stores anything under it. */
  lemma UpperCaseNameAdmitted(ns: string, h: bool)
    ensures exists name :: EventKey(ns, name) == Some("") && !Storable(ns, h, name)
  {
    var sum := seq(64, i => 'A');
    var name := EntryPrefix(ns) + "h:" + sum;
    HashedNameAccepted(ns, sum);
    assert name[|name| - 1] == 'A';
    AcceptedNamesStoredExactlyWhen(ns, name, h);
  }

  /** A cache that does not hash keys accepts every hashed name, though it stores nothing under any. */
  lemma UnhashedCacheAdmitsDigests(ns: string, d: string)
    requires IsDigest(d)
    ensures EventKey(ns, EntryPrefix(ns) + "h:" + Hex(d)) == Some("")
    ensures !Storable(ns, false, EntryPrefix(ns) + "h:" + Hex(d))
  {
    HexIsLower(d);
    HashedNameAccepted(ns, Hex(d));
    AcceptedNamesStoredExactlyWhen(ns, EntryPrefix(ns) + "h:" + Hex(d), false);
  }

  // ---- Flight keys ----

  function Digit(n: int): (c: char)
    requires 0 <= n < 10
    ensures '0' <= c <= '9' && c as int == '0' as int + n
  {
    ('0' as int + n) as char
  }

  function Decimal(n: nat): (s: string)
    ensures s != "" && (|s| >= 2 <==> n >= 10)
    ensures forall i :: 0 <= i < |s| ==> '0' <= s[i] <= '9'
  {
    if n < 10 then [Digit(n)] else Decimal(n / 10) + [Digit(n % 10)]
  }

  lemma {:induction false} DecimalInjective(a: nat, b: nat)
    requires Decimal(a) == Decimal(b)
    ensures a == b
  {
    var s := Decimal(a);
    assert s[|s| - 1] == Digit(a % 10) && s[|s| - 1] == Digit(b % 10);
    if a >= 10 {
      assert s[..|s| - 1] == Decimal(a / 10) && s[..|s| - 1] == Decimal(b / 10);
      DecimalInjective(a / 10, b / 10);
    }
  }

  function Join(parts: seq<string>, sep: char): string {
    if parts == [] then ""
    else if |parts| == 1 then parts[0]
    else parts[0] + [sep] + Join(parts[1..], sep)
  }

  lemma {:induction false} JoinSnoc(parts: seq<string>, last: string, sep: char)
    requires parts != []
    ensures Join(parts + [last], sep) == Join(parts, sep) + [sep] + last
  {
    var all := parts + [last];
    if |parts| == 1 {
      assert all[1..] == [last];
    } else {
      assert all[1..] == parts[1..] + [last];
      JoinSnoc(parts[1..], last, sep);
      assert Join(all, sep) == parts[0] + [sep] + (Join(parts[1..], sep) + [sep] + last);
    }
  }

  ghost predicate Joinable(parts: seq<string>, sep: char) {
    forall i :: 0 <= i < |parts| ==> parts[i] != "" && sep !in parts[i]
  }

  lemma {:induction false} JoinInjective(xs: seq<string>, ys: seq<string>, sep: char)
    requires Joinable(xs, sep) && Joinable(ys, sep)
    requires Join(xs, sep) == Join(ys, sep)
    ensures xs == ys
  {
    if |xs| <= 1 || |ys| <= 1 {
      JoinShort(xs, ys, sep);
      JoinShort(ys, xs, sep);
    } else {
      SplitUnique(xs[0], ys[0], Join(xs[1..], sep), Join(ys[1..], sep), sep);
      JoinInjective(xs[1..], ys[1..], sep);
      assert xs == [xs[0]] + xs[1..] && ys == [ys[0]] + ys[1..];
    }
  }

  lemma JoinShort(xs: seq<string>, ys: seq<string>, sep: char)
    requires Joinable(xs, sep) && Joinable(ys, sep)
    requires Join(xs, sep) == Join(ys, sep) && |xs| <= 1
    ensures xs == ys
  {
  }

  function Decimals(gens: seq<nat>): (parts: seq<string>)
    ensures |parts| == |gens| && forall i :: 0 <= i < |gens| ==> parts[i] == Decimal(gens[i])
  {
    seq(|gens|, i requires 0 <= i < |gens| => Decimal(gens[i]))
  }

  /** What concurrent loads are coalesced by; `gens` is None when the generations could not be read. */
  function FlightKey(pk: string, tagged: bool, genKeys: seq<string>, gens: Option<seq<nat>>): string {
    if !tagged then pk
    else match gens
      case None => pk + "\0?\0" + Join(genKeys, '\0')
      case Some(gs) => pk + "\0" + Join(Decimals(gs), '.')
  }

  /** The builder loop of flightKey computes the key above. */
  method BuildFlightKey(pk: string, tagged: bool, genKeys: seq<string>, gens: Option<seq<nat>>) returns (r: string)
    ensures r == FlightKey(pk, tagged, genKeys, gens)
  {
    hide Decimal, Decimals;
    if !tagged {
      return pk;
    }
    if gens.None? {
      return pk + "\0?\0" + Join(genKeys, '\0');
    }
    var gs := gens.value;
    r := pk + "\0";
    for i := 0 to |gs|
      invariant r == pk + "\0" + Join(Decimals(gs[..i]), '.')
    {
      assert Decimals(gs[..i + 1]) == Decimals(gs[..i]) + [Decimal(gs[i])];
      if i > 0 {
        JoinSnoc(Decimals(gs[..i]), Decimal(gs[i]), '.');
        r := r + ".";
      }
      r := r + Decimal(gs[i]);
    }
    assert gs[..|gs|] == gs;
  }

  /** A slot as the protocol needs it: no NUL anywhere, and no empty counter key. */
  ghost predicate FlightSafe(pk: string, genKeys: seq<string>) {
    '\0' !in pk && Joinable(genKeys, '\0')
  }

  /** Physical keys and counter keys are flight safe. */
  lemma BuiltKeysAreFlightSafe(ns: string, h: bool, hash: string -> string, key: string, tags: seq<string>,
                               genKeys: seq<string>)
    requires DigestFunction(hash) && ValidNamespace(ns) && PhysicalKey(ns, h, hash, key).Ok?
    requires |tags| == |genKeys| && forall i :: 0 <= i < |tags| ==> GenKey(ns, tags[i]) == Ok(genKeys[i])
    ensures FlightSafe(PhysicalKey(ns, h, hash, key).value, genKeys)
  {
    var pk := PhysicalKey(ns, h, hash, key).value;
    assert IsDigest(hash(key));
    assert pk == EntryPrefix(ns) + KeyTail(hash, key);
    if |key| <= MAX_KEY_BYTES {
      CleanIsPrintable(key);
    } else {
      HexIsLower(hash(key));
    }
    forall i | 0 <= i < |genKeys|
      ensures genKeys[i] != "" && '\0' !in genKeys[i]
    {
      assert GenKey(ns, tags[i]) == Ok(genKeys[i]);
      CleanIsPrintable(tags[i]);
      assert genKeys[i] == CounterPrefix(ns) + tags[i];
    }
  }

  /**
    Callers share a flight only when they agree on the physical key and on whether their generations
    were read, and then on those generations, or on their tags.
   */
  lemma FlightKeyInjective(pk1: string, pk2: string, ks1: seq<string>, ks2: seq<string>, g1: Option<seq<nat>>,
                           g2: Option<seq<nat>>)
    requires FlightSafe(pk1, ks1) && FlightSafe(pk2, ks2)
    requires FlightKey(pk1, true, ks1, g1) == FlightKey(pk2, true, ks2, g2)
    ensures pk1 == pk2 && g1 == g2
    ensures g1 == None ==> ks1 == ks2
  {
    var t1 := FlightTail(ks1, g1);
    var t2 := FlightTail(ks2, g2);
    assert FlightKey(pk1, true, ks1, g1) == pk1 + ['\0'] + t1;
    assert FlightKey(pk2, true, ks2, g2) == pk2 + ['\0'] + t2;
    SplitUnique(pk1, pk2, t1, t2, '\0');
    match (g1, g2) {
      case (None, None) =>
        assert t1[2..] == Join(ks1, '\0') && t2[2..] == Join(ks2, '\0');
        JoinInjective(ks1, ks2, '\0');
      case (Some(a), Some(b)) =>
        JoinInjective(Decimals(a), Decimals(b), '.');
        assert |a| == |b|;
        forall i | 0 <= i < |a|
          ensures a[i] == b[i]
        {
          assert Decimals(a)[i] == Decimals(b)[i];
          DecimalInjective(a[i], b[i]);
        }
        assert a == b;
      case (None, Some(b)) => KnownTailNeverStartsWithMark(b, t2);
      case (Some(a), None) => KnownTailNeverStartsWithMark(a, t1);
    }
  }

  ghost function FlightTail(ks: seq<string>, g: Option<seq<nat>>): string {
    match g
    case None => "?\0" + Join(ks, '\0')
    case Some(gs) => Join(Decimals(gs), '.')
  }

  lemma KnownTailNeverStartsWithMark(gens: seq<nat>, t: string)
    requires t == Join(Decimals(gens), '.')
    ensures t == "" || t[0] != '?'
  {
  }
}
