/** What a datagram says, written down on its bytes: parsing reads exactly this, and each error says what is wrong. */
module Reading {
  import opened Types
  import opened Packet
  import opened Codec

  // -------------------------------------------------------------------- UTF-8

  /** A Unicode scalar value: no surrogate. */
  type Scalar = c: int | 0 <= c < 0xD800 || 0xE000 <= c < 0x11_0000

  /** The bytes of a character in UTF-8 (section 3 of RFC 3629). */
  function Utf8(c: Scalar): Bytes {
    if c < 0x80 then [c]
    else if c < 0x800 then [0xC0 + c / 0x40, 0x80 + c % 0x40]
    else if c < 0x1_0000 then [0xE0 + c / 0x1000, 0x80 + c / 0x40 % 0x40, 0x80 + c % 0x40]
    else [0xF0 + c / 0x4_0000, 0x80 + c / 0x1000 % 0x40, 0x80 + c / 0x40 % 0x40, 0x80 + c % 0x40]
  }

  function Text(cs: seq<Scalar>): Bytes {
    if cs == [] then [] else Utf8(cs[0]) + Text(cs[1..])
  }

  /** Six-bit digits can be read off a number. */
  lemma Digits(x: nat, y: nat, z: nat)
    requires y < 0x40 && z < 0x40
    ensures
      var c := x * 0x1000 + y * 0x40 + z;
      c / 0x1000 == x && c / 0x40 == x * 0x40 + y && c / 0x40 % 0x40 == y && c % 0x40 == z
  {
  }

  lemma TwoBytes(a: byte, b: byte) returns (c: Scalar)
    requires 0xC2 <= a < 0xE0 && Continuation(b)
    ensures Utf8(c) == [a, b]
  {
    Digits(0, a - 0xC0, b - 0x80);
    c := (a as int - 0xC0) * 0x40 + (b - 0x80);
  }

  lemma ThreeBytes(a: byte, b: byte, d: byte) returns (c: Scalar)
    requires 0xE0 <= a < 0xF0 && Continuation(b) && Continuation(d)
    requires (a == 0xE0 ==> b >= 0xA0) && (a == 0xED ==> b < 0xA0)
    ensures Utf8(c) == [a, b, d]
  {
    Digits(a - 0xE0, b - 0x80, d - 0x80);
    c := (a as int - 0xE0) * 0x1000 + (b as int - 0x80) * 0x40 + (d - 0x80);
  }

  lemma FourBytes(a: byte, b: byte, d: byte, e: byte) returns (c: Scalar)
    requires 0xF0 <= a < 0xF5 && Continuation(b) && Continuation(d) && Continuation(e)
    requires (a == 0xF0 ==> b >= 0x90) && (a == 0xF4 ==> b < 0x90)
    ensures Utf8(c) == [a, b, d, e]
  {
    var x: nat := (a as int - 0xF0) * 0x40 + (b - 0x80);
    Digits(x, d - 0x80, e - 0x80);
    c := x * 0x1000 + (d as int - 0x80) * 0x40 + (e - 0x80);
    assert c / 0x1000 == x && x % 0x40 == b - 0x80 && c / 0x4_0000 == x / 0x40 == a - 0xF0;
  }

  /** The first character of well-formed bytes. */
  lemma FirstCharacter(s: Bytes) returns (c: Scalar, rest: Bytes)
    requires s != [] && ValidUtf8(s)
    ensures s == Utf8(c) + rest && ValidUtf8(rest) && |rest| < |s|
  {
    if s[0] < 0x80 {
      c, rest := s[0], s[1..];
    } else if s[0] < 0xE0 {
      c := TwoBytes(s[0], s[1]);
      rest := s[2..];
    } else if s[0] < 0xF0 {
      c := ThreeBytes(s[0], s[1], s[2]);
      rest := s[3..];
    } else {
      c := FourBytes(s[0], s[1], s[2], s[3]);
      rest := s[4..];
    }
  }

  lemma OneCharacterMore(c: Scalar, rest: Bytes)
    requires ValidUtf8(rest)
    ensures ValidUtf8(Utf8(c) + rest)
  {
    var s := Utf8(c) + rest;
    assert s[|Utf8(c)|..] == rest;
  }

  lemma {:induction false} TextIsValid(cs: seq<Scalar>)
    ensures ValidUtf8(Text(cs))
  {
    if cs != [] {
      TextIsValid(cs[1..]);
      OneCharacterMore(cs[0], Text(cs[1..]));
    }
  }

  lemma ValidIsText(s: Bytes) returns (cs: seq<Scalar>)
    requires ValidUtf8(s)
    ensures Text(cs) == s
    decreases |s|
  {
    if s == [] {
      cs := [];
    } else {
      var c, rest := FirstCharacter(s);
      var more := ValidIsText(rest);
      cs := [c] + more;
      assert cs[1..] == more;
    }
  }

  /** Bytes are well-formed exactly when they are the text of some characters. */
  lemma Utf8Iff(s: Bytes)
    ensures ValidUtf8(s) <==> exists cs :: Text(cs) == s
  {
    if ValidUtf8(s) { var cs := ValidIsText(s); }
    if exists cs :: Text(cs) == s {
      var cs :| Text(cs) == s;
      TextIsValid(cs);
    }
  }

  // ------------------------------------------------------------------- fields

  /** A layer of `n` bytes: the flags 0x7 and the length in twelve bits, then the vector. Anything may follow it. */
  ghost predicate LayerAt(b: Bytes, n: nat, vector: Bytes) {
    && |vector| + 2 <= |b| && n <= |b| && b[0] / 0x10 == 7 && (b[0] as int % 0x10) * 0x100 + b[1] == n
    && b[2..2 + |vector|] == vector
  }

  /** A name that ends at the first NUL of its field; what stands behind it is not looked at. */
  ghost predicate NameIn(field: Bytes, name: Bytes) {
    |name| < |field| && field[..|name|] == name && field[|name|] == 0 && 0 !in name && ValidUtf8(name)
  }

  lemma {:induction false} NameParsesIff(field: Bytes, name: Bytes)
    ensures ParseSourceName(field) == Done(name) <==> NameIn(field, name)
    ensures ParseSourceName(field) == Fail(SourceNameNotNullTerminated) <==> 0 !in field
    ensures ParseSourceName(field) == Fail(InvalidUtf8)
       <==> exists n | 0 <= n < |field| :: field[n] == 0 && 0 !in field[..n] && !ValidUtf8(field[..n])
  {
    var n := FirstZero(field);
    if n < |field| {
      assert 0 !in field[..n];
      assert field[n] in field;
      forall k | n < k <= |field| ensures 0 in field[..k] { assert field[..k][n] == 0; }
      if NameIn(field, name) { assert |name| == n; }
    }
  }

  /** The head of a layer parses to its length and vector. */
  lemma HeadParsesIff(b: Bytes, n: nat, v: byte)
    ensures ParsePduInfo(b, 4) == Done(PduInfo(n, v)) && n <= |b| <==> LayerAt(b, n, [0, 0, 0, v])
    ensures ParsePduInfo(b, 1) == Done(PduInfo(n, v)) && n <= |b| <==> LayerAt(b, n, [v])
  {
    if |b| >= 2 { assert (b[0] as int * 0x100 + b[1]) % 0x1000 == (b[0] as int % 0x10) * 0x100 + b[1]; }
    if |b| >= 3 { assert b[2..3] == [v] <==> b[2] == v; }
    if |b| >= 6 { assert b[2..6] == [b[2], b[3], b[4], b[5]]; }
  }

  // ------------------------------------------------------------------- layers

  ghost predicate DmpSays(m: Bytes, values: Bytes) {
    && LayerAt(m, 10 + |values|, [2]) && m[3] == 0xa1 && WordAt(m, 4, 0) && WordAt(m, 6, 1) && WordAt(m, 8, |values|)
    && |values| <= 513 && m[10..10 + |values|] == values
  }

  lemma DmpParsesIff(m: Bytes, values: Bytes)
    ensures ParseDmp(m) == Done(values) <==> DmpSays(m, values)
  {
    HeadParsesIff(m, 10 + |values|, 2);
  }

  /** The flags of byte 74, each its bit; the other five bits are not looked at. */
  ghost predicate OptionsSay(o: byte, d: DataFraming) {
    (o / 0x80 == 1 <==> d.preview) && (o / 0x40 % 2 == 1 <==> d.terminated) && (o / 0x20 % 2 == 1 <==> d.force)
  }

  ghost predicate DataSays(f: Bytes, n: nat, d: DataFraming) {
    && 77 <= n && LayerAt(f, n, [0, 0, 0, 2]) && NameIn(f[6..70], d.name)
    && f[70] == d.priority <= 200 && WordAt(f, 71, d.syncAddr) && d.syncAddr <= 63999 && f[73] == d.seqNo
    && OptionsSay(f[74], d) && WordAt(f, 75, d.universe) && 1 <= d.universe <= 63999
    && DmpSays(f[77..n], d.values)
  }

  lemma OptionsRead(o: byte)
    ensures (o / 0x80 % 2 != 0 <==> o / 0x80 == 1) && (o / 0x40 % 2 != 0 <==> o / 0x40 % 2 == 1)
    ensures o / 0x20 % 2 != 0 <==> o / 0x20 % 2 == 1
  {
  }

  /** The same, with the length that the layer gives. */
  lemma DataOfLength(f: Bytes, n: nat, d: DataFraming)
    requires 77 <= n && LayerAt(f, n, [0, 0, 0, 2])
    ensures ParseData(f) == Done(d) <==> DataSays(f, n, d)
  {
    HeadParsesIff(f, n, 2);
    NameParsesIff(f[6..70], d.name);
    DmpParsesIff(f[77..n], d.values);
    OptionsRead(f[74]);
    assert WordAt(f, 71, ReadBe16(f, 71)) && WordAt(f, 75, ReadBe16(f, 75));
    if ParseData(f) == Done(d) {
      assert ParseSourceName(f[6..70]) == Done(d.name) && ParseDmp(f[77..n]) == Done(d.values);
    }
    if DataSays(f, n, d) { assert ParseData(f).Done? && ParseData(f).value == d; }
  }

  lemma DataParsesIff(f: Bytes, d: DataFraming)
    ensures ParseData(f) == Done(d) <==> exists n: nat :: DataSays(f, n, d)
  {
    if ParseData(f) == Done(d) {
      var n := ParsePduInfo(f, 4).value.length;
      HeadParsesIff(f, n, 2);
      DataOfLength(f, n, d);
    }
    if exists n: nat :: DataSays(f, n, d) {
      var n: nat :| DataSays(f, n, d);
      DataOfLength(f, n, d);
    }
  }

  ghost predicate SyncSays(f: Bytes, s: SyncFraming) {
    LayerAt(f, 11, [0, 0, 0, 1]) && f[6] == s.seqNo && WordAt(f, 7, s.syncAddr) && 1 <= s.syncAddr <= 63999
  }

  lemma SyncParsesIff(f: Bytes, s: SyncFraming)
    ensures ParseSync(f) == Done(s) <==> SyncSays(f, s)
  {
    HeadParsesIff(f, 11, 1);
  }

  /** A page fills its layer, but for an odd byte at the end. */
  ghost predicate PageSays(m: Bytes, d: DiscoveryFraming) {
    && 8 <= |m| <= 1032 && LayerAt(m, |m|, [0, 0, 0, 1]) && m[6] == d.page <= m[7] == d.lastPage
    && |d.universes| == (|m| - 8) / 2 && Ascending(d.universes)
    && forall i | 0 <= i < |d.universes| :: WordAt(m, 8 + 2 * i, d.universes[i])
  }

  lemma PageParsesIff(m: Bytes, d: DiscoveryFraming)
    ensures ParseDiscoveryLayer(m, d.name) == Done(d) <==> PageSays(m, d)
  {
    HeadParsesIff(m, |m|, 1);
    if 8 <= |m| {
      var us := DecodeUniverses(m[8..], (|m| - 8) / 2);
      assert forall i | 0 <= i < |us| :: ReadBe16(m[8..], 2 * i) == ReadBe16(m, 8 + 2 * i);
      if PageSays(m, d) {
        forall i | 0 <= i < |us| ensures us[i] == d.universes[i] { assert WordAt(m, 8 + 2 * i, d.universes[i]); }
        assert us == d.universes;
      }
    }
  }

  ghost predicate DiscoverySays(f: Bytes, n: nat, d: DiscoveryFraming) {
    82 <= n && LayerAt(f, n, [0, 0, 0, 2]) && NameIn(f[6..70], d.name) && PageSays(f[74..n], d)
  }

  lemma DiscoveryParsesIff(f: Bytes, d: DiscoveryFraming)
    ensures ParseDiscovery(f) == Done(d) <==> exists n: nat :: DiscoverySays(f, n, d)
  {
    if ParseDiscovery(f) == Done(d) {
      var n := ParsePduInfo(f, 4).value.length;
      HeadParsesIff(f, n, 2);
      NameParsesIff(f[6..70], d.name);
      PageParsesIff(f[74..n], d);
      assert DiscoverySays(f, n, d);
    }
    if exists n: nat :: DiscoverySays(f, n, d) {
      var n: nat :| DiscoverySays(f, n, d);
      HeadParsesIff(f, n, 2);
      NameParsesIff(f[6..70], d.name);
      PageParsesIff(f[74..n], d);
    }
  }

  ghost predicate FramingSays(f: Bytes, data: PacketData) {
    match data
    case DataPacket(d) => exists n: nat :: DataSays(f, n, d)
    case SyncPacket(s) => SyncSays(f, s)
    case DiscoveryPacket(d) => exists n: nat :: DiscoverySays(f, n, d)
  }

  lemma ExtendedParsesIff(f: Bytes, data: PacketData)
    ensures ParseExtended(f) == Done(data) <==> !data.DataPacket? && FramingSays(f, data)
  {
    match data
    case DataPacket(_) =>
    case SyncPacket(s) =>
      SyncParsesIff(f, s);
      HeadParsesIff(f, 11, 1);
    case DiscoveryPacket(d) =>
      DiscoveryParsesIff(f, d);
      if exists n: nat :: DiscoverySays(f, n, d) {
        var n: nat :| DiscoverySays(f, n, d);
        HeadParsesIff(f, n, 2);
      }
  }

  /** A root layer of `n` bytes with the packet in it. */
  ghost predicate RootSays(r: Bytes, n: nat, p: Packet) {
    && 22 <= n && LayerAt(r, n, [0, 0, 0, if p.data.DataPacket? then 4 else 8])
    && r[6..22] == p.cid && FramingSays(r[22..n], p.data)
  }

  lemma RootParsesIff(r: Bytes, p: Packet)
    ensures ParseRoot(r) == Done(p) <==> exists n: nat :: RootSays(r, n, p)
  {
    var v: byte := if p.data.DataPacket? then 4 else 8;
    if ParseRoot(r) == Done(p) {
      var n := ParsePduInfo(r, 4).value.length;
      HeadParsesIff(r, n, v);
      FramingParses(r[22..n], p.data);
      assert RootSays(r, n, p);
    }
    if exists n: nat :: RootSays(r, n, p) {
      var n: nat :| RootSays(r, n, p);
      HeadParsesIff(r, n, v);
      FramingParses(r[22..n], p.data);
    }
  }

  lemma FramingParses(f: Bytes, data: PacketData)
    ensures FramingSays(f, data)
       <==> if data.DataPacket? then ParseData(f) == Done(data.data) else ParseExtended(f) == Done(data)
  {
    if data.DataPacket? { DataParsesIff(f, data.data); } else { ExtendedParsesIff(f, data); }
  }

  lemma PreambleParses(b: Bytes)
    ensures |b| >= 16 && !StartsWithPreamble(b) ==> Parse(b) == Fail(InvalidData)
    ensures StartsWithPreamble(b) ==> Parse(b) == ParseRoot(b[16..])
  {
    if 16 <= |b| {
      assert b[..16] == [b[0], b[1], b[2], b[3]] + b[4..16];
      assert E131_ACN_PACKET_IDENTIFIER == [0x41, 0x53, 0x43, 0x2d, 0x45, 0x31, 0x2e, 0x31, 0x37, 0, 0, 0];
    }
  }

  /** A buffer parses to a packet exactly when its bytes say so, whatever they hold beside its fields. */
  lemma ParsesIff(b: Bytes, p: Packet)
    ensures Parse(b) == Done(p) <==> StartsWithPreamble(b) && exists n: nat :: RootSays(b[16..], n, p)
  {
    PreambleParses(b);
    if StartsWithPreamble(b) { RootParsesIff(b[16..], p); }
  }

  // ------------------------------------------------------------------- errors

  /** The field holds a name. */
  ghost predicate Named(field: Bytes) { exists name :: NameIn(field, name) }

  lemma NamedIff(field: Bytes)
    ensures Named(field) <==> ParseSourceName(field).Done?
  {
    if ParseSourceName(field).Done? { NameParsesIff(field, ParseSourceName(field).value); }
    if Named(field) {
      var name :| NameIn(field, name);
      NameParsesIff(field, name);
    }
  }

  /** What can be wrong with the head of a layer whose vector has `k` bytes. */
  ghost predicate HeadWrong(b: Bytes, k: nat, e: ParseError) {
    if |b| < 2 + k then e == InsufficientData
    else if b[0] / 0x10 != 7 then e == InvalidFlags(b[0] / 0x10 * 0x10)
    else b[0] as int % 0x10 * 0x100 + b[1] > |b| && e == InsufficientData
  }

  /** Every layer is refused for its head first, with the same errors, and then for its vector. */
  lemma HeadErrors(b: Bytes, e: ParseError)
    ensures HeadWrong(b, 1, e) ==> ParseDmp(b) == Fail(e)
    ensures HeadWrong(b, 4, e) ==>
              && ParseData(b) == Fail(e) && ParseSync(b) == Fail(e) && ParseDiscovery(b) == Fail(e)
              && ParseExtended(b) == Fail(e) && ParseRoot(b) == Fail(e)
  {
    if |b| >= 2 { assert (b[0] as int * 0x100 + b[1]) % 0x1000 == (b[0] as int % 0x10) * 0x100 + b[1]; }
  }

  lemma VectorErrors(b: Bytes, n: nat, v: byte)
    ensures LayerAt(b, n, [v]) && v != 2 ==> ParseDmp(b) == Fail(InvalidVector(v))
    ensures LayerAt(b, n, [0, 0, 0, v]) ==>
              && (v != 2 ==> ParseData(b) == Fail(InvalidVector(v)) && ParseDiscovery(b) == Fail(InvalidVector(v)))
              && (v != 1 ==> ParseSync(b) == Fail(InvalidVector(v)))
              && (v != 1 && v != 2 ==> ParseExtended(b) == Fail(InvalidVector(v)))
              && (v != 4 && v != 8 ==> ParseRoot(b) == Fail(InvalidVector(v)))
  {
    HeadParsesIff(b, n, v);
  }

  /** A DMP layer is refused for its fixed fields first, then for its length, then for holding too much. */
  lemma DmpErrors(m: Bytes, n: nat)
    requires LayerAt(m, n, [2])
    ensures ParseDmp(m) == Fail(InvalidData)
       <==> || (|m| >= 4 && m[3] != 0xa1)
            || (|m| >= 6 && m[3] == 0xa1 && !WordAt(m, 4, 0))
            || (|m| >= 8 && m[3] == 0xa1 && WordAt(m, 4, 0) && !WordAt(m, 6, 1))
            || (|m| >= 10 && m[3] == 0xa1 && WordAt(m, 4, 0) && WordAt(m, 6, 1) && WordAt(m, 8, n - 10) && n > 523)
    ensures ParseDmp(m) == Fail(InsufficientData)
       <==> |m| >= 10 && m[3] == 0xa1 && WordAt(m, 4, 0) && WordAt(m, 6, 1) && !WordAt(m, 8, n - 10)
  {
    HeadParsesIff(m, n, 2);
  }

  /** The name and the priority, synchronisation address and universe behind it are right as far as they are there. */
  ghost predicate FrontRight(f: Bytes) { |f| >= 71 && Named(f[6..70]) && f[70] <= 200 }

  /** A data framing layer is refused for its first field that is wrong, and for the DMP layer's reason if none is. */
  lemma DataErrors(f: Bytes, n: nat, x: int, e: ParseError)
    requires LayerAt(f, n, [0, 0, 0, 2]) && 0 <= x < 0x1_0000
    ensures ParseData(f) == Fail(SourceNameNotNullTerminated) <==> |f| >= 70 && 0 !in f[6..70]
    ensures ParseData(f) == Fail(InvalidUtf8) <==> |f| >= 70 && 0 in f[6..70] && !Named(f[6..70])
    ensures x < 0x100 ==>
              (ParseData(f) == Fail(InvalidParsedPriority(x)) <==> |f| >= 71 && Named(f[6..70]) && f[70] == x > 200)
    ensures ParseData(f) == Fail(InvalidSyncAddr(x)) <==> |f| >= 73 && FrontRight(f) && WordAt(f, 71, x) && x > 63999
    ensures ParseData(f) == Fail(InvalidUniverse(x))
       <==> |f| >= 77 && FrontRight(f) && !(exists y | 63999 < y < 0x1_0000 :: WordAt(f, 71, y))
            && WordAt(f, 75, x) && !(1 <= x <= 63999)
    ensures ParseData(f) == Fail(e) && (e.InsufficientData? || e.InvalidData? || e.InvalidFlags? || e.InvalidVector?)
            ==> n >= 77 && ParseDmp(f[77..n]) == Fail(e)
  {
    HeadParsesIff(f, n, 2);
    if |f| >= 70 {
      NamedIff(f[6..70]);
      NameParsesIff(f[6..70], []);
    }
    if |f| >= 73 { assert WordAt(f, 71, ReadBe16(f, 71)); }
    if |f| >= 77 { assert WordAt(f, 75, ReadBe16(f, 75)); }
  }

  /** A synchronisation layer is refused for a length other than 11, then for its address. */
  lemma SyncErrors(f: Bytes, n: nat)
    requires LayerAt(f, n, [0, 0, 0, 1])
    ensures n != 11 ==> ParseSync(f) == Fail(InvalidLength(n))
    ensures forall x: u16 | n == 11 && WordAt(f, 7, x) && !(1 <= x <= 63999) :: ParseSync(f) == Fail(InvalidSyncAddr(x))
  {
    HeadParsesIff(f, n, 1);
  }

  /** A page is refused for a length that is not its layer's, too small or too large, for its number, for its list. */
  lemma PageErrors(m: Bytes, n: nat, name: Bytes)
    requires LayerAt(m, n, [0, 0, 0, 1])
    ensures n != |m| ==> ParseDiscoveryLayer(m, name) == Fail(InsufficientData)
    ensures n == |m| && !(8 <= n <= 1032) ==> ParseDiscoveryLayer(m, name) == Fail(InvalidLength(n))
    ensures n == |m| && 8 <= n <= 1032 && m[6] > m[7] ==> ParseDiscoveryLayer(m, name) == Fail(InvalidPage)
    ensures n == |m| && 8 <= n <= 1032 && m[6] <= m[7] ==>
              (ParseDiscoveryLayer(m, name) == Fail(InvalidUniverseOrder)
               <==> exists i, j | 0 <= i < j < (n - 8) / 2 :: ReadBe16(m, 8 + 2 * i) >= ReadBe16(m, 8 + 2 * j))
  {
    HeadParsesIff(m, n, 1);
    if n == |m| && 8 <= n <= 1032 {
      var us := DecodeUniverses(m[8..], (n - 8) / 2);
      forall i | 0 <= i < |us| ensures us[i] == ReadBe16(m, 8 + 2 * i) {
        assert ReadBe16(m[8..], 2 * i) == ReadBe16(m, 8 + 2 * i);
      }
      if !Ascending(us) {
        var i, j :| 0 <= i < j < |us| && us[i] >= us[j];
        assert ReadBe16(m, 8 + 2 * i) >= ReadBe16(m, 8 + 2 * j);
      } else {
        forall i, j | 0 <= i < j < (n - 8) / 2 ensures ReadBe16(m, 8 + 2 * i) < ReadBe16(m, 8 + 2 * j) {
          assert us[i] < us[j];
        }
      }
    }
  }

  /** A discovery layer is refused for a length under 82, then for its name, then for its page. */
  lemma DiscoveryErrors(f: Bytes, n: nat)
    requires LayerAt(f, n, [0, 0, 0, 2])
    ensures n < 82 ==> ParseDiscovery(f) == Fail(InvalidLength(n))
    ensures n >= 82 && 0 !in f[6..70] ==> ParseDiscovery(f) == Fail(SourceNameNotNullTerminated)
    ensures n >= 82 && 0 in f[6..70] && !Named(f[6..70]) ==> ParseDiscovery(f) == Fail(InvalidUtf8)
    ensures forall name | n >= 82 && NameIn(f[6..70], name) :: ParseDiscovery(f) == ParseDiscoveryLayer(f[74..n], name)
  {
    HeadParsesIff(f, n, 2);
    if n >= 82 {
      NamedIff(f[6..70]);
      NameParsesIff(f[6..70], []);
      forall name | NameIn(f[6..70], name) ensures ParseSourceName(f[6..70]) == Done(name) {
        NameParsesIff(f[6..70], name);
      }
    }
  }

  /** A buffer is refused for being short, then for its preamble, then for the head of its root layer. */
  lemma ParseErrors(b: Bytes, e: ParseError)
    ensures |b| < 16 ==> Parse(b) == Fail(InsufficientData)
    ensures |b| >= 16 && !StartsWithPreamble(b) ==> Parse(b) == Fail(InvalidData)
    ensures StartsWithPreamble(b) && HeadWrong(b[16..], 4, e) ==> Parse(b) == Fail(e)
  {
    PreambleParses(b);
    if StartsWithPreamble(b) { HeadErrors(b[16..], e); }
  }

  /** Behind a right root head, a buffer is refused for what its framing layer is refused for. */
  lemma RootErrors(b: Bytes, n: nat, e: ParseError)
    requires StartsWithPreamble(b) && 22 <= n <= |b| - 16
    ensures LayerAt(b[16..], n, [0, 0, 0, 4]) && ParseData(b[38..16 + n]) == Fail(e) ==> Parse(b) == Fail(e)
    ensures LayerAt(b[16..], n, [0, 0, 0, 8]) && ParseExtended(b[38..16 + n]) == Fail(e) ==> Parse(b) == Fail(e)
  {
    var root := b[16..];
    assert root[22..n] == b[38..16 + n];
    HeadParsesIff(root, n, 4);
    HeadParsesIff(root, n, 8);
    PreambleParses(b);
  }
}
