/** Packing and parsing are inverse on exactly the valid packets, and parsing only ever yields valid packets. */
module Codec {
  import opened Types
  import opened Packet

  lemma PduInfoOfHead(n: nat, v: byte, rest: Bytes)
    requires n < 0x1000
    ensures ParsePduInfo(FlagsAndLength(n) + Be32(v) + rest, 4) == Done(PduInfo(n, v))
  {
    var b := FlagsAndLength(n) + Be32(v) + rest;
    assert b[0] == (0x7000 + n) / 0x100 && b[1] == n % 0x100;
    assert b[2] == 0 && b[3] == 0 && b[4] == 0 && b[5] == v;
  }

  lemma DmpHeadFields(count: nat)
    requires count <= UNIVERSE_CHANNEL_CAPACITY
    ensures
      var h := EncodeDmpHead(count);
      && h[0] == (0x7000 + 10 + count) / 0x100 && h[1] == (10 + count) % 0x100 && h[2] == VECTOR_DMP_SET_PROPERTY
      && h[3] == 0xa1 && ReadBe16(h, 4) == 0 && ReadBe16(h, 6) == 1 && ReadBe16(h, 8) == count
  {
    var h := EncodeDmpHead(count);
    assert h[..2] == FlagsAndLength(10 + count) && h[2..4] == [VECTOR_DMP_SET_PROPERTY, 0xa1];
    assert h[4..6] == Be16(0) && h[6..8] == Be16(1) && h[8..] == Be16(count);
  }

  lemma DmpRoundTrip(values: Bytes)
    requires |values| <= UNIVERSE_CHANNEL_CAPACITY
    ensures ParseDmp(EncodeDmp(values)) == Done(values)
  {
    DmpHeadFields(|values|);
    ParseDmpParts(EncodeDmpHead(|values|), values);
  }

  lemma ParseDmpParts(h: Bytes, values: Bytes)
    requires |h| == 10 && |values| <= UNIVERSE_CHANNEL_CAPACITY
    requires h[0] == (0x7000 + 10 + |values|) / 0x100 && h[1] == (10 + |values|) % 0x100
    requires h[2] == VECTOR_DMP_SET_PROPERTY && h[3] == 0xa1
    requires ReadBe16(h, 4) == 0 && ReadBe16(h, 6) == 1 && ReadBe16(h, 8) == |values|
    ensures ParseDmp(h + values) == Done(values)
  {
    var b := h + values;
    assert forall i | 0 <= i < 10 :: b[i] == h[i];
    assert ParsePduInfo(b, 1) == Done(PduInfo(10 + |values|, VECTOR_DMP_SET_PROPERTY));
    assert b[10..10 + |values|] == values;
  }

  lemma {:induction false} FirstZeroOfPadded(name: Bytes, zeros: nat)
    requires forall i | 0 <= i < |name| :: name[i] != 0
    ensures FirstZero(name + Zeros(zeros)) == |name|
  {
    var b := name + Zeros(zeros);
    assert forall i | 0 <= i < |name| :: b[i] == name[i];
    assert zeros > 0 ==> b[|name|] == 0;
  }

  lemma NameRoundTrip(name: Bytes)
    requires ValidName(name)
    ensures ParseSourceName(PadName(name)) == Done(name)
  {
    FirstZeroOfPadded(name, SOURCE_NAME_LENGTH - |name|);
    assert PadName(name)[..|name|] == name;
  }

  lemma OptionBitsRoundTrip(preview: bool, terminated: bool, force: bool)
    ensures
      var o := OptionBits(preview, terminated, force);
      (o / 0x80 % 2 != 0) == preview && (o / 0x40 % 2 != 0) == terminated && (o / 0x20 % 2 != 0) == force
  {
  }

  /** Each field of a data packet's framing layer stands where the parser looks for it. */
  lemma DataHeadFields(d: DataFraming)
    ensures
      var h := EncodeDataHead(d);
      && h == FlagsAndLength(DataLen(d)) + Be32(VECTOR_E131_DATA_PACKET) + h[6..]
      && h[6..70] == PadName(d.name) && h[70] == d.priority && ReadBe16(h, 71) == d.syncAddr && h[73] == d.seqNo
      && h[74] == OptionBits(d.preview, d.terminated, d.force) && ReadBe16(h, 75) == d.universe
  {
    var h, back := EncodeDataHead(d), EncodeDataBack(d);
    assert h[..70] == EncodeDataFront(d);
    assert back[0] == h[70] && back[1] == h[71] && back[2] == h[72];
    assert back[3] == h[73] && back[4] == h[74] && back[5] == h[75] && back[6] == h[76];
  }

  lemma DataRoundTrip(d: DataFraming)
    requires Valid(Packet(Zeros(16), DataPacket(d)))
    ensures ParseData(EncodeData(d)) == Done(d)
  {
    var h, tail := EncodeDataHead(d), EncodeDmp(d.values);
    DmpRoundTrip(d.values);
    DataHeadFields(d);
    NameRoundTrip(d.name);
    OptionBitsRoundTrip(d.preview, d.terminated, d.force);
    PduInfoOfHead(DataLen(d), VECTOR_E131_DATA_PACKET, h[6..] + tail);
    ParseDataParts(h, tail, d);
  }

  lemma ParseDataParts(h: Bytes, tail: Bytes, d: DataFraming)
    requires |h| == 77 && |h + tail| < 0x1000
    requires h == FlagsAndLength(77 + |tail|) + Be32(VECTOR_E131_DATA_PACKET) + h[6..]
    requires ParseSourceName(h[6..70]) == Done(d.name) && h[70] == d.priority <= E131_MAX_PRIORITY
    requires ReadBe16(h, 71) == d.syncAddr <= E131_MAX_MULTICAST_UNIVERSE && h[73] == d.seqNo
    requires h[74] == OptionBits(d.preview, d.terminated, d.force) && ReadBe16(h, 75) == d.universe
    requires InDataRange(d.universe) && ParseDmp(tail) == Done(d.values)
    ensures ParseData(h + tail) == Done(d)
  {
    var b := h + tail;
    PduInfoOfHead(|b|, VECTOR_E131_DATA_PACKET, h[6..] + tail);
    assert b == FlagsAndLength(|b|) + Be32(VECTOR_E131_DATA_PACKET) + (h[6..] + tail);
    assert b[6..70] == h[6..70];
    assert b[77..|b|] == tail;
    OptionBitsRoundTrip(d.preview, d.terminated, d.force);
  }

  lemma SyncRoundTrip(s: SyncFraming)
    requires InDataRange(s.syncAddr)
    ensures ParseExtended(EncodeSync(s)) == Done(SyncPacket(s))
  {
    var b := EncodeSync(s);
    PduInfoOfHead(SyncLen(), VECTOR_E131_EXTENDED_SYNCHRONIZATION, b[6..]);
    assert b == FlagsAndLength(SyncLen()) + Be32(VECTOR_E131_EXTENDED_SYNCHRONIZATION) + b[6..];
    assert b[6] == s.seqNo;
    assert ReadBe16(b, 7) == s.syncAddr;
  }

  lemma DiscoveryLayerRoundTrip(d: DiscoveryFraming)
    requires Valid(Packet(Zeros(16), DiscoveryPacket(d)))
    ensures ParseDiscoveryLayer(EncodeDiscoveryLayer(d), d.name) == Done(d)
  {
    var b := EncodeDiscoveryLayer(d);
    PduInfoOfHead(DiscoveryLayerLen(d), VECTOR_UNIVERSE_DISCOVERY_UNIVERSE_LIST, b[6..]);
    assert b == FlagsAndLength(DiscoveryLayerLen(d)) + Be32(VECTOR_UNIVERSE_DISCOVERY_UNIVERSE_LIST) + b[6..];
    assert b[6] == d.page && b[7] == d.lastPage;
    assert b[8..] == EncodeUniverses(d.universes);
    assert DecodeUniverses(b[8..], |d.universes|) == d.universes;
  }

  lemma DiscoveryRoundTrip(d: DiscoveryFraming)
    requires Valid(Packet(Zeros(16), DiscoveryPacket(d)))
    ensures ParseExtended(EncodeDiscovery(d)) == Done(DiscoveryPacket(d))
  {
    var name, tail := PadName(d.name), EncodeDiscoveryLayer(d);
    NameRoundTrip(d.name);
    DiscoveryLayerRoundTrip(d);
    ParseDiscoveryParts(name, tail, d);
    assert EncodeDiscovery(d)
        == FlagsAndLength(74 + |tail|) + Be32(VECTOR_E131_EXTENDED_DISCOVERY) + name + Zeros(4) + tail;
  }

  lemma ParseDiscoveryParts(name: Bytes, tail: Bytes, d: DiscoveryFraming)
    requires |name| == SOURCE_NAME_LENGTH && 8 <= |tail| && 74 + |tail| < 0x1000
    requires ParseSourceName(name) == Done(d.name) && ParseDiscoveryLayer(tail, d.name) == Done(d)
    ensures
      var b := FlagsAndLength(74 + |tail|) + Be32(VECTOR_E131_EXTENDED_DISCOVERY) + name + Zeros(4) + tail;
      ParseExtended(b) == Done(DiscoveryPacket(d))
  {
    var n := 74 + |tail|;
    var b := FlagsAndLength(n) + Be32(VECTOR_E131_EXTENDED_DISCOVERY) + name + Zeros(4) + tail;
    PduInfoOfHead(n, VECTOR_E131_EXTENDED_DISCOVERY, b[6..]);
    assert b == FlagsAndLength(n) + Be32(VECTOR_E131_EXTENDED_DISCOVERY) + b[6..];
    assert b[6..70] == name;
    assert b[74..n] == tail;
  }

  /** What the parser finds of a root layer: its length and vector, the identifier and the framing layer. */
  lemma RootOpens(p: Packet, slack: Bytes)
    requires PackOk(p)
    ensures
      var (b, n) := (EncodeRoot(p) + slack, RootLen(p));
      && ParsePduInfo(b, 4) == Done(PduInfo(n, RootVector(p.data)))
      && b[6..22] == p.cid && b[22..n] == EncodeFraming(p.data)
  {
    var b, n := EncodeRoot(p) + slack, RootLen(p);
    PackedFitsReceiveBuffer(p);
    PduInfoOfHead(n, RootVector(p.data), b[6..]);
    assert b == FlagsAndLength(n) + Be32(RootVector(p.data)) + b[6..];
    assert b[6..22] == p.cid;
    assert b[22..n] == EncodeFraming(p.data);
  }

  lemma RootRoundTrip(p: Packet, slack: Bytes)
    requires Valid(p)
    ensures ParseRoot(EncodeRoot(p) + slack) == Done(p)
  {
    RootOpens(p, slack);
    match p.data
    case DataPacket(d) => DataRoundTrip(d);
    case SyncPacket(s) => SyncRoundTrip(s);
    case DiscoveryPacket(u) => DiscoveryRoundTrip(u);
  }

  lemma PreambleIsSkipped(rest: Bytes)
    ensures Parse(Preamble() + rest) == ParseRoot(rest)
  {
    var b := Preamble() + rest;
    assert b[0] == 0 && b[1] == 0x10 && b[2] == 0 && b[3] == 0;
    assert b[4..16] == E131_ACN_PACKET_IDENTIFIER && b[16..] == rest;
  }

  lemma EncodeBehindPreamble(p: Packet, slack: Bytes)
    ensures Encode(p) + slack == Preamble() + (EncodeRoot(p) + slack)
  {
  }

  /** Whatever follows a valid packet in the buffer, parsing returns the packet. */
  lemma RoundTrip(p: Packet, slack: Bytes)
    requires Valid(p)
    ensures Parse(Encode(p) + slack) == Done(p)
  {
    EncodeBehindPreamble(p, slack);
    PreambleIsSkipped(EncodeRoot(p) + slack);
    RootRoundTrip(p, slack);
  }

  /** Parsing establishes every range that packing and parsing check. */
  lemma ParsedIsValid(b: Bytes)
    requires Parse(b).Done?
    ensures Valid(Parse(b).value)
  {
    var root := b[16..];
    var pdu := ParsePduInfo(root, 4).value;
    var f := root[22..pdu.length];
    if pdu.vector == VECTOR_ROOT_E131_DATA {
      ParsedDataIsValid(f);
    } else {
      ParsedExtendedIsValid(f);
    }
  }

  lemma ParsedNameIsValid(b: Bytes)
    requires |b| == SOURCE_NAME_LENGTH && ParseSourceName(b).Done?
    ensures ValidName(ParseSourceName(b).value)
  {
  }

  lemma ParsedDataIsValid(f: Bytes)
    requires ParseData(f).Done?
    ensures Valid(Packet(Zeros(16), DataPacket(ParseData(f).value)))
  {
    ParsedNameIsValid(f[6..70]);
  }

  lemma ParsedExtendedIsValid(f: Bytes)
    requires ParseExtended(f).Done?
    ensures Valid(Packet(Zeros(16), ParseExtended(f).value))
  {
    if ParsePduInfo(f, 4).value.vector == VECTOR_E131_EXTENDED_DISCOVERY {
      ParsedNameIsValid(f[6..70]);
    }
  }

  /** The round trip holds for exactly the valid ones among the packets that can be packed. */
  lemma RoundTripIffValid(p: Packet, slack: Bytes)
    requires PackOk(p)
    ensures Parse(Encode(p) + slack) == Done(p) <==> ValidFields(p)
  {
    if ValidFields(p) {
      RoundTrip(p, slack);
    } else if Parse(Encode(p) + slack) == Done(p) {
      ParsedIsValid(Encode(p) + slack);
    }
  }

  lemma RootFails(root: Bytes, n: nat, vector: byte, e: ParseError)
    requires ParsePduInfo(root, 4) == Done(PduInfo(n, vector)) && 22 <= n <= |root|
    requires vector == VECTOR_ROOT_E131_DATA || vector == VECTOR_ROOT_E131_EXTENDED
    requires vector == VECTOR_ROOT_E131_DATA ==> ParseData(root[22..n]) == Fail(e)
    requires vector == VECTOR_ROOT_E131_EXTENDED ==> ParseExtended(root[22..n]) == Fail(e)
    ensures ParseRoot(root) == Fail(e)
  {
  }

  lemma FailurePropagates(p: Packet, slack: Bytes, e: ParseError)
    requires PackOk(p)
    requires p.data.DataPacket? ==> ParseData(EncodeFraming(p.data)) == Fail(e)
    requires !p.data.DataPacket? ==> ParseExtended(EncodeFraming(p.data)) == Fail(e)
    ensures Parse(Encode(p) + slack) == Fail(e)
  {
    var root := EncodeRoot(p) + slack;
    RootOpens(p, slack);
    RootFails(root, RootLen(p), RootVector(p.data), e);
    PreambleIsSkipped(root);
    EncodeBehindPreamble(p, slack);
  }

  /** No NUL in the name's field. */
  predicate FillsField(name: Bytes) {
    SOURCE_NAME_LENGTH <= |name| && forall i | 0 <= i < SOURCE_NAME_LENGTH :: name[i] != 0
  }

  lemma LongNameDataFails(d: DataFraming)
    requires FillsField(d.name) && |d.values| <= UNIVERSE_CHANNEL_CAPACITY
    ensures ParseData(EncodeData(d)) == Fail(SourceNameNotNullTerminated)
  {
    var h, f := EncodeDataHead(d), EncodeData(d);
    DataHeadFields(d);
    PduInfoOfHead(DataLen(d), VECTOR_E131_DATA_PACKET, f[6..]);
    assert f == FlagsAndLength(DataLen(d)) + Be32(VECTOR_E131_DATA_PACKET) + f[6..];
    assert f[6..70] == h[6..70] == PadName(d.name);
  }

  lemma LongNameDiscoveryFails(d: DiscoveryFraming)
    requires FillsField(d.name) && |d.universes| <= DISCOVERY_UNI_PER_PAGE
    ensures ParseExtended(EncodeDiscovery(d)) == Fail(SourceNameNotNullTerminated)
  {
    var f := EncodeDiscovery(d);
    DiscoveryFieldsOf(d);
    PduInfoOfHead(DiscoveryLen(d), VECTOR_E131_EXTENDED_DISCOVERY, f[6..]);
    assert f == FlagsAndLength(DiscoveryLen(d)) + Be32(VECTOR_E131_EXTENDED_DISCOVERY) + f[6..];
  }

  /** A packet whose name leaves no room for its NUL packs, and never parses again. */
  lemma LongNameFails(p: Packet, slack: Bytes)
    requires PackOk(p) && FillsField(NameOf(p))
    ensures Parse(Encode(p) + slack) == Fail(SourceNameNotNullTerminated)
  {
    match p.data
    case DataPacket(d) =>
      LongNameDataFails(d);
      FailurePropagates(p, slack, SourceNameNotNullTerminated);
    case DiscoveryPacket(u) =>
      LongNameDiscoveryFails(u);
      FailurePropagates(p, slack, SourceNameNotNullTerminated);
    case SyncPacket(_) =>
  }

  /** A data packet on a universe that is none for data packs, and never parses again. */
  lemma IllegalUniverseFails(p: Packet, d: DataFraming, slack: Bytes)
    requires PackOk(p) && p.data == DataPacket(d) && !InDataRange(d.universe)
    requires ValidName(d.name) && d.priority <= E131_MAX_PRIORITY && d.syncAddr <= E131_MAX_MULTICAST_UNIVERSE
    ensures Parse(Encode(p) + slack) == Fail(InvalidUniverse(d.universe))
  {
    var f, h := EncodeData(d), EncodeDataHead(d);
    DataHeadFields(d);
    NameRoundTrip(d.name);
    PduInfoOfHead(DataLen(d), VECTOR_E131_DATA_PACKET, f[6..]);
    assert f == FlagsAndLength(DataLen(d)) + Be32(VECTOR_E131_DATA_PACKET) + f[6..];
    assert f[6..70] == h[6..70] && forall i | 70 <= i < 77 :: f[i] == h[i];
    FailurePropagates(p, slack, InvalidUniverse(d.universe));
  }

  /** The same of a synchronisation packet. */
  lemma IllegalSyncAddressFails(p: Packet, s: SyncFraming, slack: Bytes)
    requires p.data == SyncPacket(s) && !InDataRange(s.syncAddr)
    ensures Parse(Encode(p) + slack) == Fail(InvalidSyncAddr(s.syncAddr))
  {
    var f := EncodeSync(s);
    PduInfoOfHead(SyncLen(), VECTOR_E131_EXTENDED_SYNCHRONIZATION, f[6..]);
    assert f == FlagsAndLength(SyncLen()) + Be32(VECTOR_E131_EXTENDED_SYNCHRONIZATION) + f[6..];
    assert ReadBe16(f, 7) == s.syncAddr;
    FailurePropagates(p, slack, InvalidSyncAddr(s.syncAddr));
  }

  /** Parsing normalises: what was parsed can be packed, and parses again to the same packet. */
  lemma ParseNormalises(b: Bytes, slack: Bytes)
    requires Parse(b).Done?
    ensures
      var p := Parse(b).value;
      Valid(p) && Parse(Encode(p) + slack) == Done(p)
  {
    ParsedIsValid(b);
    RoundTrip(Parse(b).value, slack);
  }

  /** Two different valid packets never share their bytes. */
  lemma EncodeInjective(p: Packet, q: Packet)
    requires Valid(p) && Valid(q) && Encode(p) == Encode(q)
    ensures p == q
  {
    RoundTrip(p, []);
    RoundTrip(q, []);
  }

  /** No packet that packs is longer than the receive buffer, and no nested length needs more than twelve bits. */
  lemma PackedFitsReceiveBuffer(p: Packet)
    requires PackOk(p)
    ensures |Encode(p)| <= RCV_BUF_DEFAULT_SIZE && RootLen(p) < 0x1000
  {
  }

  // ------------------------------------------------------------------- layout

  /** The 16-bit number at `i`, most significant byte first. */
  ghost predicate WordAt(b: Bytes, i: nat, v: int) {
    i + 2 <= |b| && b[i] as int * 0x100 + b[i + 1] == v
  }

  /** The preamble: its size, no post-amble, and "ASC-E1.17" padded to twelve bytes. */
  ghost predicate StartsWithPreamble(b: Bytes) {
    16 <= |b| && b[..16] == [0, 16, 0, 0, 0x41, 0x53, 0x43, 0x2d, 0x45, 0x31, 0x2e, 0x31, 0x37, 0, 0, 0]
  }

  /** What every packet starts with: preamble, root layer length, vector and source identifier. */
  ghost predicate RootLayout(b: Bytes, vector: byte, cid: Cid) {
    && 38 <= |b| && StartsWithPreamble(b)
    && WordAt(b, 16, 0x7000 + |b| - 16) && b[18..22] == [0, 0, 0, vector] && b[22..38] == cid
  }

  /** The name, then nothing but NULs. */
  ghost predicate PaddedName(field: Bytes, name: Bytes) {
    |name| < |field| == 64 && field[..|name|] == name && forall i | |name| <= i < 64 :: field[i] == 0
  }

  /** Each flag is its bit of the options byte, and no other bit is set. */
  ghost predicate OptionsAre(o: byte, d: DataFraming) {
    && (o / 0x80 == 1 <==> d.preview) && (o / 0x40 % 2 == 1 <==> d.terminated) && (o / 0x20 % 2 == 1 <==> d.force)
    && o % 0x20 == 0
  }

  lemma RootStands(p: Packet)
    requires Valid(p)
    ensures RootLayout(Encode(p), RootVector(p.data), p.cid)
    ensures Encode(p)[38..] == EncodeFraming(p.data)
  {
    var length, vector, framing := FlagsAndLength(RootLen(p)), Be32(RootVector(p.data)), EncodeFraming(p.data);
    PackedFitsReceiveBuffer(p);
    assert |framing| == RootLen(p) - 22;
    LengthField(RootLen(p));
    assert vector[..3] == [0, 0, 0] && vector[3] == RootVector(p.data);
    RootLayoutOfParts(length, vector, p.cid, framing);
    assert Encode(p) == Preamble() + (length + vector + p.cid + framing);
  }

  lemma LengthField(n: nat)
    requires n < 0x1000
    ensures ReadBe16(FlagsAndLength(n), 0) == 0x7000 + n
  {
  }

  lemma RootLayoutOfParts(length: Bytes, vector: Bytes, cid: Cid, framing: Bytes)
    requires |length| == 2 && |vector| == 4 && vector[..3] == [0, 0, 0]
    requires ReadBe16(length, 0) == 0x7000 + 22 + |framing|
    ensures
      var b := Preamble() + (length + vector + cid + framing);
      RootLayout(b, vector[3], cid) && b[38..] == framing
  {
    var root := length + vector + cid + framing;
    var b := Preamble() + root;
    assert b[16..18] == root[..2] == length && b[18..22] == root[2..6] == vector && b[22..38] == root[6..22] == cid;
    assert ReadBe16(b, 16) == ReadBe16(b[16..18], 0);
    assert vector == [0, 0, 0, vector[3]];
  }

  /** The framing layer of a data packet (table 4-1), from its own first byte on. */
  ghost predicate DataFields(f: Bytes, d: DataFraming)
  {
    && |f| == 87 + |d.values| && WordAt(f, 0, 0x7000 + |f|) && f[2..6] == [0, 0, 0, 2]
    && (|d.name| < 64 ==> PaddedName(f[6..70], d.name)) && (|d.name| >= 64 ==> f[6..70] == d.name[..64])
    && f[70] == d.priority && WordAt(f, 71, d.syncAddr) && f[73] == d.seqNo
    && OptionsAre(f[74], d) && WordAt(f, 75, d.universe)
  }

  /** Its DMP layer. */
  ghost predicate DmpFields(m: Bytes, values: Bytes) {
    && |m| == 10 + |values| && WordAt(m, 0, 0x7000 + |m|) && m[2] == 2 && m[3] == 0xa1
    && WordAt(m, 4, 0) && WordAt(m, 6, 1) && WordAt(m, 8, |values|) && m[10..] == values
  }

  /** Every field of a data packet stands where table 4-1 of ANSI E1.31-2018 puts it. */
  lemma DataLayout(p: Packet, d: DataFraming)
    requires Valid(p) && p.data == DataPacket(d)
    ensures
      var b := Encode(p);
      |b| == 125 + |d.values| && RootLayout(b, 4, p.cid) && DataFields(b[38..], d) && DmpFields(b[115..], d.values)
  {
    var b := Encode(p);
    RootStands(p);
    DataFieldsOf(d);
    assert b[115..] == b[38..][77..];
  }

  lemma DataFieldsOf(d: DataFraming)
    requires |d.values| <= UNIVERSE_CHANNEL_CAPACITY
    ensures DataFields(EncodeData(d), d) && DmpFields(EncodeData(d)[77..], d.values)
  {
    DataFieldsOfParts(EncodeDataHead(d), EncodeDmp(d.values), d);
    DmpFieldsOf(d.values);
    assert EncodeData(d)[77..] == EncodeDmp(d.values);
  }

  lemma DataFieldsOfParts(h: Bytes, tail: Bytes, d: DataFraming)
    requires |d.values| <= UNIVERSE_CHANNEL_CAPACITY
    requires h == EncodeDataHead(d) && tail == EncodeDmp(d.values)
    ensures DataFields(h + tail, d)
  {
    var f := h + tail;
    DataHeadFields(d);
    assert h[..2] == FlagsAndLength(DataLen(d)) && h[2..6] == Be32(VECTOR_E131_DATA_PACKET);
    assert f[2..6] == h[2..6] && f[6..70] == h[6..70];
    assert ReadBe16(f, 0) == ReadBe16(h[..2], 0);
  }

  lemma DmpFieldsOf(values: Bytes)
    requires |values| <= UNIVERSE_CHANNEL_CAPACITY
    ensures DmpFields(EncodeDmp(values), values)
  {
    DmpHeadFields(|values|);
    var m, h := EncodeDmp(values), EncodeDmpHead(|values|);
    assert m[10..] == values && forall i | 0 <= i < 10 :: m[i] == h[i];
  }

  /** Every field of a synchronisation packet stands where table 4-2 puts it. */
  lemma SyncLayout(p: Packet, s: SyncFraming)
    requires Valid(p) && p.data == SyncPacket(s)
    ensures
      var (b, f) := (Encode(p), Encode(p)[38..]);
      && |b| == 49 && RootLayout(b, 8, p.cid) && WordAt(f, 0, 0x7000 + 11) && f[2..6] == [0, 0, 0, 1]
      && f[6] == s.seqNo && WordAt(f, 7, s.syncAddr) && f[9..] == [0, 0]
  {
    RootStands(p);
  }

  /** The framing layer of a discovery packet (table 4-3). */
  ghost predicate DiscoveryFields(f: Bytes, d: DiscoveryFraming)
  {
    && |f| == 82 + 2 * |d.universes| && WordAt(f, 0, 0x7000 + |f|) && f[2..6] == [0, 0, 0, 2]
    && (|d.name| < 64 ==> PaddedName(f[6..70], d.name)) && (|d.name| >= 64 ==> f[6..70] == d.name[..64])
    && f[70..74] == [0, 0, 0, 0]
  }

  /** Its universe discovery layer. */
  ghost predicate PageFields(m: Bytes, d: DiscoveryFraming) {
    && |m| == 8 + 2 * |d.universes| && WordAt(m, 0, 0x7000 + |m|) && m[2..6] == [0, 0, 0, 1]
    && m[6] == d.page && m[7] == d.lastPage
    && forall i | 0 <= i < |d.universes| :: WordAt(m, 8 + 2 * i, d.universes[i])
  }

  /** Every field of a discovery packet stands where table 4-3 puts it. */
  lemma DiscoveryLayout(p: Packet, d: DiscoveryFraming)
    requires Valid(p) && p.data == DiscoveryPacket(d)
    ensures
      var b := Encode(p);
      && |b| == 120 + 2 * |d.universes| && RootLayout(b, 8, p.cid)
      && DiscoveryFields(b[38..], d) && PageFields(b[112..], d)
  {
    var b, tail := Encode(p), EncodeDiscoveryLayer(d);
    RootStands(p);
    DiscoveryFieldsOf(d);
    PageFieldsOf(d);
    assert b[38..] == EncodeDiscovery(d) && b[112..] == b[38..][74..] == tail;
  }

  lemma DiscoveryFieldsOf(d: DiscoveryFraming)
    requires |d.universes| <= DISCOVERY_UNI_PER_PAGE
    ensures DiscoveryFields(EncodeDiscovery(d), d) && EncodeDiscovery(d)[74..] == EncodeDiscoveryLayer(d)
  {
    var h, tail := EncodeDiscoveryHead(d), EncodeDiscoveryLayer(d);
    var f := h + tail;
    LengthField(DiscoveryLen(d));
    assert h[..2] == FlagsAndLength(DiscoveryLen(d)) && h[2..6] == Be32(VECTOR_E131_EXTENDED_DISCOVERY);
    assert h[6..70] == PadName(d.name) && h[70..74] == Zeros(4);
    assert f[..2] == h[..2] && f[2..6] == h[2..6] && f[6..70] == h[6..70] && f[70..74] == h[70..74];
    assert ReadBe16(f, 0) == ReadBe16(f[..2], 0) && f[74..] == tail;
  }

  lemma PageFieldsOf(d: DiscoveryFraming)
    requires |d.universes| <= DISCOVERY_UNI_PER_PAGE
    ensures PageFields(EncodeDiscoveryLayer(d), d)
  {
    var m, list := EncodeDiscoveryLayer(d), EncodeUniverses(d.universes);
    assert m[..2] == FlagsAndLength(DiscoveryLayerLen(d)) && m[8..] == list;
    assert ReadBe16(m, 0) == ReadBe16(m[..2], 0);
    forall i | 0 <= i < |d.universes| ensures ReadBe16(m, 8 + 2 * i) == d.universes[i] {
      assert ReadBe16(m, 8 + 2 * i) == ReadBe16(list, 2 * i);
    }
  }

  // ------------------------------------------------------------------- panics

  /** A layer's head as the parser wants it, with a length that stays within the layer's bytes. */
  predicate HeadOk(b: Bytes, vectorLength: nat, vector: byte)
    requires vectorLength == 1 || vectorLength == 4
  {
    var pdu := ParsePduInfo(b, vectorLength);
    pdu.Done? && pdu.value.vector == vector && pdu.value.length <= |b|
  }

  /** The DMP layer's head is right, and so is every fixed field that lies within the layer. */
  predicate DmpFieldsSoFar(m: Bytes) {
    && HeadOk(m, 1, VECTOR_DMP_SET_PROPERTY)
    && (|m| >= 4 ==> m[3] == 0xa1)
    && (|m| >= 6 ==> ReadBe16(m, 4) == 0)
    && (|m| >= 8 ==> ReadBe16(m, 6) == 1)
  }

  lemma DmpPanicsIff(m: Bytes)
    ensures ParseDmp(m).Panic? <==> DmpFieldsSoFar(m) && |m| < 10
  {
  }

  /** The same of the framing layer of a data packet. */
  predicate DataFieldsSoFar(f: Bytes) {
    && HeadOk(f, 4, VECTOR_E131_DATA_PACKET)
    && (|f| >= 70 ==> ParseSourceName(f[6..70]).Done?)
    && (|f| >= 71 ==> f[70] <= E131_MAX_PRIORITY)
    && (|f| >= 73 ==> ReadBe16(f, 71) <= E131_MAX_MULTICAST_UNIVERSE)
    && (|f| >= 77 ==> InDataRange(ReadBe16(f, 75)))
  }

  /** Nothing is wrong with the fields that are there, and some layer is too short for the fields that should be. */
  predicate ShortData(f: Bytes) {
    && DataFieldsSoFar(f)
    && (|f| < 77
        || var n := ParsePduInfo(f, 4).value.length;
           n < 77 || (DmpFieldsSoFar(f[77..n]) && n < 87))
  }

  lemma DataPanicsIff(f: Bytes)
    ensures ParseData(f).Panic? <==> ShortData(f)
  {
    if DataFieldsSoFar(f) && |f| >= 77 {
      var n := ParsePduInfo(f, 4).value.length;
      if 77 <= n { DmpPanicsIff(f[77..n]); }
    }
  }

  lemma ExtendedNeverPanics(f: Bytes)
    ensures !ParseExtended(f).Panic?
  {
  }

  predicate ShortRoot(root: Bytes) {
    || (HeadOk(root, 4, VECTOR_ROOT_E131_EXTENDED) && ParsePduInfo(root, 4).value.length < 22)
    || (HeadOk(root, 4, VECTOR_ROOT_E131_DATA)
        && var n := ParsePduInfo(root, 4).value.length;
           n < 22 || ShortData(root[22..n]))
  }

  /** A root layer makes the parser panic exactly when it, or a data packet's layer within it, is too short. */
  lemma RootPanicsIff(root: Bytes)
    ensures ParseRoot(root).Panic? <==> ShortRoot(root)
  {
    if ParsePduInfo(root, 4).Done? {
      var n := ParsePduInfo(root, 4).value.length;
      if 22 <= n <= |root| {
        DataPanicsIff(root[22..n]);
        ExtendedNeverPanics(root[22..n]);
      }
    }
  }

  /** Parsing panics on exactly these buffers. */
  lemma PanicsIff(b: Bytes)
    ensures Parse(b).Panic? <==> 16 <= |b| && b[..16] == Preamble() && ShortRoot(b[16..])
  {
    assert Preamble()[..4] == [0, 0x10, 0, 0] && Preamble()[4..] == E131_ACN_PACKET_IDENTIFIER;
    if 16 <= |b| {
      assert b[4..16] == b[..16][4..];
      assert b[..4] == [b[0], b[1], b[2], b[3]] == b[..16][..4];
      assert b[..16] == b[..4] + b[4..16];
      RootPanicsIff(b[16..]);
    }
  }
}
