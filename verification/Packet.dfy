/** The packet formats of ANSI E1.31-2018 section 4: what the bytes of a packet are, and how they are read back. */
module Packet {
  import opened Types

  // ---------------------------------------------------------------- packets

  datatype Packet = Packet(cid: Cid, data: PacketData)

  datatype PacketData =
    | DataPacket(data: DataFraming)
    | SyncPacket(sync: SyncFraming)
    | DiscoveryPacket(discovery: DiscoveryFraming)

  /** Framing layer of a data packet; `values` is the payload of the DMP layer nested in it. */
  datatype DataFraming = DataFraming(
    name: Bytes, priority: byte, syncAddr: u16, seqNo: byte,
    preview: bool, terminated: bool, force: bool, universe: u16, values: Bytes)

  datatype SyncFraming = SyncFraming(seqNo: byte, syncAddr: u16)

  /** Framing layer of a discovery packet with the universe discovery layer nested in it. */
  datatype DiscoveryFraming = DiscoveryFraming(name: Bytes, page: byte, lastPage: byte, universes: seq<u16>)

  /** The outcome of a parse. `Panic` is an out-of-bounds slice, which aborts the caller. */
  datatype Parsed<+T> = Done(value: T) | Fail(error: ParseError) | Panic {
    predicate IsFailure() { !Done? }
    function PropagateFailure<U>(): (r: Parsed<U>)
      requires IsFailure()
    {
      if Panic? then Panic else Fail(error)
    }
    function Extract(): T
      requires Done?
    {
      value
    }
  }

  // ------------------------------------------------------------ field codecs

  function Be16(v: u16): (r: Bytes)
    ensures |r| == 2
  {
    [v / 0x100, v % 0x100]
  }

  /** A 32-bit vector; every vector of the protocol is below 256. */
  function Be32(v: byte): (r: Bytes)
    ensures |r| == 4
  {
    [0, 0, 0, v]
  }

  function ReadBe16(b: Bytes, at: nat): u16
    requires at + 2 <= |b|
  {
    b[at] as int * 0x100 + b[at + 1]
  }

  const E131_ACN_PACKET_IDENTIFIER: Bytes :=
    [0x41, 0x53, 0x43, 0x2d, 0x45, 0x31, 0x2e, 0x31, 0x37, 0x00, 0x00, 0x00]

  const VECTOR_ROOT_E131_DATA: byte := 4
  const VECTOR_ROOT_E131_EXTENDED: byte := 8
  const VECTOR_E131_EXTENDED_SYNCHRONIZATION: byte := 1
  const VECTOR_E131_EXTENDED_DISCOVERY: byte := 2
  const VECTOR_E131_DATA_PACKET: byte := 2
  const VECTOR_DMP_SET_PROPERTY: byte := 2
  const VECTOR_UNIVERSE_DISCOVERY_UNIVERSE_LIST: byte := 1

  /** The flags 0x7 in the top four bits and the low twelve bits of the length below them. */
  function FlagsAndLength(length: nat): (r: Bytes)
    ensures |r| == 2
  {
    Be16(0x7000 + length % 0x1000)
  }

  function OptionBits(preview: bool, terminated: bool, force: bool): byte {
    (if preview then 0x80 else 0) + (if terminated then 0x40 else 0) + (if force then 0x20 else 0)
  }

  /** The name field: the name padded with zeros, or the first 64 bytes of a longer one. */
  function PadName(name: Bytes): (r: Bytes)
    ensures |r| == SOURCE_NAME_LENGTH
  {
    if |name| <= SOURCE_NAME_LENGTH then name + Zeros(SOURCE_NAME_LENGTH - |name|) else name[..SOURCE_NAME_LENGTH]
  }

  /** A universe list as it stands in a discovery packet. */
  function EncodeUniverses(us: seq<u16>): (r: Bytes)
    ensures |r| == 2 * |us|
    ensures forall i | 0 <= i < |us| :: ReadBe16(r, 2 * i) == us[i]
  {
    if us == [] then [] else EncodeUniverses(us[..|us| - 1]) + Be16(us[|us| - 1])
  }

  function DecodeUniverses(b: Bytes, n: nat): (r: seq<u16>)
    requires 2 * n <= |b|
    ensures |r| == n
  {
    seq(n, i requires 0 <= i < n => ReadBe16(b, 2 * i))
  }

  // ----------------------------------------------------------------- encoding

  function DmpLen(values: Bytes): nat { 10 + |values| }

  function DataLen(d: DataFraming): nat { 77 + DmpLen(d.values) }

  function SyncLen(): nat { 11 }

  function DiscoveryLayerLen(d: DiscoveryFraming): nat { 8 + 2 * |d.universes| }

  function DiscoveryLen(d: DiscoveryFraming): nat { 74 + DiscoveryLayerLen(d) }

  function RootLen(p: Packet): nat {
    22 + match p.data
         case DataPacket(d) => DataLen(d)
         case SyncPacket(_) => SyncLen()
         case DiscoveryPacket(u) => DiscoveryLen(u)
  }

  function Len(p: Packet): nat { 16 + RootLen(p) }

  function NameOf(p: Packet): Bytes {
    match p.data
    case DataPacket(d) => d.name
    case SyncPacket(_) => []
    case DiscoveryPacket(u) => u.name
  }

  /** The limit the sender puts on its name; packing itself has none. */
  predicate NameFits(p: Packet) { |NameOf(p)| <= SOURCE_NAME_LENGTH }

  function EncodeDmpHead(count: nat): (r: Bytes)
    ensures |r| == 10
  {
    FlagsAndLength(10 + count) + [VECTOR_DMP_SET_PROPERTY] + [0xa1] + Be16(0) + Be16(1) + Be16(count % 0x1_0000)
  }

  function EncodeDmp(values: Bytes): (r: Bytes)
    ensures |r| == DmpLen(values)
  {
    EncodeDmpHead(|values|) + values
  }

  function EncodeDataFront(d: DataFraming): (r: Bytes)
    ensures |r| == 70
  {
    FlagsAndLength(DataLen(d)) + Be32(VECTOR_E131_DATA_PACKET) + PadName(d.name)
  }

  function EncodeDataBack(d: DataFraming): (r: Bytes)
    ensures |r| == 7
  {
    [d.priority] + Be16(d.syncAddr) + [d.seqNo] + [OptionBits(d.preview, d.terminated, d.force)] + Be16(d.universe)
  }

  function EncodeDataHead(d: DataFraming): (r: Bytes)
    ensures |r| == 77
  {
    EncodeDataFront(d) + EncodeDataBack(d)
  }

  function EncodeData(d: DataFraming): (r: Bytes)
    ensures |r| == DataLen(d)
  {
    EncodeDataHead(d) + EncodeDmp(d.values)
  }

  function EncodeSync(s: SyncFraming): (r: Bytes)
    ensures |r| == SyncLen()
  {
    FlagsAndLength(SyncLen()) + Be32(VECTOR_E131_EXTENDED_SYNCHRONIZATION) + [s.seqNo] + Be16(s.syncAddr) + Zeros(2)
  }

  function EncodeDiscoveryLayer(d: DiscoveryFraming): (r: Bytes)
    ensures |r| == DiscoveryLayerLen(d)
  {
    FlagsAndLength(DiscoveryLayerLen(d)) + Be32(VECTOR_UNIVERSE_DISCOVERY_UNIVERSE_LIST)
    + [d.page] + [d.lastPage] + EncodeUniverses(d.universes)
  }

  function EncodeDiscoveryHead(d: DiscoveryFraming): (r: Bytes)
    ensures |r| == 74
  {
    FlagsAndLength(DiscoveryLen(d)) + Be32(VECTOR_E131_EXTENDED_DISCOVERY) + PadName(d.name) + Zeros(4)
  }

  function EncodeDiscovery(d: DiscoveryFraming): (r: Bytes)
    ensures |r| == DiscoveryLen(d)
  {
    EncodeDiscoveryHead(d) + EncodeDiscoveryLayer(d)
  }

  function RootVector(data: PacketData): byte {
    if data.DataPacket? then VECTOR_ROOT_E131_DATA else VECTOR_ROOT_E131_EXTENDED
  }

  function EncodeFraming(data: PacketData): Bytes
  {
    match data
    case DataPacket(d) => EncodeData(d)
    case SyncPacket(s) => EncodeSync(s)
    case DiscoveryPacket(u) => EncodeDiscovery(u)
  }

  function EncodeRoot(p: Packet): (r: Bytes)
    ensures |r| == RootLen(p)
  {
    FlagsAndLength(RootLen(p)) + Be32(RootVector(p.data)) + p.cid + EncodeFraming(p.data)
  }

  function Preamble(): (r: Bytes)
    ensures |r| == 16
  {
    Be16(0x0010) + Be16(0) + E131_ACN_PACKET_IDENTIFIER
  }

  /** The bytes of a packet. */
  function Encode(p: Packet): (r: Bytes)
    ensures |r| == Len(p)
  {
    Preamble() + EncodeRoot(p)
  }

  /** What of a name, written from byte 6 of a layer on, lies behind the layer's first `length` bytes. */
  function NameSpill(name: Bytes, length: nat): Bytes
    requires 6 <= length
  {
    if 6 + |name| <= length then [] else name[length - 6..]
  }

  /** The end of a name that is too long for its packet altogether; packing writes it behind the packet. */
  function Spill(p: Packet): Bytes {
    match p.data
    case DataPacket(d) => NameSpill(d.name, DataLen(d))
    case SyncPacket(_) => []
    case DiscoveryPacket(u) => NameSpill(u.name, DiscoveryLen(u))
  }

  // ------------------------------------------------------------------ parsing

  datatype PduInfo = PduInfo(length: nat, vector: int)

  function ParsePduInfo(buf: Bytes, vectorLength: nat): Parsed<PduInfo>
    requires vectorLength == 1 || vectorLength == 4
  {
    if |buf| < 2 + vectorLength then Fail(InsufficientData)
    else if buf[0] / 0x10 != 7 then Fail(InvalidFlags(buf[0] / 0x10 * 0x10))
    else
      Done(PduInfo(ReadBe16(buf, 0) % 0x1000,
                   if vectorLength == 1 then buf[2]
                   else ReadBe16(buf, 2) as int * 0x1_0000 + ReadBe16(buf, 4)))
  }

  /** Index of the first NUL, or the length when there is none. */
  function FirstZero(b: Bytes): (r: nat)
    ensures r <= |b| && (r < |b| ==> b[r] == 0)
    ensures forall i | 0 <= i < r :: b[i] != 0
  {
    if b == [] || b[0] == 0 then 0 else 1 + FirstZero(b[1..])
  }

  predicate Continuation(b: byte) { 0x80 <= b < 0xC0 }

  /** Well-formed UTF-8: the bytes a Rust `str` can hold. */
  predicate ValidUtf8(s: Bytes)
    decreases |s|
  {
    || s == []
    || (s[0] < 0x80 && ValidUtf8(s[1..]))
    || (0xC2 <= s[0] < 0xE0 && |s| >= 2 && Continuation(s[1]) && ValidUtf8(s[2..]))
    || (0xE0 <= s[0] < 0xF0 && |s| >= 3 && Continuation(s[1]) && Continuation(s[2])
        && (s[0] == 0xE0 ==> s[1] >= 0xA0) && (s[0] == 0xED ==> s[1] < 0xA0) && ValidUtf8(s[3..]))
    || (0xF0 <= s[0] < 0xF5 && |s| >= 4 && Continuation(s[1]) && Continuation(s[2]) && Continuation(s[3])
        && (s[0] == 0xF0 ==> s[1] >= 0x90) && (s[0] == 0xF4 ==> s[1] < 0x90) && ValidUtf8(s[4..]))
  }

  function ParseSourceName(buf: Bytes): Parsed<Bytes> {
    var n := FirstZero(buf);
    if n == |buf| then Fail(SourceNameNotNullTerminated)
    else if ValidUtf8(buf[..n]) then Done(buf[..n])
    else Fail(InvalidUtf8)
  }

  function ParseDmp(buf: Bytes): Parsed<Bytes> {
    var pdu :- ParsePduInfo(buf, 1);
    if |buf| < pdu.length then Fail(InsufficientData)
    else if pdu.vector != VECTOR_DMP_SET_PROPERTY then Fail(InvalidVector(pdu.vector))
    else if |buf| < 4 then Panic
    else if buf[3] != 0xa1 then Fail(InvalidData)
    else if |buf| < 6 then Panic
    else if ReadBe16(buf, 4) != 0 then Fail(InvalidData)
    else if |buf| < 8 then Panic
    else if ReadBe16(buf, 6) != 1 then Fail(InvalidData)
    else if |buf| < 10 then Panic
    else if ReadBe16(buf, 8) + 10 != pdu.length then Fail(InsufficientData)
    else if pdu.length - 10 > UNIVERSE_CHANNEL_CAPACITY then Fail(InvalidData)
    else Done(buf[10..pdu.length])
  }

  function ParseData(buf: Bytes): Parsed<DataFraming> {
    var pdu :- ParsePduInfo(buf, 4);
    if |buf| < pdu.length then Fail(InsufficientData)
    else if pdu.vector != VECTOR_E131_DATA_PACKET then Fail(InvalidVector(pdu.vector))
    else if |buf| < 70 then Panic
    else
      var name :- ParseSourceName(buf[6..70]);
      if |buf| < 71 then Panic
      else if buf[70] > E131_MAX_PRIORITY then Fail(InvalidParsedPriority(buf[70]))
      else if |buf| < 73 then Panic
      else if ReadBe16(buf, 71) > E131_MAX_MULTICAST_UNIVERSE then Fail(InvalidSyncAddr(ReadBe16(buf, 71)))
      else if |buf| < 77 then Panic
      else if !InDataRange(ReadBe16(buf, 75)) then Fail(InvalidUniverse(ReadBe16(buf, 75)))
      else if pdu.length < 77 then Panic
      else
        var values :- ParseDmp(buf[77..pdu.length]);
        Done(DataFraming(name, buf[70], ReadBe16(buf, 71), buf[73],
                         buf[74] / 0x80 % 2 != 0, buf[74] / 0x40 % 2 != 0, buf[74] / 0x20 % 2 != 0,
                         ReadBe16(buf, 75), values))
  }

  function ParseSync(buf: Bytes): Parsed<SyncFraming> {
    var pdu :- ParsePduInfo(buf, 4);
    if |buf| < pdu.length then Fail(InsufficientData)
    else if pdu.vector != VECTOR_E131_EXTENDED_SYNCHRONIZATION then Fail(InvalidVector(pdu.vector))
    else if pdu.length != 11 then Fail(InvalidLength(pdu.length))
    else if !InDataRange(ReadBe16(buf, 7)) then Fail(InvalidSyncAddr(ReadBe16(buf, 7)))
    else Done(SyncFraming(buf[6], ReadBe16(buf, 7)))
  }

  function ParseUniverseList(buf: Bytes, n: nat): Parsed<seq<u16>> {
    if |buf| < 2 * n then Fail(InsufficientData)
    else if Ascending(DecodeUniverses(buf, n)) then Done(DecodeUniverses(buf, n))
    else Fail(InvalidUniverseOrder)
  }

  function ParseDiscoveryLayer(buf: Bytes, name: Bytes): Parsed<DiscoveryFraming> {
    var pdu :- ParsePduInfo(buf, 4);
    if |buf| != pdu.length then Fail(InsufficientData)
    else if pdu.vector != VECTOR_UNIVERSE_DISCOVERY_UNIVERSE_LIST then Fail(InvalidVector(pdu.vector))
    else if !(8 <= pdu.length <= 1032) then Fail(InvalidLength(pdu.length))
    else if buf[6] > buf[7] then Fail(InvalidPage)
    else
      var us :- ParseUniverseList(buf[8..], (pdu.length - 8) / 2);
      Done(DiscoveryFraming(name, buf[6], buf[7], us))
  }

  function ParseDiscovery(buf: Bytes): Parsed<DiscoveryFraming> {
    var pdu :- ParsePduInfo(buf, 4);
    if |buf| < pdu.length then Fail(InsufficientData)
    else if pdu.vector != VECTOR_E131_EXTENDED_DISCOVERY then Fail(InvalidVector(pdu.vector))
    else if pdu.length < 82 then Fail(InvalidLength(pdu.length))
    else
      var name :- ParseSourceName(buf[6..70]);
      ParseDiscoveryLayer(buf[74..pdu.length], name)
  }

  function ParseExtended(buf: Bytes): Parsed<PacketData> {
    var pdu :- ParsePduInfo(buf, 4);
    if |buf| < pdu.length then Fail(InsufficientData)
    else if pdu.vector == VECTOR_E131_EXTENDED_SYNCHRONIZATION then
      var s :- ParseSync(buf);
      Done(SyncPacket(s))
    else if pdu.vector == VECTOR_E131_EXTENDED_DISCOVERY then
      var u :- ParseDiscovery(buf);
      Done(DiscoveryPacket(u))
    else Fail(InvalidVector(pdu.vector))
  }

  function ParseRoot(buf: Bytes): Parsed<Packet> {
    var pdu :- ParsePduInfo(buf, 4);
    if |buf| < pdu.length then Fail(InsufficientData)
    else if pdu.vector != VECTOR_ROOT_E131_DATA && pdu.vector != VECTOR_ROOT_E131_EXTENDED then
      Fail(InvalidVector(pdu.vector))
    else if |buf| < 22 || pdu.length < 22 then Panic
    else if pdu.vector == VECTOR_ROOT_E131_DATA then
      var d :- ParseData(buf[22..pdu.length]);
      Done(Packet(buf[6..22], DataPacket(d)))
    else
      var e :- ParseExtended(buf[22..pdu.length]);
      Done(Packet(buf[6..22], e))
  }

  function Parse(buf: Bytes): Parsed<Packet> {
    if |buf| < 16 then Fail(InsufficientData)
    else if ReadBe16(buf, 0) != 0x0010 then Fail(InvalidData)
    else if ReadBe16(buf, 2) != 0 then Fail(InvalidData)
    else if buf[4..16] != E131_ACN_PACKET_IDENTIFIER then Fail(InvalidData)
    else ParseRoot(buf[16..])
  }

  // ----------------------------------------------------------- field ranges

  /** Packing refuses a payload over one universe and a universe list that is too long or not ascending. */
  predicate PackOk(p: Packet) {
    match p.data
    case DataPacket(d) => |d.values| <= UNIVERSE_CHANNEL_CAPACITY
    case SyncPacket(_) => true
    case DiscoveryPacket(u) => |u.universes| <= DISCOVERY_UNI_PER_PAGE && Ascending(u.universes)
  }

  /** A name that fits the 64-byte field with the NUL the parser insists on. */
  predicate ValidName(name: Bytes) {
    |name| < SOURCE_NAME_LENGTH && ValidUtf8(name) && forall i | 0 <= i < |name| :: name[i] != 0
  }

  /** Every field in the range the parser accepts. */
  predicate ValidFields(p: Packet) {
    match p.data
    case DataPacket(d) =>
      && ValidName(d.name) && d.priority <= E131_MAX_PRIORITY && InDataRange(d.universe)
      && d.syncAddr <= E131_MAX_MULTICAST_UNIVERSE
    case SyncPacket(s) => InDataRange(s.syncAddr)
    case DiscoveryPacket(u) => ValidName(u.name) && u.page <= u.lastPage
  }

  predicate Valid(p: Packet) { PackOk(p) && ValidFields(p) }
}
