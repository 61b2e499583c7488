/** The writers: packing in place into a byte buffer, and the parsers' loops. */
module PackBuffer {
  import opened Types
  import opened Packet
  import opened Codec

  /** The outcome of packing. `Aborted` is a copy out of the buffer's bounds, which aborts the caller. */
  datatype Packing<+T> = Packed(value: T) | Refused(error: ParseError) | Aborted

  /** `after` is `before` with `data` laid over it from index `at` on, and nothing else changed. */
  ghost predicate Written(before: Bytes, after: Bytes, at: nat, data: Bytes) {
    at + |data| <= |before| && after == before[..at] + data + before[at + |data|..]
  }

  /** Nothing outside the `n` bytes from `at` on changed. */
  ghost predicate Within(before: Bytes, after: Bytes, at: nat, n: nat) {
    at + n <= |before| == |after| && after[..at] == before[..at] && after[at + n..] == before[at + n..]
  }

  /** `a` with `b` laid over it from index `off` on. */
  ghost function Lay(a: Bytes, off: nat, b: Bytes): Bytes
    requires off <= |a|
  {
    a[..off] + b + if off + |b| < |a| then a[off + |b|..] else []
  }

  lemma WrittenLay(s0: Bytes, s1: Bytes, s2: Bytes, at: nat, a: Bytes, off: nat, b: Bytes)
    requires Written(s0, s1, at, a) && Written(s1, s2, at + off, b) && off <= |a|
    ensures Written(s0, s2, at, Lay(a, off, b))
  {
    assert s1[..at + off] == s0[..at] + a[..off];
    if off + |b| < |a| {
      assert s1[at + off + |b|..] == a[off + |b|..] + s0[at + |a|..];
    } else {
      assert s1[at + off + |b|..] == s0[at + off + |b|..];
    }
  }

  lemma WrittenAppend(s0: Bytes, s1: Bytes, s2: Bytes, at: nat, a: Bytes, b: Bytes)
    requires Written(s0, s1, at, a) && Written(s1, s2, at + |a|, b)
    ensures Written(s0, s2, at, a + b)
  {
    WrittenLay(s0, s1, s2, at, a, |a|, b);
  }

  /** Writing the next bytes of a layer over the rest of a name that reaches so far. */
  lemma WrittenOverSpill(s0: Bytes, s1: Bytes, s2: Bytes, at: nat, done: Bytes, name: Bytes, next: Bytes)
    requires 6 <= |done| && Written(s0, s1, at, done + NameSpill(name, |done|)) && Written(s1, s2, at + |done|, next)
    ensures Written(s0, s2, at, done + next + NameSpill(name, |done| + |next|))
  {
    var a := done + NameSpill(name, |done|);
    WrittenLay(s0, s1, s2, at, a, |done|, next);
    assert Lay(a, |done|, next) == done + next + NameSpill(name, |done| + |next|);
  }

  lemma WrittenThenWithin(s0: Bytes, s1: Bytes, s2: Bytes, at: nat, a: Bytes, off: nat, n: nat)
    requires Written(s0, s1, at, a) && Within(s1, s2, at + off, n) && off <= |a|
    ensures Within(s0, s2, at, if |a| < off + n then off + n else |a|)
  {
    assert s2[..at] == s2[..at + off][..at] == s1[..at];
    var m := if |a| < off + n then off + n else |a|;
    assert s2[at + m..] == s2[at + off + n..][m - off - n..];
    assert s1[at + m..] == s1[at + off + n..][m - off - n..];
  }

  lemma WithinGrows(s0: Bytes, s1: Bytes, at: nat, n: nat, m: nat)
    requires Within(s0, s1, at, n) && n <= m && at + m <= |s0|
    ensures Within(s0, s1, at, m)
  {
    assert s1[at + m..] == s1[at + n..][m - n..] && s0[at + m..] == s0[at + n..][m - n..];
  }

  lemma WrittenIsWithin(s0: Bytes, s1: Bytes, at: nat, a: Bytes, n: nat)
    requires Written(s0, s1, at, a) && |a| <= n && at + n <= |s0|
    ensures Within(s0, s1, at, n)
  {
    assert s1[at + n..] == s0[at + n..];
  }

  /** Copies `data` into the buffer. */
  method Put(buf: array<byte>, at: nat, data: Bytes)
    requires at + |data| <= buf.Length
    modifies buf
    ensures Written(old(buf[..]), buf[..], at, data)
  {
    var i := 0;
    while i < |data|
      invariant i <= |data|
      invariant buf[..] == old(buf[..at]) + data[..i] + old(buf[at + i..])
    {
      buf[at + i] := data[i];
      i := i + 1;
    }
  }

  /** Fills `n` bytes with zeros. */
  method PutZeros(buf: array<byte>, at: nat, n: nat)
    requires at + n <= buf.Length
    modifies buf
    ensures Written(old(buf[..]), buf[..], at, Zeros(n))
  {
    var i := 0;
    while i < n
      invariant i <= n
      invariant buf[..] == old(buf[..at]) + Zeros(i) + old(buf[at + i..])
    {
      buf[at + i] := 0;
      i := i + 1;
    }
  }

  /**
   * Head and name field of a framing layer. The name is copied as long as it is, or not at all when it would not
   * fit.
   */
  method PackFront(head: Bytes, name: Bytes, buf: array<byte>, at: nat) returns (ok: bool)
    requires |head| == 6 && at + 70 <= buf.Length
    modifies buf
    ensures ok <==> 6 + |name| <= buf.Length - at
    ensures ok ==> Written(old(buf[..]), buf[..], at, head + PadName(name) + NameSpill(name, 70))
    ensures !ok ==> Within(old(buf[..]), buf[..], at, 70)
  {
    ghost var s0 := buf[..];
    Put(buf, at, head);
    ghost var s1 := buf[..];
    PutZeros(buf, at + 6, SOURCE_NAME_LENGTH);
    ghost var cleared := head + Zeros(SOURCE_NAME_LENGTH);
    WrittenAppend(s0, s1, buf[..], at, head, Zeros(SOURCE_NAME_LENGTH));
    if buf.Length - at < 6 + |name| {
      WrittenIsWithin(s0, buf[..], at, cleared, 70);
      return false;
    }
    s1 := buf[..];
    Put(buf, at + 6, name);
    WrittenLay(s0, s1, buf[..], at, cleared, 6, name);
    assert Lay(cleared, 6, name) == head + PadName(name) + NameSpill(name, 70);
    return true;
  }

  /** The options byte: cleared, then each flag's bit raised. */
  method PutOptions(buf: array<byte>, at: nat, preview: bool, terminated: bool, force: bool)
    requires at < buf.Length
    modifies buf
    ensures Written(old(buf[..]), buf[..], at, [OptionBits(preview, terminated, force)])
  {
    buf[at] := 0;
    if preview { buf[at] := 0x80; }
    if terminated { buf[at] := buf[at] + 0x40; }
    if force { buf[at] := buf[at] + 0x20; }
  }

  /** Packs the DMP layer: refuses more than one universe of values and a buffer that is too short. */
  method PackDmp(values: Bytes, buf: array<byte>, at: nat) returns (r: Packing<Unit>)
    requires at <= buf.Length
    modifies buf
    ensures r == if |values| > UNIVERSE_CHANNEL_CAPACITY then Refused(PackInvalidData)
                 else if buf.Length - at < DmpLen(values) then Refused(PackBufferInsufficient)
                 else Packed(Unit)
    ensures r.Packed? ==> Written(old(buf[..]), buf[..], at, EncodeDmp(values))
    ensures r.Refused? ==> buf[..] == old(buf[..])
  {
    if |values| > UNIVERSE_CHANNEL_CAPACITY { return Refused(PackInvalidData); }
    if buf.Length - at < DmpLen(values) { return Refused(PackBufferInsufficient); }
    ghost var s0 := buf[..];
    Put(buf, at, EncodeDmpHead(|values|));
    ghost var s1 := buf[..];
    Put(buf, at + 10, values);
    WrittenAppend(s0, s1, buf[..], at, EncodeDmpHead(|values|), values);
    return Packed(Unit);
  }

  /**
   * Packs the framing layer of a data packet, field after field, and the DMP layer behind it. A name of more than 64
   * bytes is cut to its field by the fields written over it; what reaches behind the layer stays there.
   */
  method PackData(d: DataFraming, buf: array<byte>, at: nat) returns (r: Packing<Unit>)
    requires at <= buf.Length
    modifies buf
    ensures r == if buf.Length - at < DataLen(d) then Refused(PackBufferInsufficient)
                 else if buf.Length - at < 6 + |d.name| then Aborted
                 else if |d.values| > UNIVERSE_CHANNEL_CAPACITY then Refused(PackInvalidData)
                 else Packed(Unit)
    ensures r.Packed? ==> Written(old(buf[..]), buf[..], at, EncodeData(d) + NameSpill(d.name, DataLen(d)))
    ensures r.Aborted? ==> Within(old(buf[..]), buf[..], at, DataLen(d))
    ensures r.Refused? && DataLen(d) <= buf.Length - at ==>
              Within(old(buf[..]), buf[..], at, DataLen(d) + |NameSpill(d.name, DataLen(d))|)
    ensures r.Refused? && DataLen(d) > buf.Length - at ==> buf[..] == old(buf[..])
  {
    if buf.Length - at < DataLen(d) { return Refused(PackBufferInsufficient); }
    ghost var s0 := buf[..];
    var ok := PackDataHead(d, buf, at);
    if !ok {
      WithinGrows(s0, buf[..], at, 70, DataLen(d));
      return Aborted;
    }
    ghost var s1 := buf[..];
    r := PackDmp(d.values, buf, at + 77);
    if r.Packed? {
      WrittenOverSpill(s0, s1, buf[..], at, EncodeDataHead(d), d.name, EncodeDmp(d.values));
    } else {
      WrittenIsWithin(s0, buf[..], at, EncodeDataHead(d) + NameSpill(d.name, 77),
                      DataLen(d) + |NameSpill(d.name, DataLen(d))|);
    }
  }

  method PackDataHead(d: DataFraming, buf: array<byte>, at: nat) returns (ok: bool)
    requires at + 77 <= buf.Length
    modifies buf
    ensures ok <==> 6 + |d.name| <= buf.Length - at
    ensures ok ==> Written(old(buf[..]), buf[..], at, EncodeDataHead(d) + NameSpill(d.name, 77))
    ensures !ok ==> Within(old(buf[..]), buf[..], at, 70)
  {
    ghost var s0 := buf[..];
    ok := PackFront(FlagsAndLength(DataLen(d)) + Be32(VECTOR_E131_DATA_PACKET), d.name, buf, at);
    if ok {
      ghost var s1 := buf[..];
      PackDataBack(d, buf, at + 70);
      WrittenOverSpill(s0, s1, buf[..], at, EncodeDataFront(d), d.name, EncodeDataBack(d));
    }
  }

  method PackDataMiddle(d: DataFraming, buf: array<byte>, at: nat)
    requires at + 4 <= buf.Length
    modifies buf
    ensures Written(old(buf[..]), buf[..], at, [d.priority] + Be16(d.syncAddr) + [d.seqNo])
  {
    ghost var s0 := buf[..];
    Put(buf, at, [d.priority]);
    ghost var s1 := buf[..];
    Put(buf, at + 1, Be16(d.syncAddr));
    WrittenAppend(s0, s1, buf[..], at, [d.priority], Be16(d.syncAddr));
    s1 := buf[..];
    Put(buf, at + 3, [d.seqNo]);
    WrittenAppend(s0, s1, buf[..], at, [d.priority] + Be16(d.syncAddr), [d.seqNo]);
  }

  method PackDataBack(d: DataFraming, buf: array<byte>, at: nat)
    requires at + 7 <= buf.Length
    modifies buf
    ensures Written(old(buf[..]), buf[..], at, EncodeDataBack(d))
  {
    ghost var s0 := buf[..];
    ghost var done := [d.priority] + Be16(d.syncAddr) + [d.seqNo];
    PackDataMiddle(d, buf, at);
    ghost var s1 := buf[..];
    PutOptions(buf, at + 4, d.preview, d.terminated, d.force);
    WrittenAppend(s0, s1, buf[..], at, done, [OptionBits(d.preview, d.terminated, d.force)]);
    s1 := buf[..];
    Put(buf, at + 5, Be16(d.universe));
    WrittenAppend(s0, s1, buf[..], at, done + [OptionBits(d.preview, d.terminated, d.force)], Be16(d.universe));
  }

  method PackSync(s: SyncFraming, buf: array<byte>, at: nat) returns (r: Packing<Unit>)
    requires at <= buf.Length
    modifies buf
    ensures r == if buf.Length - at < SyncLen() then Refused(PackBufferInsufficient) else Packed(Unit)
    ensures r.Packed? ==> Written(old(buf[..]), buf[..], at, EncodeSync(s))
    ensures r.Refused? ==> buf[..] == old(buf[..])
  {
    if buf.Length - at < SyncLen() { return Refused(PackBufferInsufficient); }
    ghost var s0 := buf[..];
    var head := FlagsAndLength(SyncLen()) + Be32(VECTOR_E131_EXTENDED_SYNCHRONIZATION) + [s.seqNo] + Be16(s.syncAddr);
    Put(buf, at, head);
    ghost var s1 := buf[..];
    PutZeros(buf, at + 9, 2);
    WrittenAppend(s0, s1, buf[..], at, head, Zeros(2));
    return Packed(Unit);
  }

  /** Packs the list page; the order of the universes is only checked after the page's head has been written. */
  method PackDiscoveryLayer(d: DiscoveryFraming, buf: array<byte>, at: nat) returns (r: Packing<Unit>)
    requires at <= buf.Length
    modifies buf
    ensures r == if |d.universes| > DISCOVERY_UNI_PER_PAGE then Refused(PackInvalidData)
                 else if buf.Length - at < DiscoveryLayerLen(d) then Refused(PackBufferInsufficient)
                 else if !Ascending(d.universes) then Refused(PackInvalidData)
                 else Packed(Unit)
    ensures r.Packed? ==> Written(old(buf[..]), buf[..], at, EncodeDiscoveryLayer(d))
    ensures r.Refused? && DiscoveryLayerLen(d) <= buf.Length - at ==>
              Within(old(buf[..]), buf[..], at, DiscoveryLayerLen(d))
    ensures r.Refused? && DiscoveryLayerLen(d) > buf.Length - at ==> buf[..] == old(buf[..])
  {
    if |d.universes| > DISCOVERY_UNI_PER_PAGE { return Refused(PackInvalidData); }
    if buf.Length - at < DiscoveryLayerLen(d) { return Refused(PackBufferInsufficient); }
    ghost var s0 := buf[..];
    var head := FlagsAndLength(DiscoveryLayerLen(d)) + Be32(VECTOR_UNIVERSE_DISCOVERY_UNIVERSE_LIST)
                + [d.page] + [d.lastPage];
    Put(buf, at, head);
    ghost var s1 := buf[..];
    var i := 1;
    while i < |d.universes|
      invariant 1 <= i && (i <= |d.universes| || i == 1)
      invariant buf[..] == s1
      invariant forall a, b | 0 <= a < b < i && b < |d.universes| :: d.universes[a] < d.universes[b]
    {
      if d.universes[i] <= d.universes[i - 1] {
        WrittenThenWithin(s0, s1, buf[..], at, head, 8, 2 * |d.universes|);
        return Refused(PackInvalidData);
      }
      i := i + 1;
    }
    PutUniverses(buf, at + 8, d.universes);
    WrittenAppend(s0, s1, buf[..], at, head, EncodeUniverses(d.universes));
    return Packed(Unit);
  }

  method PutUniverses(buf: array<byte>, at: nat, us: seq<u16>)
    requires at + 2 * |us| <= buf.Length
    modifies buf
    ensures Written(old(buf[..]), buf[..], at, EncodeUniverses(us))
  {
    ghost var s0 := buf[..];
    var i := 0;
    while i < |us|
      invariant i <= |us|
      invariant Written(s0, buf[..], at, EncodeUniverses(us[..i]))
    {
      ghost var s1 := buf[..];
      Put(buf, at + 2 * i, Be16(us[i]));
      WrittenAppend(s0, s1, buf[..], at, EncodeUniverses(us[..i]), Be16(us[i]));
      assert us[..i + 1][..i] == us[..i];
      i := i + 1;
    }
    assert us[..|us|] == us;
  }

  /** Packs the framing layer of a discovery packet; of a long name the same holds as in a data packet. */
  method PackDiscovery(d: DiscoveryFraming, buf: array<byte>, at: nat) returns (r: Packing<Unit>)
    requires at <= buf.Length
    modifies buf
    ensures r == if buf.Length - at < DiscoveryLen(d) then Refused(PackBufferInsufficient)
                 else if buf.Length - at < 6 + |d.name| then Aborted
                 else if |d.universes| > DISCOVERY_UNI_PER_PAGE || !Ascending(d.universes)
                 then Refused(PackInvalidData) else Packed(Unit)
    ensures r.Packed? ==> Written(old(buf[..]), buf[..], at, EncodeDiscovery(d) + NameSpill(d.name, DiscoveryLen(d)))
    ensures r.Aborted? ==> Within(old(buf[..]), buf[..], at, DiscoveryLen(d))
    ensures r.Refused? && DiscoveryLen(d) <= buf.Length - at ==>
              Within(old(buf[..]), buf[..], at, DiscoveryLen(d) + |NameSpill(d.name, DiscoveryLen(d))|)
    ensures r.Refused? && DiscoveryLen(d) > buf.Length - at ==> buf[..] == old(buf[..])
  {
    if buf.Length - at < DiscoveryLen(d) { return Refused(PackBufferInsufficient); }
    ghost var s0 := buf[..];
    var ok := PackDiscoveryHead(d, buf, at);
    if !ok {
      WithinGrows(s0, buf[..], at, 70, DiscoveryLen(d));
      return Aborted;
    }
    ghost var s1 := buf[..];
    r := PackDiscoveryLayer(d, buf, at + 74);
    if r.Packed? {
      WrittenOverSpill(s0, s1, buf[..], at, EncodeDiscoveryHead(d), d.name, EncodeDiscoveryLayer(d));
    } else {
      WrittenThenWithin(s0, s1, buf[..], at, EncodeDiscoveryHead(d) + NameSpill(d.name, 74), 74, DiscoveryLayerLen(d));
    }
  }

  method PackDiscoveryHead(d: DiscoveryFraming, buf: array<byte>, at: nat) returns (ok: bool)
    requires at + 74 <= buf.Length
    modifies buf
    ensures ok <==> 6 + |d.name| <= buf.Length - at
    ensures ok ==> Written(old(buf[..]), buf[..], at, EncodeDiscoveryHead(d) + NameSpill(d.name, 74))
    ensures !ok ==> Within(old(buf[..]), buf[..], at, 70)
  {
    ghost var s0 := buf[..];
    var head := FlagsAndLength(DiscoveryLen(d)) + Be32(VECTOR_E131_EXTENDED_DISCOVERY);
    ok := PackFront(head, d.name, buf, at);
    if ok {
      ghost var s1 := buf[..];
      PutZeros(buf, at + 70, 4);
      WrittenOverSpill(s0, s1, buf[..], at, head + PadName(d.name), d.name, Zeros(4));
    }
  }

  function FramingLen(data: PacketData): nat { RootLen(Packet(Zeros(16), data)) - 22 }

  function FramingSpill(data: PacketData): Bytes { Spill(Packet(Zeros(16), data)) }

  /** Packs whichever framing layer the packet has. */
  method PackFraming(data: PacketData, buf: array<byte>, at: nat) returns (r: Packing<Unit>)
    requires at <= buf.Length && FramingLen(data) <= buf.Length - at
    modifies buf
    ensures r == if buf.Length - at < FramingLen(data) + |FramingSpill(data)| then Aborted
                 else if !PackOk(Packet(Zeros(16), data)) then Refused(PackInvalidData) else Packed(Unit)
    ensures r.Packed? ==> Written(old(buf[..]), buf[..], at, EncodeFraming(data) + FramingSpill(data))
    ensures r.Aborted? ==> Within(old(buf[..]), buf[..], at, FramingLen(data))
    ensures r.Refused? ==> Within(old(buf[..]), buf[..], at, FramingLen(data) + |FramingSpill(data)|)
  {
    match data {
      case DataPacket(d) => r := PackData(d, buf, at);
      case SyncPacket(s) => r := PackSync(s, buf, at);
      case DiscoveryPacket(u) => r := PackDiscovery(u, buf, at);
    }
    assert EncodeFraming(data) + [] == EncodeFraming(data);
  }

  lemma Associates(a: Bytes, b: Bytes, c: Bytes)
    ensures a + (b + c) == a + b + c
  {
  }

  /** Packs the root layer. */
  method PackRoot(p: Packet, buf: array<byte>, at: nat) returns (r: Packing<Unit>)
    requires at <= buf.Length
    modifies buf
    ensures r == if buf.Length - at < RootLen(p) then Refused(PackBufferInsufficient)
                 else if buf.Length - at < RootLen(p) + |Spill(p)| then Aborted
                 else if !PackOk(p) then Refused(PackInvalidData) else Packed(Unit)
    ensures r.Packed? ==> Written(old(buf[..]), buf[..], at, EncodeRoot(p) + Spill(p))
    ensures r.Aborted? ==> Within(old(buf[..]), buf[..], at, RootLen(p))
    ensures r.Refused? && RootLen(p) <= buf.Length - at ==>
              Within(old(buf[..]), buf[..], at, RootLen(p) + |Spill(p)|)
    ensures r.Refused? && RootLen(p) > buf.Length - at ==> buf[..] == old(buf[..])
  {
    if buf.Length - at < RootLen(p) { return Refused(PackBufferInsufficient); }
    ghost var s0 := buf[..];
    var head := FlagsAndLength(RootLen(p)) + Be32(RootVector(p.data)) + p.cid;
    Put(buf, at, head);
    ghost var s1 := buf[..];
    r := PackFraming(p.data, buf, at + 22);
    if r.Packed? {
      WrittenAppend(s0, s1, buf[..], at, head, EncodeFraming(p.data) + Spill(p));
      Associates(head, EncodeFraming(p.data), Spill(p));
    } else {
      WrittenThenWithin(s0, s1, buf[..], at, head, 22, RootLen(p) - 22 + if r.Aborted? then 0 else |Spill(p)|);
    }
  }

  lemma FrontOfBuffer(before: Bytes, after: Bytes, data: Bytes, n: nat)
    ensures Written(before, after, 0, data) ==> after == data + before[|data|..]
    ensures Within(before, after, 0, n) ==> after[n..] == before[n..]
  {
  }

  /**
   * Packs a packet into the front of a buffer. Success fixes every one of the packet's bytes, whatever the buffer
   * held. Nothing behind them changes, even when packing fails half way, except under the end of a name that is
   * too long for the whole packet; a name too long for the buffer aborts.
   */
  method Pack(p: Packet, buf: array<byte>) returns (r: Packing<Unit>)
    modifies buf
    ensures r == if buf.Length < Len(p) then Refused(InvalidData)
                 else if buf.Length < Len(p) + |Spill(p)| then Aborted
                 else if !PackOk(p) then Refused(PackInvalidData) else Packed(Unit)
    ensures r.Packed? ==> buf[..] == Encode(p) + Spill(p) + old(buf[Len(p) + |Spill(p)|..])
    ensures r.Aborted? ==> buf[Len(p)..] == old(buf[Len(p)..])
    ensures r.Refused? && Len(p) <= buf.Length ==> buf[Len(p) + |Spill(p)|..] == old(buf[Len(p) + |Spill(p)|..])
    ensures r.Refused? && Len(p) > buf.Length ==> buf[..] == old(buf[..])
  {
    if buf.Length < Len(p) { return Refused(InvalidData); }
    ghost var s0 := buf[..];
    Put(buf, 0, Preamble());
    ghost var s1 := buf[..];
    r := PackRoot(p, buf, 16);
    ghost var n := if r.Aborted? then Len(p) else Len(p) + |Spill(p)|;
    if r.Packed? {
      WrittenAppend(s0, s1, buf[..], 0, Preamble(), EncodeRoot(p) + Spill(p));
      Associates(Preamble(), EncodeRoot(p), Spill(p));
    } else {
      WrittenThenWithin(s0, s1, buf[..], 0, Preamble(), 16, n - 16);
    }
    FrontOfBuffer(s0, buf[..], Encode(p) + Spill(p), n);
    assert s0[n..] == old(buf[n..]) && buf[..][n..] == buf[n..];
  }

  /** Packs into memory of exactly the packet's size. */
  method PackAlloc(p: Packet) returns (r: Packing<Bytes>)
    ensures r == if Spill(p) != [] then Aborted
                 else if !PackOk(p) then Refused(PackInvalidData) else Packed(Encode(p))
  {
    var buf := new byte[Len(p)];
    var packed := Pack(p, buf);
    match packed {
      case Refused(e) => return Refused(e);
      case Aborted => return Aborted;
      case Packed(_) =>
        assert buf[..] == Encode(p);
        return Packed(buf[..]);
    }
  }

  lemma ShortNameSpillsNothing(p: Packet)
    requires NameFits(p)
    ensures Spill(p) == []
  {
  }

  /** Packing a valid packet over whatever a buffer holds leaves a buffer that parses to the packet. */
  method PackThenParse(p: Packet, buf: array<byte>) returns (r: Parsed<Packet>)
    requires Valid(p) && Len(p) <= buf.Length
    modifies buf
    ensures r == Done(p)
  {
    ghost var rest := buf[Len(p)..];
    ShortNameSpillsNothing(p);
    var packed := Pack(p, buf);
    assert buf[..] == Encode(p) + rest;
    RoundTrip(p, rest);
    r := Parse(buf[..]);
  }

  // ------------------------------------------------------ the parsers' loops

  /** Reads universes one by one and stops at the first that does not exceed its predecessor. */
  method ParseUniverseListLoop(buf: Bytes, length: nat) returns (r: Parsed<seq<u16>>)
    ensures r == ParseUniverseList(buf, length)
  {
    var universes: seq<u16> := [];
    var i := 0;
    var last: int := -1;
    if |buf| < 2 * length { return Fail(InsufficientData); }
    ghost var all := DecodeUniverses(buf, length);
    while i < 2 * length
      invariant i == 2 * |universes| && |universes| <= length
      invariant universes == all[..|universes|] && Ascending(universes)
      invariant last == if universes == [] then -1 else universes[|universes| - 1]
    {
      var u := ReadBe16(buf, i);
      assert u == all[|universes|];
      if u <= last {
        assert all[|universes| - 1] == last;
        return Fail(InvalidUniverseOrder);
      }
      universes := universes + [u];
      last := u;
      i := i + 2;
    }
    assert all == all[..length];
    return Done(universes);
  }

  /** Looks for the NUL that ends a source name. */
  method ParseSourceNameLoop(buf: Bytes) returns (r: Parsed<Bytes>)
    requires |buf| > 0
    ensures r == ParseSourceName(buf)
  {
    var n := |buf|;
    var i := 0;
    while i < |buf|
      invariant i <= |buf| && n == |buf|
      invariant forall k | 0 <= k < i :: buf[k] != 0
    {
      if buf[i] == 0 {
        n := i;
        break;
      }
      i := i + 1;
    }
    assert n == FirstZero(buf);
    if n == |buf| && buf[|buf| - 1] != 0 { return Fail(SourceNameNotNullTerminated); }
    if !ValidUtf8(buf[..n]) { return Fail(InvalidUtf8); }
    return Done(buf[..n]);
  }
}
