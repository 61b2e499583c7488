/** The sender as an object updated in place, each method tied to the sender's state machine. */
module SacnSource {
  import opened Types
  import opened P = Packet
  import opened S = Sender
  import PackBuffer
  import Paging

  class SacnSource {
    const cid: Cid
    var name: Bytes
    var previewData: bool
    var dataSequences: map<u16, byte>
    var syncSequences: map<u16, byte>
    var universes: seq<u16>
    var running: bool
    /** The socket: what it will answer to the coming sends, and the datagrams it has taken. */
    var script: seq<bool>
    var wire: seq<Bytes>
    ghost var sent: seq<P.Packet>

    ghost function Abs(): State
      reads this
    {
      State(cid, name, previewData, dataSequences, syncSequences, universes, running, sent, script)
    }

    /** The datagrams are the packets of the log, packed. */
    ghost predicate Valid()
      reads this
    {
      && Inv(Abs()) && |wire| == |sent|
      && forall i | 0 <= i < |sent| :: wire[i] == Encode(sent[i])
    }

    constructor (cid: Cid, name: Bytes, script: seq<bool>)
      requires |name| <= SOURCE_NAME_LENGTH
      ensures Valid() && Abs() == Initial(cid, name, script)
    {
      this.cid, this.name, this.script := cid, name, script;
      previewData, running := false, true;
      dataSequences, syncSequences := map[], map[];
      universes, wire, sent := [], [], [];
    }

    /** A new source, unless its name is too long. */
    static method Create(cid: Cid, name: Bytes, script: seq<bool>) returns (r: Result<SacnSource>)
      ensures r.Err? <==> |name| > SOURCE_NAME_LENGTH
      ensures r.Err? ==> r.error == MalformedSourceName
      ensures r.Ok? ==> fresh(r.value) && r.value.Valid() && r.value.Abs() == Initial(cid, name, script)
    {
      if |name| > SOURCE_NAME_LENGTH { return Err(MalformedSourceName); }
      var source := new SacnSource(cid, name, script);
      return Ok(source);
    }

    /** Packs a packet and hands it to the socket. */
    method Transmit(p: P.Packet) returns (ok: bool)
      requires Valid() && NameFits(p) && PackOk(p)
      modifies `script, `wire, `sent
      ensures Valid() && (Abs(), ok) == SendTo(old(Abs()), p)
    {
      PackBuffer.ShortNameSpillsNothing(p);
      var packed := PackBuffer.PackAlloc(p);
      ok := script == [] || script[0];
      script := if script == [] then [] else script[1..];
      if ok {
        wire := wire + [packed.value];
        sent := sent + [p];
      }
    }

    method RegisterUniverse(u: u16) returns (r: Result<Unit>)
      requires Valid()
      modifies `universes
      ensures Valid() && (Abs(), r) == S.RegisterUniverse(old(Abs()), u)
    {
      InsertKeepsOrder(universes, u);
      if !InRange(u) { return Err(IllegalUniverse(u)); }
      if universes == [] {
        assert universes[..0] + [u] + universes[0..] == [u];
        universes := [u];
      } else {
        match BinarySearch(universes, u) {
          case Missing(i) => universes := universes[..i] + [u] + universes[i..];
          case Found(_) =>
        }
      }
      return Ok(Unit);
    }

    method DeregisterUniverse(u: u16) returns (r: Result<Unit>)
      requires Valid()
      modifies `universes
      ensures Valid() && (Abs(), r) == S.DeregisterUniverse(old(Abs()), u)
    {
      RemoveKeepsOrder(universes, u);
      if !InRange(u) { return Err(IllegalUniverse(u)); }
      match BinarySearch(universes, u) {
        case Missing(_) => return Err(UniverseNotFound(u));
        case Found(i) =>
          universes := universes[..i] + universes[i + 1..];
          return Ok(Unit);
      }
    }

    method UniverseAllowed(u: u16) returns (r: Result<Unit>)
      requires Valid()
      ensures r == S.UniverseAllowed(Abs(), u)
    {
      if !InRange(u) { return Err(IllegalUniverse(u)); }
      if u !in universes { return Err(UniverseNotRegistered(u)); }
      return Ok(Unit);
    }

    /** The first of the universes that may not be used, before anything is sent. */
    method UniversesAllowed(us: seq<u16>) returns (r: Result<Unit>)
      requires Valid()
      ensures r == AllAllowed(Abs(), us)
    {
      var i := 0;
      while i < |us|
        invariant i <= |us| && AllAllowed(Abs(), us) == AllAllowed(Abs(), us[i..])
      {
        r := UniverseAllowed(us[i]);
        if r.Err? { return r; }
        assert us[i..][1..] == us[i + 1..];
        i := i + 1;
      }
      assert us[i..] == [];
      return Ok(Unit);
    }

    method Send(us: seq<u16>, data: Bytes, priority: Option<byte>, sync: Option<u16>) returns (r: Result<Unit>)
      requires Valid()
      modifies `script, `wire, `sent, `dataSequences
      ensures Valid() && (Abs(), r) == S.Send(old(Abs()), us, data, priority, sync)
    {
      if !running { return Err(SenderAlreadyTerminated); }
      if data == [] { return Err(DataArrayEmpty); }
      r := UniversesAllowed(us);
      if r.Err? { return r; }
      if sync.Some? {
        var allowed := UniverseAllowed(sync.value);
        if allowed.Err? { return Err(IllegalSyncUniverse(sync.value)); }
      }
      var required := Required(|data|);
      if |us| < required { return Err(UniverseListEmpty); }
      var pri := if priority.Some? then priority.value else E131_DEFAULT_PRIORITY;
      var addr := if sync.Some? then sync.value else E131_NO_SYNC_ADDR;
      r := SendAllChunks(us, data, pri, addr);
    }

    /** The loop over the universes that the data needs. */
    method SendAllChunks(us: seq<u16>, data: Bytes, priority: byte, sync: u16) returns (r: Result<Unit>)
      requires Valid() && Required(|data|) <= |us|
      modifies `script, `wire, `sent, `dataSequences
      ensures Valid() && (Abs(), r) == SendChunks(old(Abs()), us, data, priority, sync, 0)
    {
      ghost var all := SendChunks(Abs(), us, data, priority, sync, 0);
      var i := 0;
      while i < Required(|data|)
        invariant i <= Required(|data|) && Valid() && all == SendChunks(Abs(), us, data, priority, sync, i)
      {
        var start := i * UNIVERSE_CHANNEL_CAPACITY;
        r := SendUniverse(us[i], data[start..ChunkEnd(data, i)], priority, sync);
        if r.Err? { return r; }
        i := i + 1;
      }
      return Ok(Unit);
    }

    method SendUniverse(u: u16, data: Bytes, priority: byte, sync: u16) returns (r: Result<Unit>)
      requires Valid()
      modifies `script, `wire, `sent, `dataSequences
      ensures Valid() && (Abs(), r) == S.SendUniverse(old(Abs()), u, data, priority, sync)
    {
      if priority > E131_MAX_PRIORITY { return Err(InvalidPriority(priority)); }
      if |data| > UNIVERSE_CHANNEL_CAPACITY { return Err(ExceedUniverseCapacity(|data|)); }
      var sequence: byte := if u in dataSequences then dataSequences[u] else 0;
      var ok := Transmit(P.Packet(cid, DataPacket(DataFraming(
        name, priority, sync, sequence, previewData, false, false, u, data))));
      if !ok { return Err(Io); }
      sequence := if sequence == 255 then 0 else sequence + 1;
      dataSequences := dataSequences[u := sequence];
      return Ok(Unit);
    }

    method SendSyncPacket(u: u16) returns (r: Result<Unit>)
      requires Valid()
      modifies `script, `wire, `sent, `syncSequences
      ensures Valid() && (Abs(), r) == SendSync(old(Abs()), u)
    {
      r := UniverseAllowed(u);
      if r.Err? { return r; }
      var sequence: byte := if u in syncSequences then syncSequences[u] else 0;
      var ok := Transmit(P.Packet(cid, SyncPacket(SyncFraming(sequence, u))));
      if !ok { return Err(Io); }
      sequence := if sequence == 255 then 0 else sequence + 1;
      syncSequences := syncSequences[u := sequence];
      return Ok(Unit);
    }

    method SendTerminateStreamPkt(u: u16, startCode: byte) returns (r: Result<Unit>)
      requires Valid()
      modifies `script, `wire, `sent, `dataSequences
      ensures Valid() && (Abs(), r) == SendTerminate(old(Abs()), u, startCode)
    {
      r := UniverseAllowed(u);
      if r.Err? { return r; }
      var sequence: byte := if u in dataSequences then dataSequences[u] else 0;
      var p := P.Packet(cid, DataPacket(DataFraming(
        name, 100, 0, sequence, previewData, true, false, u, [startCode])));
      assert p == DataPkt(Abs(), u, [startCode], E131_DEFAULT_PRIORITY, 0, true);
      dataSequences := dataSequences - {u};
      var ok := Transmit(p);
      if !ok { return Err(Io); }
      sequence := if sequence == 255 then 0 else sequence + 1;
      dataSequences := dataSequences[u := sequence];
      return Ok(Unit);
    }

    method TerminateStream(u: u16, startCode: byte) returns (r: Result<Unit>)
      requires Valid()
      modifies `script, `wire, `sent, `dataSequences, `universes
      ensures Valid() && (Abs(), r) == S.TerminateStream(old(Abs()), u, startCode)
    {
      ghost var all := SendTerminates(Abs(), u, startCode, TERMINATE_STREAM_PACKET_COUNT);
      var i := 0;
      while i < TERMINATE_STREAM_PACKET_COUNT
        invariant i <= TERMINATE_STREAM_PACKET_COUNT && Valid()
        invariant all == SendTerminates(Abs(), u, startCode, TERMINATE_STREAM_PACKET_COUNT - i)
      {
        r := SendTerminateStreamPkt(u, startCode);
        if r.Err? { return r; }
        i := i + 1;
      }
      r := DeregisterUniverse(u);
    }

    method Terminate(startCode: byte) returns (r: Result<Unit>)
      requires Valid()
      modifies `script, `wire, `sent, `dataSequences, `universes, `running
      ensures Valid() && (Abs(), r) == S.Terminate(old(Abs()), startCode)
    {
      running := false;
      var us := universes;
      ghost var all := TerminateAll(Abs(), us, startCode);
      var i := 0;
      while i < |us|
        invariant i <= |us| && Valid() && all == TerminateAll(Abs(), us[i..], startCode)
      {
        r := TerminateStream(us[i], startCode);
        if r.Err? { return r; }
        assert us[i..][1..] == us[i + 1..];
        i := i + 1;
      }
      assert us[i..] == [];
      return Ok(Unit);
    }

    /** Counts the pages in a byte, as the wire does; no registry has too many (Paging.RegistryBound). */
    method SendUniverseDiscovery() returns (r: Result<Unit>)
      requires Valid()
      modifies `script, `wire, `sent
      ensures Valid() && (Abs(), r) == SendDiscovery(old(Abs()))
    {
      Paging.RegistryBound(universes);
      var pagesReq: byte := (|universes| / DISCOVERY_UNI_PER_PAGE + 1) % 0x100;
      ghost var all := SendPages(Abs(), 0);
      var p := 0;
      while p < pagesReq
        invariant p <= pagesReq == Paging.PageCount(universes) && Valid() && all == SendPages(Abs(), p)
      {
        var page := universes[p * DISCOVERY_UNI_PER_PAGE..Paging.PageEnd(universes, p)];
        Paging.PagesPack(cid, name, universes, p);
        r := SendUniverseDiscoveryDetailed(p, pagesReq - 1, page);
        if r.Err? { return r; }
        p := p + 1;
      }
      return Ok(Unit);
    }

    method SendUniverseDiscoveryDetailed(page: byte, lastPage: byte, us: seq<u16>) returns (r: Result<Unit>)
      requires Valid()
      modifies `script, `wire, `sent
      ensures Valid()
      ensures
        var p := P.Packet(cid, DiscoveryPacket(DiscoveryFraming(old(name), page, lastPage, us)));
        if PackOk(p) then
          var (s, ok) := SendTo(old(Abs()), p);
          Abs() == s && r == if ok then Ok(Unit) else Err(Io)
        else Abs() == old(Abs()) && r == Err(ParsePack(PackInvalidData))
    {
      var p := P.Packet(cid, DiscoveryPacket(DiscoveryFraming(name, page, lastPage, us)));
      if !PackOk(p) { return Err(ParsePack(PackInvalidData)); }
      var ok := Transmit(p);
      return if ok then Ok(Unit) else Err(Io);
    }

    method SetName(name: Bytes) returns (r: Result<Unit>)
      requires Valid()
      modifies `name
      ensures Valid() && (Abs(), r) == Apply(old(Abs()), OpSetName(name))
    {
      if |name| > SOURCE_NAME_LENGTH { return Err(MalformedSourceName); }
      this.name := name;
      return Ok(Unit);
    }

    method SetPreviewMode(preview: bool)
      requires Valid()
      modifies `previewData
      ensures Valid() && Abs() == Apply(old(Abs()), OpSetPreview(preview)).0
    {
      previewData := preview;
    }
  }
}
