/** The sender as a state machine: its registry, its counters and the packets it has put on the wire. */
module Sender {
  import opened Types
  import opened Packet
  import Paging

  /**
   * `sent` logs the packets that went out. `script` holds what the socket will answer to the coming sends: false is
   * an I/O error, and past its end every send succeeds.
   */
  datatype State = State(
    cid: Cid, name: Bytes, preview: bool, dataSeq: map<u16, byte>, syncSeq: map<u16, byte>,
    universes: seq<u16>, running: bool, sent: seq<Packet>, script: seq<bool>)

  const TERMINATE_STREAM_PACKET_COUNT := 3

  function SendTo(s: State, p: Packet): (State, bool) {
    var rest := if s.script == [] then [] else s.script[1..];
    if s.script != [] && !s.script[0] then (s.(script := rest), false)
    else (s.(script := rest, sent := s.sent + [p]), true)
  }

  function SeqOf(m: map<u16, byte>, u: u16): byte {
    if u in m then m[u] else 0
  }

  function NextSeq(n: byte): byte {
    if n == 255 then 0 else n + 1
  }

  // ------------------------------------------------------------------ registry

  function RegisterUniverse(s: State, u: u16): (State, Result<Unit>)
    requires Ascending(s.universes)
  {
    if !InRange(u) then (s, Err(IllegalUniverse(u)))
    else (s.(universes := Insert(s.universes, u)), Ok(Unit))
  }

  function DeregisterUniverse(s: State, u: u16): (State, Result<Unit>)
    requires Ascending(s.universes)
  {
    if !InRange(u) then (s, Err(IllegalUniverse(u)))
    else if u !in s.universes then (s, Err(UniverseNotFound(u)))
    else (s.(universes := Remove(s.universes, u)), Ok(Unit))
  }

  function UniverseAllowed(s: State, u: u16): Result<Unit> {
    if !InRange(u) then Err(IllegalUniverse(u))
    else if u !in s.universes then Err(UniverseNotRegistered(u))
    else Ok(Unit)
  }

  function AllAllowed(s: State, us: seq<u16>): Result<Unit> {
    if us == [] then Ok(Unit)
    else if UniverseAllowed(s, us[0]).Err? then UniverseAllowed(s, us[0])
    else AllAllowed(s, us[1..])
  }

  // --------------------------------------------------------------------- data

  function DataPkt(s: State, u: u16, data: Bytes, priority: byte, sync: u16, terminated: bool): Packet {
    Packet(s.cid, DataPacket(DataFraming(
      s.name, priority, sync, SeqOf(s.dataSeq, u), s.preview, terminated, false, u, data)))
  }

  function SendUniverse(s: State, u: u16, data: Bytes, priority: byte, sync: u16): (State, Result<Unit>) {
    if priority > E131_MAX_PRIORITY then (s, Err(InvalidPriority(priority)))
    else if |data| > UNIVERSE_CHANNEL_CAPACITY then (s, Err(ExceedUniverseCapacity(|data|)))
    else
      var (s1, ok) := SendTo(s, DataPkt(s, u, data, priority, sync, false));
      if !ok then (s1, Err(Io))
      else (s1.(dataSeq := s.dataSeq[u := NextSeq(SeqOf(s.dataSeq, u))]), Ok(Unit))
  }

  /** How many universes hold `n` bytes of data. */
  function Required(n: nat): nat { (n + UNIVERSE_CHANNEL_CAPACITY - 1) / UNIVERSE_CHANNEL_CAPACITY }

  function ChunkEnd(data: Bytes, i: nat): nat {
    if (i + 1) * UNIVERSE_CHANNEL_CAPACITY <= |data| then (i + 1) * UNIVERSE_CHANNEL_CAPACITY else |data|
  }

  function Chunk(data: Bytes, i: nat): Bytes
    requires i < Required(|data|)
  {
    data[i * UNIVERSE_CHANNEL_CAPACITY..ChunkEnd(data, i)]
  }

  /** The chunks from the `i`-th on, each to its universe; the first failure stops. */
  function SendChunks(s: State, us: seq<u16>, data: Bytes, priority: byte, sync: u16, i: nat): (State, Result<Unit>)
    requires i <= Required(|data|) <= |us|
    decreases Required(|data|) - i
  {
    if i == Required(|data|) then (s, Ok(Unit))
    else
      var (s1, r) := SendUniverse(s, us[i], Chunk(data, i), priority, sync);
      if r.Err? then (s1, r) else SendChunks(s1, us, data, priority, sync, i + 1)
  }

  function Send(s: State, us: seq<u16>, data: Bytes, priority: Option<byte>, sync: Option<u16>): (State, Result<Unit>) {
    if !s.running then (s, Err(SenderAlreadyTerminated))
    else if data == [] then (s, Err(DataArrayEmpty))
    else if AllAllowed(s, us).Err? then (s, AllAllowed(s, us))
    else if sync.Some? && UniverseAllowed(s, sync.value).Err? then (s, Err(IllegalSyncUniverse(sync.value)))
    else if |us| < Required(|data|) then (s, Err(UniverseListEmpty))
    else
      SendChunks(s, us, data, if priority.Some? then priority.value else E131_DEFAULT_PRIORITY,
                 if sync.Some? then sync.value else E131_NO_SYNC_ADDR, 0)
  }

  function SendSync(s: State, u: u16): (State, Result<Unit>) {
    if UniverseAllowed(s, u).Err? then (s, UniverseAllowed(s, u))
    else
      var n := SeqOf(s.syncSeq, u);
      var (s1, ok) := SendTo(s, Packet(s.cid, SyncPacket(SyncFraming(n, u))));
      if !ok then (s1, Err(Io)) else (s1.(syncSeq := s.syncSeq[u := NextSeq(n)]), Ok(Unit))
  }

  // -------------------------------------------------------------- termination

  /** One termination packet. Its counter is taken out of the table before the send and put back after it. */
  function SendTerminate(s: State, u: u16, startCode: byte): (State, Result<Unit>) {
    if UniverseAllowed(s, u).Err? then (s, UniverseAllowed(s, u))
    else
      var p := DataPkt(s, u, [startCode], E131_DEFAULT_PRIORITY, 0, true);
      var (s1, ok) := SendTo(s.(dataSeq := s.dataSeq - {u}), p);
      if !ok then (s1, Err(Io))
      else (s1.(dataSeq := s1.dataSeq[u := NextSeq(SeqOf(s.dataSeq, u))]), Ok(Unit))
  }

  function SendTerminates(s: State, u: u16, startCode: byte, n: nat): (State, Result<Unit>)
    decreases n
  {
    if n == 0 then (s, Ok(Unit))
    else
      var (s1, r) := SendTerminate(s, u, startCode);
      if r.Err? then (s1, r) else SendTerminates(s1, u, startCode, n - 1)
  }

  function TerminateStream(s: State, u: u16, startCode: byte): (State, Result<Unit>)
    requires Ascending(s.universes)
  {
    var (s1, r) := SendTerminates(s, u, startCode, TERMINATE_STREAM_PACKET_COUNT);
    SendTerminatesKeepsRegistry(s, u, startCode, TERMINATE_STREAM_PACKET_COUNT);
    if r.Err? then (s1, r) else DeregisterUniverse(s1, u)
  }

  lemma {:induction false} SendTerminatesKeepsRegistry(s: State, u: u16, startCode: byte, n: nat)
    ensures
      var (s1, r) := SendTerminates(s, u, startCode, n);
      && s1.universes == s.universes && s1.running == s.running && s1.cid == s.cid && s1.name == s.name
      && s1.preview == s.preview && s1.syncSeq == s.syncSeq
      && (n > 0 && r.Ok? ==> InRange(u) && u in s.universes)
    decreases n
  {
    if n > 0 {
      var (s1, r) := SendTerminate(s, u, startCode);
      if r.Ok? { SendTerminatesKeepsRegistry(s1, u, startCode, n - 1); }
    }
  }

  lemma TerminateKeepsAscending(s: State, u: u16, startCode: byte)
    requires Ascending(s.universes)
    ensures Ascending(TerminateStream(s, u, startCode).0.universes)
  {
    SendTerminatesKeepsRegistry(s, u, startCode, TERMINATE_STREAM_PACKET_COUNT);
    RemoveKeepsOrder(s.universes, u);
  }

  function TerminateAll(s: State, us: seq<u16>, startCode: byte): (State, Result<Unit>)
    requires Ascending(s.universes)
    decreases |us|
  {
    if us == [] then (s, Ok(Unit))
    else
      TerminateKeepsAscending(s, us[0], startCode);
      var (s1, r) := TerminateStream(s, us[0], startCode);
      if r.Err? then (s1, r) else TerminateAll(s1, us[1..], startCode)
  }

  function Terminate(s: State, startCode: byte): (State, Result<Unit>)
    requires Ascending(s.universes)
  {
    TerminateAll(s.(running := false), s.universes, startCode)
  }

  // ---------------------------------------------------------------- discovery

  function DiscoveryPkt(s: State, page: nat): Packet
    requires page < Paging.PageCount(s.universes) <= 0x100
  {
    Packet(s.cid, DiscoveryPacket(Paging.PageFraming(s.name, s.universes, page)))
  }

  function SendPages(s: State, page: nat): (State, Result<Unit>)
    requires page <= Paging.PageCount(s.universes) <= 0x100
    decreases Paging.PageCount(s.universes) - page
  {
    if page == Paging.PageCount(s.universes) then (s, Ok(Unit))
    else
      var (s1, ok) := SendTo(s, DiscoveryPkt(s, page));
      if !ok then (s1, Err(Io)) else SendPages(s1, page + 1)
  }

  function SendDiscovery(s: State): (State, Result<Unit>)
    requires Inv(s)
  {
    Paging.RegistryBound(s.universes);
    SendPages(s, 0)
  }

  // ---------------------------------------------------------------- operations

  datatype Op =
    | OpRegister(u: u16)
    | OpSend(us: seq<u16>, data: Bytes, priority: Option<byte>, sync: Option<u16>)
    | OpSendSync(u: u16)
    | OpTerminateStream(u: u16, startCode: byte)
    | OpTerminate(startCode: byte)
    | OpSendDiscovery
    | OpSetName(name: Bytes)
    | OpSetPreview(preview: bool)

  function Apply(s: State, op: Op): (State, Result<Unit>)
    requires Inv(s)
  {
    match op
    case OpRegister(u) => RegisterUniverse(s, u)
    case OpSend(us, data, priority, sync) => Send(s, us, data, priority, sync)
    case OpSendSync(u) => SendSync(s, u)
    case OpTerminateStream(u, code) => TerminateStream(s, u, code)
    case OpTerminate(code) => Terminate(s, code)
    case OpSendDiscovery => SendDiscovery(s)
    case OpSetName(name) =>
      if |name| > SOURCE_NAME_LENGTH then (s, Err(MalformedSourceName)) else (s.(name := name), Ok(Unit))
    case OpSetPreview(p) => (s.(preview := p), Ok(Unit))
  }

  function Initial(cid: Cid, name: Bytes, script: seq<bool>): State {
    State(cid, name, false, map[], map[], [], true, [], script)
  }

  // ------------------------------------------------------------------ invariant

  /** The registry is ascending and legal, the name fits its field. */
  ghost predicate Inv(s: State) {
    && Ascending(s.universes) && (forall u | u in s.universes :: InRange(u))
    && |s.name| <= SOURCE_NAME_LENGTH
  }

  /** Everything of a state but the counters and the log. */
  ghost predicate SameIdentity(s: State, t: State) {
    && t.cid == s.cid && t.name == s.name && t.preview == s.preview
    && t.universes == s.universes && t.running == s.running
  }

  lemma {:induction false} SendChunksKeeps(s: State, us: seq<u16>, data: Bytes, priority: byte, sync: u16, i: nat)
    requires i <= Required(|data|) <= |us|
    ensures SameIdentity(s, SendChunks(s, us, data, priority, sync, i).0)
    ensures SendChunks(s, us, data, priority, sync, i).0.syncSeq == s.syncSeq
    decreases Required(|data|) - i
  {
    if i < Required(|data|) {
      var (s1, r) := SendUniverse(s, us[i], Chunk(data, i), priority, sync);
      if r.Ok? { SendChunksKeeps(s1, us, data, priority, sync, i + 1); }
    }
  }

  lemma {:induction false} SendPagesKeeps(s: State, page: nat)
    requires page <= Paging.PageCount(s.universes) <= 0x100
    ensures SameIdentity(s, SendPages(s, page).0)
    ensures SendPages(s, page).0.syncSeq == s.syncSeq && SendPages(s, page).0.dataSeq == s.dataSeq
    decreases Paging.PageCount(s.universes) - page
  {
    if page < Paging.PageCount(s.universes) {
      var (s1, ok) := SendTo(s, DiscoveryPkt(s, page));
      if ok { SendPagesKeeps(s1, page + 1); }
    }
  }

  lemma TerminateStreamKeepsInv(s: State, u: u16, startCode: byte)
    requires Inv(s)
    ensures
      var s1 := TerminateStream(s, u, startCode).0;
      Inv(s1) && s1.running == s.running && s1.cid == s.cid && s1.name == s.name && s1.preview == s.preview
  {
    SendTerminatesKeepsRegistry(s, u, startCode, TERMINATE_STREAM_PACKET_COUNT);
    RemoveKeepsOrder(s.universes, u);
  }

  lemma {:induction false} TerminateAllKeepsInv(s: State, us: seq<u16>, startCode: byte)
    requires Inv(s)
    ensures
      var s1 := TerminateAll(s, us, startCode).0;
      Inv(s1) && s1.running == s.running && s1.cid == s.cid && s1.name == s.name && s1.preview == s.preview
    decreases |us|
  {
    if us != [] {
      TerminateStreamKeepsInv(s, us[0], startCode);
      var (s1, r) := TerminateStream(s, us[0], startCode);
      if r.Ok? { TerminateAllKeepsInv(s1, us[1..], startCode); }
    }
  }

  lemma ApplyKeepsInv(s: State, op: Op)
    requires Inv(s)
    ensures Inv(Apply(s, op).0) && Apply(s, op).0.cid == s.cid
  {
    match op
    case OpRegister(u) => InsertKeepsOrder(s.universes, u);
    case OpSend(us, data, priority, sync) =>
      if |us| >= Required(|data|) {
        SendChunksKeeps(s, us, data, if priority.Some? then priority.value else E131_DEFAULT_PRIORITY,
                        if sync.Some? then sync.value else E131_NO_SYNC_ADDR, 0);
      }
    case OpTerminateStream(u, code) => TerminateStreamKeepsInv(s, u, code);
    case OpTerminate(code) => TerminateAllKeepsInv(s.(running := false), s.universes, code);
    case OpSendDiscovery =>
      Paging.RegistryBound(s.universes);
      SendPagesKeeps(s, 0);
    case _ =>
  }
}
