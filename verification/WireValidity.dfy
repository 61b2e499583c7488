/** What a sender puts on the wire can be packed and parses back. */
module WireValidity {
  import opened Types
  import opened Packet
  import opened Sender
  import opened SenderRuns
  import Paging

  /** Every packet on the wire is the sender's and valid, and so will the next ones be. */
  ghost predicate WireOk(s: State) {
    && Inv(s) && ValidName(s.name) && (forall u | u in s.universes :: InDataRange(u))
    && forall i | 0 <= i < |s.sent| :: Valid(s.sent[i]) && s.sent[i].cid == s.cid
  }

  /** Names of at most 63 bytes without a NUL, and no use of the discovery universe for data. */
  ghost predicate WireSafe(op: Op) {
    && (op.OpSetName? ==> ValidName(op.name))
    && (op.OpRegister? ==> op.u != E131_DISCOVERY_UNIVERSE)
  }

  lemma {:induction false} AllowedEach(s: State, us: seq<u16>, i: nat)
    requires AllAllowed(s, us).Ok? && i < |us|
    ensures us[i] in s.universes
  {
    if i > 0 { AllowedEach(s, us[1..], i - 1); }
  }

  lemma SentOk(s: State, p: Packet)
    requires WireOk(s) && Valid(p) && p.cid == s.cid
    ensures WireOk(SendTo(s, p).0)
  {
  }

  lemma SendUniverseOk(s: State, u: u16, data: Bytes, priority: byte, sync: u16)
    requires WireOk(s) && u in s.universes && (sync == E131_NO_SYNC_ADDR || sync in s.universes)
    ensures
      var t := SendUniverse(s, u, data, priority, sync).0;
      WireOk(t) && t.universes == s.universes
  {
    if priority <= E131_MAX_PRIORITY && |data| <= UNIVERSE_CHANNEL_CAPACITY {
      var p := DataPkt(s, u, data, priority, sync, false);
      assert Valid(p);
      SentOk(s, p);
    }
  }

  lemma {:induction false} ChunksOk(s: State, us: seq<u16>, data: Bytes, priority: byte, sync: u16, i: nat)
    requires WireOk(s) && i <= Required(|data|) <= |us|
    requires sync == E131_NO_SYNC_ADDR || sync in s.universes
    requires forall j | 0 <= j < |us| :: us[j] in s.universes
    ensures WireOk(SendChunks(s, us, data, priority, sync, i).0)
    decreases Required(|data|) - i
  {
    if i < Required(|data|) {
      var (s1, r) := SendUniverse(s, us[i], Chunk(data, i), priority, sync);
      SendUniverseOk(s, us[i], Chunk(data, i), priority, sync);
      if r.Ok? { ChunksOk(s1, us, data, priority, sync, i + 1); }
    }
  }

  lemma SendOk(s: State, us: seq<u16>, data: Bytes, priority: Option<byte>, sync: Option<u16>)
    requires WireOk(s)
    ensures WireOk(Send(s, us, data, priority, sync).0)
  {
    if AllAllowed(s, us).Ok? && (sync.Some? ==> UniverseAllowed(s, sync.value).Ok?) && |us| >= Required(|data|) {
      forall i | 0 <= i < |us| ensures us[i] in s.universes { AllowedEach(s, us, i); }
      ChunksOk(s, us, data, if priority.Some? then priority.value else E131_DEFAULT_PRIORITY,
               if sync.Some? then sync.value else E131_NO_SYNC_ADDR, 0);
    }
  }

  lemma SendTerminateOk(s: State, u: u16, startCode: byte)
    requires WireOk(s)
    ensures WireOk(SendTerminate(s, u, startCode).0)
  {
    if UniverseAllowed(s, u).Ok? {
      var p := DataPkt(s, u, [startCode], E131_DEFAULT_PRIORITY, 0, true);
      assert Valid(p);
      SentOk(s.(dataSeq := s.dataSeq - {u}), p);
    }
  }

  lemma {:induction false} TerminatesOk(s: State, u: u16, startCode: byte, n: nat)
    requires WireOk(s)
    ensures WireOk(SendTerminates(s, u, startCode, n).0)
    decreases n
  {
    if n > 0 {
      var (s1, r) := SendTerminate(s, u, startCode);
      SendTerminateOk(s, u, startCode);
      if r.Ok? { TerminatesOk(s1, u, startCode, n - 1); }
    }
  }

  lemma TerminateStreamOk(s: State, u: u16, startCode: byte)
    requires WireOk(s)
    ensures WireOk(TerminateStream(s, u, startCode).0)
  {
    TerminatesOk(s, u, startCode, TERMINATE_STREAM_PACKET_COUNT);
    SendTerminatesKeepsRegistry(s, u, startCode, TERMINATE_STREAM_PACKET_COUNT);
    RemoveKeepsOrder(s.universes, u);
  }

  lemma {:induction false} TerminateAllOk(s: State, us: seq<u16>, startCode: byte)
    requires WireOk(s)
    ensures WireOk(TerminateAll(s, us, startCode).0)
    decreases |us|
  {
    if us != [] {
      TerminateStreamOk(s, us[0], startCode);
      var (s1, r) := TerminateStream(s, us[0], startCode);
      if r.Ok? { TerminateAllOk(s1, us[1..], startCode); }
    }
  }

  lemma {:induction false} PagesOk(s: State, page: nat)
    requires WireOk(s) && page <= Paging.PageCount(s.universes) <= 0x100
    ensures WireOk(SendPages(s, page).0)
    decreases Paging.PageCount(s.universes) - page
  {
    if page < Paging.PageCount(s.universes) {
      Paging.PagesPack(s.cid, s.name, s.universes, page);
      var (s1, ok) := SendTo(s, DiscoveryPkt(s, page));
      assert WireOk(s1);
      if ok { PagesOk(s1, page + 1); }
    }
  }

  lemma RegisterOk(s: State, u: u16)
    requires WireOk(s) && u != E131_DISCOVERY_UNIVERSE
    ensures WireOk(RegisterUniverse(s, u).0)
  {
    InsertKeepsOrder(s.universes, u);
  }

  lemma SendSyncOk(s: State, u: u16)
    requires WireOk(s)
    ensures WireOk(SendSync(s, u).0)
  {
    if UniverseAllowed(s, u).Ok? {
      var p := Packet(s.cid, SyncPacket(SyncFraming(SeqOf(s.syncSeq, u), u)));
      assert Valid(p);
      SentOk(s, p);
    }
  }

  lemma TerminateOk(s: State, startCode: byte)
    requires WireOk(s)
    ensures WireOk(Terminate(s, startCode).0)
  {
    TerminateAllOk(s.(running := false), s.universes, startCode);
  }

  lemma SendDiscoveryOk(s: State)
    requires WireOk(s)
    ensures WireOk(SendDiscovery(s).0)
  {
    Paging.RegistryBound(s.universes);
    PagesOk(s, 0);
  }

  lemma ApplyOk(s: State, op: Op)
    requires WireOk(s) && WireSafe(op)
    ensures WireOk(Apply(s, op).0)
  {
    match op
    case OpRegister(u) => RegisterOk(s, u);
    case OpSend(us, data, priority, sync) => SendOk(s, us, data, priority, sync);
    case OpSendSync(u) => SendSyncOk(s, u);
    case OpTerminateStream(u, code) => TerminateStreamOk(s, u, code);
    case OpTerminate(code) => TerminateOk(s, code);
    case OpSendDiscovery => SendDiscoveryOk(s);
    case _ =>
  }

  lemma {:induction false} RunOk(s: State, ops: seq<Op>)
    requires WireOk(s) && forall i | 0 <= i < |ops| :: WireSafe(ops[i])
    ensures WireOk(After(s, ops))
    decreases |ops|
  {
    if ops != [] {
      ApplyOk(s, ops[0]);
      RunOk(Apply(s, ops[0]).0, ops[1..]);
    }
  }

  /** A sender's log after any such run: numbered, valid, and all of one source. */
  lemma {:induction false} SentLog(cid: Cid, name: Bytes, script: seq<bool>, ops: seq<Op>)
    requires ValidName(name) && AllClean(Initial(cid, name, script), ops)
    requires forall i | 0 <= i < |ops| :: WireSafe(ops[i])
    ensures
      var sent := After(Initial(cid, name, script), ops).sent;
      Numbered(sent) && forall i | 0 <= i < |sent| :: Valid(sent[i]) && sent[i].cid == cid
  {
    NumberingOverRuns(cid, name, script, ops);
    RunKeepsStep(Initial(cid, name, script), ops);
    RunOk(Initial(cid, name, script), ops);
  }
}
