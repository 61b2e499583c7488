/** What a sender puts on the wire over whole runs. */
module SenderRuns {
  import opened Types
  import opened Packet
  import opened Sender
  import Paging

  // ----------------------------------------------------------------- numbering

  predicate OnData(p: Packet, u: u16) { p.data.DataPacket? && p.data.data.universe == u }

  predicate OnSync(p: Packet, u: u16) { p.data.SyncPacket? && p.data.sync.syncAddr == u }

  /** Data packets sent on a universe, termination packets included. */
  function CountData(sent: seq<Packet>, u: u16): nat {
    if sent == [] then 0
    else CountData(sent[..|sent| - 1], u) + if OnData(sent[|sent| - 1], u) then 1 else 0
  }

  function CountSync(sent: seq<Packet>, u: u16): nat {
    if sent == [] then 0
    else CountSync(sent[..|sent| - 1], u) + if OnSync(sent[|sent| - 1], u) then 1 else 0
  }

  /** A packet carries the number of its predecessors of its kind on its universe, modulo 256. */
  ghost predicate NumberedAfter(before: seq<Packet>, p: Packet) {
    match p.data
    case DataPacket(d) => d.seqNo == CountData(before, d.universe) % 0x100
    case SyncPacket(s) => s.seqNo == CountSync(before, s.syncAddr) % 0x100
    case DiscoveryPacket(_) => true
  }

  ghost predicate Numbered(sent: seq<Packet>) {
    forall i {:trigger NumberedAfter(sent[..i], sent[i])} | 0 <= i < |sent| :: NumberedAfter(sent[..i], sent[i])
  }

  /** The universe's counters say how much has been sent on it. */
  ghost predicate CounterMatches(dataSeq: map<u16, byte>, syncSeq: map<u16, byte>, sent: seq<Packet>, u: u16) {
    && SeqOf(dataSeq, u) == CountData(sent, u) % 0x100
    && SeqOf(syncSeq, u) == CountSync(sent, u) % 0x100
  }

  ghost predicate CountersMatch(dataSeq: map<u16, byte>, syncSeq: map<u16, byte>, sent: seq<Packet>) {
    forall u: u16 :: CounterMatches(dataSeq, syncSeq, sent, u)
  }

  ghost predicate InStep(s: State) { Numbered(s.sent) && CountersMatch(s.dataSeq, s.syncSeq, s.sent) }

  lemma {:induction false} CountsOfMore(sent: seq<Packet>, p: Packet, u: u16)
    ensures CountData(sent + [p], u) == CountData(sent, u) + if OnData(p, u) then 1 else 0
    ensures CountSync(sent + [p], u) == CountSync(sent, u) + if OnSync(p, u) then 1 else 0
  {
    assert (sent + [p])[..|sent|] == sent;
  }

  lemma NumberedMore(sent: seq<Packet>, p: Packet)
    requires Numbered(sent) && NumberedAfter(sent, p)
    ensures Numbered(sent + [p])
  {
    var more := sent + [p];
    forall i | 0 <= i < |more| ensures NumberedAfter(more[..i], more[i]) {
      assert more[..i] == sent[..i];
      if i == |sent| { assert sent[..i] == sent; } else { assert NumberedAfter(sent[..i], sent[i]); }
    }
  }

  /** A byte counter that is moved on counts modulo 256. */
  lemma NextSeqCounts(c: byte, n: nat)
    requires c as nat == n % 0x100
    ensures NextSeq(c) as nat == (n + 1) % 0x100
  {
  }

  lemma CounterMoves(s: State, t: State, p: Packet, u: u16)
    requires CounterMatches(s.dataSeq, s.syncSeq, s.sent, u) && t.sent == s.sent + [p]
    requires SeqOf(t.dataSeq, u) == if OnData(p, u) then NextSeq(SeqOf(s.dataSeq, u)) else SeqOf(s.dataSeq, u)
    requires SeqOf(t.syncSeq, u) == if OnSync(p, u) then NextSeq(SeqOf(s.syncSeq, u)) else SeqOf(s.syncSeq, u)
    ensures CounterMatches(t.dataSeq, t.syncSeq, t.sent, u)
  {
    CountsOfMore(s.sent, p, u);
    NextSeqCounts(SeqOf(s.dataSeq, u), CountData(s.sent, u));
    NextSeqCounts(SeqOf(s.syncSeq, u), CountSync(s.sent, u));
    var data, sync := CountData(t.sent, u), CountSync(t.sent, u);
    assert SeqOf(t.dataSeq, u) as nat == data % 0x100 && SeqOf(t.syncSeq, u) as nat == sync % 0x100;
  }

  /** A send that takes its number from the counter and moves it on. */
  lemma DataSendKeepsStep(s: State, t: State, p: Packet)
    requires InStep(s) && p.data.DataPacket? && p.data.data.seqNo == SeqOf(s.dataSeq, p.data.data.universe)
    requires t.sent == s.sent + [p] && t.syncSeq == s.syncSeq
    requires forall u: u16 :: SeqOf(t.dataSeq, u) ==
               if u == p.data.data.universe then NextSeq(SeqOf(s.dataSeq, u)) else SeqOf(s.dataSeq, u)
    ensures InStep(t)
  {
    assert CounterMatches(s.dataSeq, s.syncSeq, s.sent, p.data.data.universe);
    NumberedMore(s.sent, p);
    forall u: u16 ensures CounterMatches(t.dataSeq, t.syncSeq, t.sent, u) {
      assert CounterMatches(s.dataSeq, s.syncSeq, s.sent, u);
      CounterMoves(s, t, p, u);
    }
  }

  lemma SendUniverseKeepsStep(s: State, u: u16, data: Bytes, priority: byte, sync: u16)
    requires InStep(s)
    ensures InStep(SendUniverse(s, u, data, priority, sync).0)
  {
    var (t, r) := SendUniverse(s, u, data, priority, sync);
    if r.Ok? { DataSendKeepsStep(s, t, DataPkt(s, u, data, priority, sync, false)); }
  }

  lemma SyncSendKeepsStep(s: State, t: State, p: Packet)
    requires InStep(s) && p.data.SyncPacket? && p.data.sync.seqNo == SeqOf(s.syncSeq, p.data.sync.syncAddr)
    requires t.sent == s.sent + [p] && t.dataSeq == s.dataSeq
    requires forall u: u16 :: SeqOf(t.syncSeq, u) ==
               if u == p.data.sync.syncAddr then NextSeq(SeqOf(s.syncSeq, u)) else SeqOf(s.syncSeq, u)
    ensures InStep(t)
  {
    assert CounterMatches(s.dataSeq, s.syncSeq, s.sent, p.data.sync.syncAddr);
    NumberedMore(s.sent, p);
    forall u: u16 ensures CounterMatches(t.dataSeq, t.syncSeq, t.sent, u) {
      assert CounterMatches(s.dataSeq, s.syncSeq, s.sent, u);
      CounterMoves(s, t, p, u);
    }
  }

  lemma SendSyncKeepsStep(s: State, u: u16)
    requires InStep(s)
    ensures InStep(SendSync(s, u).0)
  {
    var (t, r) := SendSync(s, u);
    if r.Ok? { SyncSendKeepsStep(s, t, Packet(s.cid, SyncPacket(SyncFraming(SeqOf(s.syncSeq, u), u)))); }
  }

  /** Termination packets count like any other data, unless the socket fails. */
  lemma SendTerminateKeepsStep(s: State, u: u16, startCode: byte)
    requires InStep(s) && SendTerminate(s, u, startCode).1 != Err(Io)
    ensures InStep(SendTerminate(s, u, startCode).0)
  {
    var (t, r) := SendTerminate(s, u, startCode);
    if r.Ok? { DataSendKeepsStep(s, t, DataPkt(s, u, [startCode], E131_DEFAULT_PRIORITY, 0, true)); }
  }

  /** A termination packet that fails to go out loses its counter: the numbering stays right only if it was at zero. */
  lemma {:induction false} FailedTerminationLosesCounter(s: State, u: u16, startCode: byte)
    requires InStep(s) && SendTerminate(s, u, startCode).1 == Err(Io)
    ensures InStep(SendTerminate(s, u, startCode).0) <==> CountData(s.sent, u) % 0x100 == 0
  {
    var t := SendTerminate(s, u, startCode).0;
    assert t.sent == s.sent && t.dataSeq == s.dataSeq - {u} && t.syncSeq == s.syncSeq;
    assert SeqOf(t.dataSeq, u) == 0;
    assert forall v: u16 | v != u :: SeqOf(t.dataSeq, v) == SeqOf(s.dataSeq, v);
    assert CounterMatches(t.dataSeq, t.syncSeq, t.sent, u) ==> CountData(s.sent, u) % 0x100 == 0;
    if CountData(s.sent, u) % 0x100 == 0 {
      forall v: u16 ensures CounterMatches(t.dataSeq, t.syncSeq, t.sent, v) {
        assert CounterMatches(s.dataSeq, s.syncSeq, s.sent, v);
      }
    }
  }

  lemma {:induction false} SendChunksKeepsStep(s: State, us: seq<u16>, data: Bytes, priority: byte, sync: u16, i: nat)
    requires i <= Required(|data|) <= |us| && InStep(s)
    ensures InStep(SendChunks(s, us, data, priority, sync, i).0)
    decreases Required(|data|) - i
  {
    if i < Required(|data|) {
      SendUniverseKeepsStep(s, us[i], Chunk(data, i), priority, sync);
      var (s1, r) := SendUniverse(s, us[i], Chunk(data, i), priority, sync);
      if r.Ok? { SendChunksKeepsStep(s1, us, data, priority, sync, i + 1); }
    }
  }

  lemma {:induction false} SendTerminatesKeepsStep(s: State, u: u16, startCode: byte, n: nat)
    requires InStep(s) && SendTerminates(s, u, startCode, n).1 != Err(Io)
    ensures InStep(SendTerminates(s, u, startCode, n).0)
    decreases n
  {
    if n > 0 {
      SendTerminateKeepsStep(s, u, startCode);
      var (s1, r) := SendTerminate(s, u, startCode);
      if r.Ok? { SendTerminatesKeepsStep(s1, u, startCode, n - 1); }
    }
  }

  lemma {:induction false} TerminateAllKeepsStep(s: State, us: seq<u16>, startCode: byte)
    requires Inv(s) && InStep(s) && TerminateAll(s, us, startCode).1 != Err(Io)
    ensures InStep(TerminateAll(s, us, startCode).0)
    decreases |us|
  {
    if us != [] {
      SendTerminatesKeepsStep(s, us[0], startCode, TERMINATE_STREAM_PACKET_COUNT);
      TerminateStreamKeepsInv(s, us[0], startCode);
      var (s1, r) := TerminateStream(s, us[0], startCode);
      if r.Ok? { TerminateAllKeepsStep(s1, us[1..], startCode); }
    }
  }

  lemma {:induction false} SendPagesKeepsStep(s: State, page: nat)
    requires page <= Paging.PageCount(s.universes) <= 0x100 && InStep(s)
    ensures InStep(SendPages(s, page).0)
    decreases Paging.PageCount(s.universes) - page
  {
    if page < Paging.PageCount(s.universes) {
      var p := DiscoveryPkt(s, page);
      var (s1, ok) := SendTo(s, p);
      if ok {
        NumberedMore(s.sent, p);
        forall u: u16 ensures CounterMatches(s1.dataSeq, s1.syncSeq, s1.sent, u) {
          assert CounterMatches(s.dataSeq, s.syncSeq, s.sent, u);
          CounterMoves(s, s1, p, u);
        }
        SendPagesKeepsStep(s1, page + 1);
      }
    }
  }

  /** The operation does not lose a termination packet to the socket. */
  predicate TerminatesCleanly(s: State, op: Op)
    requires Inv(s)
  {
    op.OpTerminateStream? || op.OpTerminate? ==> Apply(s, op).1 != Err(Io)
  }

  lemma ApplyKeepsStep(s: State, op: Op)
    requires Inv(s) && InStep(s) && TerminatesCleanly(s, op)
    ensures InStep(Apply(s, op).0)
  {
    match op
    case OpSend(us, data, priority, sync) =>
      if |us| >= Required(|data|) {
        SendChunksKeepsStep(s, us, data, if priority.Some? then priority.value else E131_DEFAULT_PRIORITY,
                            if sync.Some? then sync.value else E131_NO_SYNC_ADDR, 0);
      }
    case OpSendSync(u) => SendSyncKeepsStep(s, u);
    case OpTerminateStream(u, code) => SendTerminatesKeepsStep(s, u, code, TERMINATE_STREAM_PACKET_COUNT);
    case OpTerminate(code) => TerminateAllKeepsStep(s.(running := false), s.universes, code);
    case OpSendDiscovery =>
      Paging.RegistryBound(s.universes);
      SendPagesKeepsStep(s, 0);
    case _ =>
  }

  /** The state after a run of operations. */
  function After(s: State, ops: seq<Op>): State
    requires Inv(s)
    decreases |ops|
  {
    if ops == [] then s
    else
      ApplyKeepsInv(s, ops[0]);
      After(Apply(s, ops[0]).0, ops[1..])
  }

  /** Whatever is done to a sender, its registry stays ascending and legal and its name fits. */
  lemma {:induction false} RunKeepsInv(s: State, ops: seq<Op>)
    requires Inv(s)
    ensures Inv(After(s, ops))
    decreases |ops|
  {
    if ops != [] {
      ApplyKeepsInv(s, ops[0]);
      RunKeepsInv(Apply(s, ops[0]).0, ops[1..]);
    }
  }

  ghost predicate AllClean(s: State, ops: seq<Op>)
    requires Inv(s)
    decreases |ops|
  {
    ops == [] ||
    (ApplyKeepsInv(s, ops[0]); TerminatesCleanly(s, ops[0]) && AllClean(Apply(s, ops[0]).0, ops[1..]))
  }

  lemma {:induction false} RunKeepsStep(s: State, ops: seq<Op>)
    requires Inv(s) && InStep(s) && AllClean(s, ops)
    ensures Inv(After(s, ops)) && InStep(After(s, ops)) && After(s, ops).cid == s.cid
    decreases |ops|
  {
    if ops != [] {
      ApplyKeepsInv(s, ops[0]);
      ApplyKeepsStep(s, ops[0]);
      RunKeepsStep(Apply(s, ops[0]).0, ops[1..]);
    }
  }

  /**
   * Whatever a sender does, in whatever order, and whichever of its data, sync and discovery sends fail: as long
   * as no termination is cut short by the socket, the n-th data packet on a universe (from 0, terminations counted)
   * carries n mod 256, and sync packets count on their own.
   */
  lemma {:induction false} NumberingOverRuns(cid: Cid, name: Bytes, script: seq<bool>, ops: seq<Op>)
    requires |name| <= SOURCE_NAME_LENGTH && AllClean(Initial(cid, name, script), ops)
    ensures Numbered(After(Initial(cid, name, script), ops).sent)
  {
    RunKeepsStep(Initial(cid, name, script), ops);
  }

  // ----------------------------------------------------------------- splitting

  /** The payloads of data packets, joined. */
  function Joined(ps: seq<Packet>): Bytes {
    if ps == [] then []
    else if ps[0].data.DataPacket? then ps[0].data.data.values + Joined(ps[1..])
    else Joined(ps[1..])
  }

  /** A live data packet with a payload of at most one universe. */
  ghost predicate Carries(p: Packet, s: State, u: u16, priority: byte, sync: u16) {
    && OnData(p, u) && !p.data.data.terminated && !p.data.data.force && p.cid == s.cid && p.data.data.name == s.name
    && p.data.data.preview == s.preview && p.data.data.priority == priority && p.data.data.syncAddr == sync
    && 1 <= |p.data.data.values| <= UNIVERSE_CHANNEL_CAPACITY
  }

  /** Where chunk `i` starts. */
  function Start(data: Bytes, i: nat): nat {
    if i * UNIVERSE_CHANNEL_CAPACITY <= |data| then i * UNIVERSE_CHANNEL_CAPACITY else |data|
  }

  /** The chunks from the `i`-th on that went out: in order, each to its universe, no byte lost or made up. */
  ghost predicate SentChunks(added: seq<Packet>, s: State, us: seq<u16>, data: Bytes, priority: byte, sync: u16, i: nat)
    requires Required(|data|) <= |us|
  {
    && i + |added| <= Required(|data|)
    && (forall j | 0 <= j < |added| :: Carries(added[j], s, us[i + j], priority, sync))
    && Start(data, i) <= Start(data, i + |added|) <= |data|
    && Joined(added) == data[Start(data, i)..Start(data, i + |added|)]
  }

  lemma ChunkIsSlice(data: Bytes, i: nat)
    requires i < Required(|data|)
    ensures Start(data, i) < Start(data, i + 1) <= |data| && 1 <= |Chunk(data, i)| <= UNIVERSE_CHANNEL_CAPACITY
    ensures Chunk(data, i) == data[Start(data, i)..Start(data, i + 1)]
  {
  }

  lemma AppendAssociates(a: seq<Packet>, b: seq<Packet>, c: seq<Packet>)
    ensures a + b + c == a + (b + c)
  {
  }

  lemma SendUniverseEmits(s: State, u: u16, data: Bytes, priority: byte, sync: u16)
    requires priority <= E131_MAX_PRIORITY && 1 <= |data| <= UNIVERSE_CHANNEL_CAPACITY
    ensures
      var ((t, r), p) := (SendUniverse(s, u, data, priority, sync), DataPkt(s, u, data, priority, sync, false));
      && SameIdentity(s, t) && (r == Ok(Unit) || r == Err(Io))
      && t.sent == (if r.Ok? then s.sent + [p] else s.sent)
      && Carries(p, s, u, priority, sync) && p.data.data.values == data
  {
  }

  lemma OneMoreChunk(p: Packet, rest: seq<Packet>, s: State, s1: State, us: seq<u16>, data: Bytes, priority: byte,
                     sync: u16, i: nat)
    requires i < Required(|data|) <= |us| && SameIdentity(s, s1)
    requires Carries(p, s, us[i], priority, sync) && p.data.data.values == Chunk(data, i)
    requires SentChunks(rest, s1, us, data, priority, sync, i + 1)
    ensures SentChunks([p] + rest, s, us, data, priority, sync, i)
  {
    var added := [p] + rest;
    ChunkIsSlice(data, i);
    assert added[1..] == rest;
    assert data[Start(data, i)..Start(data, i + |added|)]
        == data[Start(data, i)..Start(data, i + 1)] + data[Start(data, i + 1)..Start(data, i + |added|)];
    forall j | 0 <= j < |added| ensures Carries(added[j], s, us[i + j], priority, sync) {
      if j > 0 { assert Carries(rest[j - 1], s1, us[i + 1 + (j - 1)], priority, sync); }
    }
  }

  lemma NoChunks(s: State, us: seq<u16>, data: Bytes, priority: byte, sync: u16, i: nat)
    requires i <= Required(|data|) <= |us|
    ensures s.sent + [] == s.sent && SentChunks([], s, us, data, priority, sync, i)
  {
  }

  lemma ChunksConserve(s: State, us: seq<u16>, data: Bytes, priority: byte, sync: u16, i: nat)
    returns (added: seq<Packet>)
    requires i <= Required(|data|) <= |us| && priority <= E131_MAX_PRIORITY
    ensures
      var (t, r) := SendChunks(s, us, data, priority, sync, i);
      && t.sent == s.sent + added && SentChunks(added, s, us, data, priority, sync, i)
      && (r == Ok(Unit) || r == Err(Io)) && (r.Ok? <==> i + |added| == Required(|data|))
    decreases Required(|data|) - i
  {
    added := [];
    NoChunks(s, us, data, priority, sync, i);
    if i < Required(|data|) {
      var chunk := Chunk(data, i);
      ChunkIsSlice(data, i);
      SendUniverseEmits(s, us[i], chunk, priority, sync);
      var (s1, r) := SendUniverse(s, us[i], chunk, priority, sync);
      if r.Ok? {
        var p := DataPkt(s, us[i], chunk, priority, sync, false);
        var rest := ChunksConserve(s1, us, data, priority, sync, i + 1);
        AppendAssociates(s.sent, [p], rest);
        OneMoreChunk(p, rest, s, s1, us, data, priority, sync, i);
        added := [p] + rest;
      }
    }
  }

  /**
   * A successful send emits one packet per 513 bytes begun, none empty or over one universe, addressed to the leading
   * universes in order, and their payloads joined are the data.
   */
  lemma SendSplits(s: State, us: seq<u16>, data: Bytes, priority: Option<byte>, sync: Option<u16>)
    returns (added: seq<Packet>)
    requires Inv(s) && Send(s, us, data, priority, sync).1.Ok?
    ensures
      var t := Send(s, us, data, priority, sync).0;
      var (pri, addr) := (if priority.Some? then priority.value else 100, if sync.Some? then sync.value else 0);
      && t.sent == s.sent + added && |added| == Required(|data|) <= |us| && Joined(added) == data
      && |added| > 0 && (|added| - 1) * 513 < |data| <= |added| * 513
      && forall j | 0 <= j < |added| :: Carries(added[j], s, us[j], pri, addr)
  {
    var pri := if priority.Some? then priority.value else E131_DEFAULT_PRIORITY;
    var addr := if sync.Some? then sync.value else E131_NO_SYNC_ADDR;
    added := ChunksConserve(s, us, data, pri, addr, 0);
    assert data[Start(data, 0)..Start(data, |added|)] == data;
  }

  /** The universe is legal and registered. */
  predicate Usable(s: State, u: u16) { InRange(u) && u in s.universes }

  /** What a caller owes a send: a live source, data, usable universes, enough of them, a legal priority. */
  predicate Accepts(s: State, us: seq<u16>, data: Bytes, priority: Option<byte>, sync: Option<u16>) {
    && s.running && data != [] && (forall i | 0 <= i < |us| :: Usable(s, us[i]))
    && (sync.Some? ==> Usable(s, sync.value))
    && |data| <= 513 * |us| && (priority.Some? ==> priority.value <= 200)
  }

  lemma {:induction false} AllAllowedIsEach(s: State, us: seq<u16>)
    ensures AllAllowed(s, us).Ok? <==> forall i | 0 <= i < |us| :: UniverseAllowed(s, us[i]).Ok?
    ensures AllAllowed(s, us) != Err(Io)
  {
    if us != [] {
      AllAllowedIsEach(s, us[1..]);
      if AllAllowed(s, us).Ok? {
        forall i | 0 <= i < |us| ensures UniverseAllowed(s, us[i]).Ok? {
          if i > 0 { assert us[i] == us[1..][i - 1]; }
        }
      }
    }
  }

  /**
   * A send gets as far as the socket exactly when its caller has met every condition; one refused has sent nothing
   * and changed nothing, whichever of its universes, its priority or its synchronisation address was at fault.
   */
  lemma RefusedSendChangesNothing(s: State, us: seq<u16>, data: Bytes, priority: Option<byte>, sync: Option<u16>)
    requires Inv(s)
    ensures
      var (t, r) := Send(s, us, data, priority, sync);
      && (Accepts(s, us, data, priority, sync) <==> r == Ok(Unit) || r == Err(Io))
      && (!Accepts(s, us, data, priority, sync) ==> t == s)
  {
    var pri := if priority.Some? then priority.value else E131_DEFAULT_PRIORITY;
    var addr := if sync.Some? then sync.value else E131_NO_SYNC_ADDR;
    AllAllowedIsEach(s, us);
    if data != [] && |us| >= Required(|data|) && pri <= E131_MAX_PRIORITY {
      var _ := ChunksConserve(s, us, data, pri, addr, 0);
    }
  }

  // --------------------------------------------- termination and discovery logs

  /** The socket will not fail. */
  ghost predicate Reliable(s: State) { forall i | 0 <= i < |s.script| :: s.script[i] }

  ghost predicate Terminates(p: Packet, s: State, u: u16, startCode: byte) {
    && OnData(p, u) && p.data.data.terminated && !p.data.data.force && p.cid == s.cid && p.data.data.name == s.name
    && p.data.data.preview == s.preview && p.data.data.priority == E131_DEFAULT_PRIORITY
    && p.data.data.syncAddr == E131_NO_SYNC_ADDR && p.data.data.values == [startCode]
  }

  lemma OneTerminationEmits(s: State, u: u16, startCode: byte)
    requires Reliable(s) && UniverseAllowed(s, u).Ok?
    ensures
      var ((t, r), p) :=
        (SendTerminate(s, u, startCode), DataPkt(s, u, [startCode], E131_DEFAULT_PRIORITY, 0, true));
      && r.Ok? && Reliable(t) && t.sent == s.sent + [p] && Terminates(p, s, u, startCode)
      && SameIdentity(s, t)
  {
  }

  lemma TerminatesEmit(s: State, u: u16, startCode: byte, n: nat) returns (added: seq<Packet>)
    requires Reliable(s) && UniverseAllowed(s, u).Ok?
    ensures
      var (t, r) := SendTerminates(s, u, startCode, n);
      && r.Ok? && Reliable(t) && t.sent == s.sent + added && |added| == n
      && forall i | 0 <= i < n :: Terminates(added[i], s, u, startCode)
    decreases n
  {
    added := [];
    if n == 0 {
      assert s.sent + [] == s.sent;
    } else {
      var (s1, r) := SendTerminate(s, u, startCode);
      var p := DataPkt(s, u, [startCode], E131_DEFAULT_PRIORITY, 0, true);
      OneTerminationEmits(s, u, startCode);
      var rest := TerminatesEmit(s1, u, startCode, n - 1);
      AppendAssociates(s.sent, [p], rest);
      added := [p] + rest;
    }
  }

  lemma RemoveFirst(us: seq<u16>)
    requires us != [] && Ascending(us)
    ensures Remove(us, us[0]) == us[1..]
  {
    assert BinarySearch(us, us[0]) == Found(0);
  }

  /** Three termination packets for each of the universes, one universe after the other. */
  ghost predicate TerminationLog(added: seq<Packet>, s: State, us: seq<u16>, startCode: byte)
    decreases |us|
  {
    if us == [] then added == []
    else
      && |added| >= 3 && (forall i | 0 <= i < 3 :: Terminates(added[i], s, us[0], startCode))
      && TerminationLog(added[3..], s, us[1..], startCode)
  }

  lemma {:induction false} LogOfSameSource(added: seq<Packet>, s: State, s1: State, us: seq<u16>, startCode: byte)
    requires TerminationLog(added, s1, us, startCode) && s1.cid == s.cid && s1.name == s.name && s1.preview == s.preview
    ensures TerminationLog(added, s, us, startCode) && |added| == 3 * |us|
    decreases |us|
  {
    if us != [] {
      LogOfSameSource(added[3..], s, s1, us[1..], startCode);
      assert forall i | 0 <= i < 3 :: Terminates(added[i], s1, us[0], startCode);
    }
  }

  lemma TerminateAllEmits(s: State, us: seq<u16>, startCode: byte) returns (added: seq<Packet>)
    requires Inv(s) && Reliable(s) && s.universes == us
    ensures
      var (t, r) := TerminateAll(s, us, startCode);
      && r.Ok? && t.universes == [] && t.running == s.running
      && t.sent == s.sent + added && TerminationLog(added, s, us, startCode)
    decreases |us|
  {
    added := [];
    if us == [] {
      assert s.sent + [] == s.sent;
    } else {
      var three := OneStreamEmits(s, us[0], startCode);
      var s1 := TerminateStream(s, us[0], startCode).0;
      RemoveFirst(us);
      TerminateStreamKeepsInv(s, us[0], startCode);
      var rest := TerminateAllEmits(s1, us[1..], startCode);
      added := three + rest;
      TerminateAllUnfolds(s, us, startCode);
      AppendAssociates(s.sent, three, rest);
      LogOfMore(three, rest, s, s1, us, startCode);
    }
  }

  lemma {:induction false} TerminateAllUnfolds(s: State, us: seq<u16>, startCode: byte)
    requires Inv(s) && us != [] && TerminateStream(s, us[0], startCode).1.Ok?
    ensures Inv(TerminateStream(s, us[0], startCode).0)
    ensures TerminateAll(s, us, startCode) == TerminateAll(TerminateStream(s, us[0], startCode).0, us[1..], startCode)
  {
    TerminateStreamKeepsInv(s, us[0], startCode);
  }

  lemma {:induction false} LogOfMore(three: seq<Packet>, rest: seq<Packet>, s: State, s1: State, us: seq<u16>,
          startCode: byte)
    requires us != [] && |three| == 3 && forall i | 0 <= i < 3 :: Terminates(three[i], s, us[0], startCode)
    requires TerminationLog(rest, s1, us[1..], startCode)
    requires s1.cid == s.cid && s1.name == s.name && s1.preview == s.preview
    ensures TerminationLog(three + rest, s, us, startCode)
  {
    LogOfSameSource(rest, s, s1, us[1..], startCode);
    assert (three + rest)[3..] == rest;
  }

  lemma OneStreamEmits(s: State, u: u16, startCode: byte) returns (three: seq<Packet>)
    requires Inv(s) && Reliable(s) && UniverseAllowed(s, u).Ok?
    ensures
      var (t, r) := TerminateStream(s, u, startCode);
      && r.Ok? && Reliable(t) && t.universes == Remove(s.universes, u)
      && t.sent == s.sent + three && |three| == 3 && forall i | 0 <= i < 3 :: Terminates(three[i], s, u, startCode)
  {
    three := TerminatesEmit(s, u, startCode, TERMINATE_STREAM_PACKET_COUNT);
    SendTerminatesKeepsRegistry(s, u, startCode, TERMINATE_STREAM_PACKET_COUNT);
  }

  /**
   * Terminating a source sends exactly three termination packets for each registered universe and empties the
   * registry.
   */
  lemma TerminateEmits(s: State, startCode: byte) returns (added: seq<Packet>)
    requires Inv(s) && Reliable(s)
    ensures
      var (t, r) := Terminate(s, startCode);
      && r.Ok? && t.universes == [] && !t.running
      && t.sent == s.sent + added && |added| == 3 * |s.universes|
      && TerminationLog(added, s, s.universes, startCode)
  {
    added := TerminateAllEmits(s.(running := false), s.universes, startCode);
    LogOfSameSource(added, s, s.(running := false), s.universes, startCode);
  }

  /** The discovery packets that advertise a registry, from one page on. */
  function PagePackets(cid: Cid, name: Bytes, us: seq<u16>, from: nat): (r: seq<Packet>)
    requires from <= Paging.PageCount(us) <= 0x100
    ensures |r| == Paging.PageCount(us) - from
    ensures forall k | 0 <= k < |r| :: r[k] == Packet(cid, DiscoveryPacket(Paging.PageFraming(name, us, from + k)))
    decreases Paging.PageCount(us) - from
  {
    if from == Paging.PageCount(us) then []
    else [Packet(cid, DiscoveryPacket(Paging.PageFraming(name, us, from)))] + PagePackets(cid, name, us, from + 1)
  }

  lemma {:induction false} PagesEmit(s: State, from: nat)
    requires from <= Paging.PageCount(s.universes) <= 0x100 && Reliable(s)
    ensures SendPages(s, from).1.Ok?
    ensures SendPages(s, from).0.sent == s.sent + PagePackets(s.cid, s.name, s.universes, from)
    decreases Paging.PageCount(s.universes) - from
  {
    if from < Paging.PageCount(s.universes) {
      var p := DiscoveryPkt(s, from);
      var s1 := SendTo(s, p).0;
      PagesEmit(s1, from + 1);
      AppendAssociates(s.sent, [p], PagePackets(s.cid, s.name, s.universes, from + 1));
    }
  }

  /** An advert sends every page of the registry once, in order. */
  lemma DiscoveryEmits(s: State)
    requires Inv(s) && Reliable(s)
    ensures Paging.PageCount(s.universes) <= 126 && SendDiscovery(s).1.Ok?
    ensures SendDiscovery(s).0.sent == s.sent + PagePackets(s.cid, s.name, s.universes, 0)
  {
    Paging.RegistryBound(s.universes);
    PagesEmit(s, 0);
  }
}
