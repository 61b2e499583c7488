/** What a sender's calls do to its registry, and what they put in its log: call by call and over runs. */
module SenderLog {
  import opened Types
  import opened Packet
  import opened Sender
  import opened SenderRuns
  import Paging

  // ------------------------------------------------------------------ registry

  /** Registering a legal universe adds it, and it alone; any other is refused. */
  lemma RegisterIff(s: State, u: u16)
    requires Ascending(s.universes)
    ensures
      var ((t, r), legal) := (RegisterUniverse(s, u), 1 <= u <= 63999 || u == 64214);
      && r == (if legal then Ok(Unit) else Err(IllegalUniverse(u)))
      && t == s.(universes := t.universes) && Ascending(t.universes)
      && forall v :: v in t.universes <==> v in s.universes || (legal && v == u)
  {
    InsertKeepsOrder(s.universes, u);
  }

  /** Deregistering takes a registered universe off, and it alone; any other is refused. */
  lemma DeregisterIff(s: State, u: u16)
    requires Ascending(s.universes)
    ensures
      var ((t, r), legal) := (DeregisterUniverse(s, u), 1 <= u <= 63999 || u == 64214);
      && r == (if !legal then Err(IllegalUniverse(u))
               else if u !in s.universes then Err(UniverseNotFound(u)) else Ok(Unit))
      && t == s.(universes := t.universes) && Ascending(t.universes)
      && forall v :: v in t.universes <==> v in s.universes && !(legal && v == u)
  {
    RemoveKeepsOrder(s.universes, u);
  }

  // ------------------------------------------------------------------ refusals

  /** The error for a universe that may not be used. */
  predicate Refuses(r: Result<Unit>, s: State, u: u16) {
    && (!InRange(u) ==> r == Err(IllegalUniverse(u)))
    && (InRange(u) && u !in s.universes ==> r == Err(UniverseNotRegistered(u)))
  }

  /** The `i`-th universe is the first that may not be used. */
  ghost predicate FirstUnusable(s: State, us: seq<u16>, i: nat) {
    i < |us| && !Usable(s, us[i]) && forall j | 0 <= j < i :: Usable(s, us[j])
  }

  lemma {:induction false} FirstIsRefused(s: State, us: seq<u16>, i: nat)
    requires FirstUnusable(s, us, i)
    ensures Refuses(AllAllowed(s, us), s, us[i])
  {
    if i > 0 {
      assert Usable(s, us[0]);
      FirstIsRefused(s, us[1..], i - 1);
    }
  }

  /** A send that is refused says what is wrong with it, and of several things the first in this order. */
  lemma SendRefusals(s: State, us: seq<u16>, data: Bytes, priority: Option<byte>, sync: Option<u16>, i: nat)
    ensures
      var r := Send(s, us, data, priority, sync).1;
      && (!s.running ==> r == Err(SenderAlreadyTerminated))
      && (s.running && data == [] ==> r == Err(DataArrayEmpty))
      && (s.running && data != [] && FirstUnusable(s, us, i) ==> Refuses(r, s, us[i]))
      && (s.running && data != [] && (forall j | 0 <= j < |us| :: Usable(s, us[j])) ==>
            && (sync.Some? && !Usable(s, sync.value) ==> r == Err(IllegalSyncUniverse(sync.value)))
            && ((sync.Some? ==> Usable(s, sync.value)) ==>
                  && (|data| > 513 * |us| ==> r == Err(UniverseListEmpty))
                  && (|data| <= 513 * |us| && priority.Some? && priority.value > 200 ==>
                        r == Err(InvalidPriority(priority.value)))))
  {
    AllAllowedIsEach(s, us);
    if FirstUnusable(s, us, i) { FirstIsRefused(s, us, i); }
    if forall j | 0 <= j < |us| :: Usable(s, us[j]) { assert AllAllowed(s, us).Ok?; }
    if Accepts(s, us, data, None, sync) {
      ChunkIsSlice(data, 0);
      assert Required(|data|) >= 1;
    }
  }

  /** The socket's answer to the next send. */
  predicate Answers(s: State) { s.script == [] || s.script[0] }

  /** A synchronisation packet for a usable address goes out with its number, or the socket refuses it. */
  lemma SyncSends(s: State, u: u16)
    ensures
      var (t, r) := SendSync(s, u);
      && (!Usable(s, u) ==> Refuses(r, s, u) && t == s)
      && (Usable(s, u) && !Answers(s) ==> r == Err(Io) && t == s.(script := s.script[1..]))
      && (Usable(s, u) && Answers(s) ==>
            var n := if u in s.syncSeq then s.syncSeq[u] else 0;
            && r == Ok(Unit) && t.sent == s.sent + [Packet(s.cid, SyncPacket(SyncFraming(n, u)))]
            && u in t.syncSeq && t.syncSeq[u] == (n as int + 1) % 0x100 && t.syncSeq - {u} == s.syncSeq - {u}
            && t == s.(sent := t.sent, syncSeq := t.syncSeq, script := t.script))
  {
  }

  // ------------------------------------------------------------------- the log

  /** The packet is of this source as it is now: its identifier, its name and its preview flag. */
  predicate OfSource(p: Packet, s: State) {
    && p.cid == s.cid
    && (p.data.DataPacket? ==> p.data.data.name == s.name && p.data.data.preview == s.preview)
    && (p.data.DiscoveryPacket? ==> p.data.discovery.name == s.name)
  }

  predicate IsTermination(p: Packet, u: u16) {
    p.data.DataPacket? && p.data.data.universe == u && p.data.data.terminated
  }

  predicate IsLive(p: Packet) { p.data.DataPacket? && !p.data.data.terminated }

  /** How many of the packets end the stream of the universe. */
  function Terminations(ps: seq<Packet>, u: u16): nat {
    if ps == [] then 0 else Terminations(ps[..|ps| - 1], u) + if IsTermination(ps[|ps| - 1], u) then 1 else 0
  }

  lemma {:induction false} TerminationsOfJoin(a: seq<Packet>, b: seq<Packet>, u: u16)
    ensures Terminations(a + b, u) == Terminations(a, u) + Terminations(b, u)
    decreases |b|
  {
    if b == [] {
      assert a + b == a;
    } else {
      assert (a + b)[..|a + b| - 1] == a + b[..|b| - 1];
      TerminationsOfJoin(a, b[..|b| - 1], u);
    }
  }

  lemma {:induction false} AllTerminate(ps: seq<Packet>, u: u16, v: u16)
    requires forall i | 0 <= i < |ps| :: IsTermination(ps[i], u)
    ensures Terminations(ps, v) == if u == v then |ps| else 0
  {
    if ps != [] { AllTerminate(ps[..|ps| - 1], u, v); }
  }

  lemma {:induction false} NoneTerminates(ps: seq<Packet>, u: u16)
    requires forall i | 0 <= i < |ps| :: !IsTermination(ps[i], u)
    ensures Terminations(ps, u) == 0
  {
    if ps != [] { NoneTerminates(ps[..|ps| - 1], u); }
  }

  lemma OneTerminationLogs(s: State, u: u16, startCode: byte)
    ensures
      var ((t, r), p) := (SendTerminate(s, u, startCode), DataPkt(s, u, [startCode], E131_DEFAULT_PRIORITY, 0, true));
      && SameIdentity(s, t) && Terminates(p, s, u, startCode)
      && t.sent == (if r.Ok? then s.sent + [p] else s.sent)
      && (!Usable(s, u) ==> Refuses(r, s, u) && t == s) && (Usable(s, u) ==> r == Ok(Unit) || r == Err(Io))
  {
  }

  /** As many termination packets of the stream as the socket takes before it fails. */
  lemma TerminationsLog(s: State, u: u16, startCode: byte, n: nat) returns (added: seq<Packet>)
    ensures
      var (t, r) := SendTerminates(s, u, startCode, n);
      && SameIdentity(s, t) && t.sent == s.sent + added && |added| <= n && (r.Ok? <==> |added| == n)
      && (forall i | 0 <= i < |added| :: Terminates(added[i], s, u, startCode))
      && (n > 0 && !Usable(s, u) ==> Refuses(r, s, u) && t == s)
    decreases n
  {
    added := [];
    assert s.sent + [] == s.sent;
    if n > 0 {
      OneTerminationLogs(s, u, startCode);
      var (s1, r) := SendTerminate(s, u, startCode);
      if r.Ok? {
        var p := DataPkt(s, u, [startCode], E131_DEFAULT_PRIORITY, 0, true);
        var rest := TerminationsLog(s1, u, startCode, n - 1);
        AppendAssociates(s.sent, [p], rest);
        added := [p] + rest;
      }
    }
  }

  /** Terminating a stream sends up to three packets, and drops the universe exactly if all three go out. */
  lemma TerminateStreamLogs(s: State, u: u16, startCode: byte) returns (added: seq<Packet>)
    requires Inv(s)
    ensures
      var (t, r) := TerminateStream(s, u, startCode);
      && t.cid == s.cid && t.name == s.name && t.preview == s.preview && t.running == s.running && Inv(t)
      && t.sent == s.sent + added && |added| <= 3 && (r.Ok? <==> |added| == 3)
      && (forall i | 0 <= i < |added| :: Terminates(added[i], s, u, startCode))
      && (!Usable(s, u) ==> Refuses(r, s, u) && t == s)
      && forall v :: v in t.universes <==> v in s.universes && (v == u ==> |added| < 3)
  {
    added := TerminationsLog(s, u, startCode, 3);
    SendTerminatesKeepsRegistry(s, u, startCode, 3);
    TerminateStreamKeepsInv(s, u, startCode);
    RemoveKeepsOrder(s.universes, u);
  }

  /** The packets end streams of this source, each universe's at most three times and only those of `us`. */
  ghost predicate Ending(added: seq<Packet>, s: State, us: seq<u16>) {
    && (forall i | 0 <= i < |added| ::
          OfSource(added[i], s) && added[i].data.DataPacket? && added[i].data.data.terminated)
    && (forall v | v !in us :: Terminations(added, v) == 0)
  }

  lemma {:induction false} EndingMore(three: seq<Packet>, rest: seq<Packet>, s: State, s1: State, us: seq<u16>,
                        startCode: byte)
    requires us != [] && us[0] !in us[1..] && forall i | 0 <= i < |three| :: Terminates(three[i], s, us[0], startCode)
    requires Ending(rest, s1, us[1..]) && s1.cid == s.cid && s1.name == s.name && s1.preview == s.preview
    ensures Ending(three + rest, s, us)
    ensures forall v :: Terminations(three + rest, v) == if v == us[0] then |three| else Terminations(rest, v)
  {
    forall v: u16
      ensures Terminations(three + rest, v) == if v == us[0] then |three| else Terminations(rest, v)
    {
      TerminationsOfJoin(three, rest, v);
      AllTerminate(three, us[0], v);
    }
    assert us == [us[0]] + us[1..];
  }

  lemma TerminateAllLogs(s: State, us: seq<u16>, startCode: byte) returns (added: seq<Packet>)
    requires Inv(s) && Ascending(us)
    ensures
      var t := TerminateAll(s, us, startCode).0;
      && t.cid == s.cid && t.name == s.name && t.preview == s.preview && t.running == s.running
      && t.sent == s.sent + added && Ending(added, s, us)
      && forall v :: v in t.universes <==> v in s.universes && Terminations(added, v) < 3
    decreases |us|
  {
    added := [];
    assert s.sent + [] == s.sent;
    if us != [] {
      var three := TerminateStreamLogs(s, us[0], startCode);
      var (s1, r) := TerminateStream(s, us[0], startCode);
      assert us[0] !in us[1..];
      var rest := [];
      assert Ending(rest, s1, us[1..]) && s1.sent + rest == s1.sent;
      if r.Ok? { rest := TerminateAllLogs(s1, us[1..], startCode); }
      EndingMore(three, rest, s, s1, us, startCode);
      AppendAssociates(s.sent, three, rest);
      added := three + rest;
    }
  }

  lemma PagesLog(s: State, page: nat) returns (added: seq<Packet>)
    requires page <= Paging.PageCount(s.universes) <= 0x100
    ensures
      var t := SendPages(s, page).0;
      && SameIdentity(s, t) && t.sent == s.sent + added
      && forall i | 0 <= i < |added| :: OfSource(added[i], s) && added[i].data.DiscoveryPacket?
    decreases Paging.PageCount(s.universes) - page
  {
    added := [];
    assert s.sent + [] == s.sent;
    if page < Paging.PageCount(s.universes) {
      var p := DiscoveryPkt(s, page);
      var (s1, ok) := SendTo(s, p);
      if ok {
        var rest := PagesLog(s1, page + 1);
        AppendAssociates(s.sent, [p], rest);
        added := [p] + rest;
      }
    }
  }

  /** What a call puts in the log: packets of the source, live ones only while it runs. */
  ghost predicate Logs(s: State, op: Op, t: State, added: seq<Packet>) {
    && t.sent == s.sent + added
    && forall i | 0 <= i < |added| :: OfSource(added[i], s) && (IsLive(added[i]) ==> s.running && op.OpSend?)
  }

  /** What a call does to the registry: it adds what it registers and drops what it has terminated three times. */
  ghost predicate Registers(s: State, op: Op, t: State, added: seq<Packet>) {
    forall u :: u in t.universes <==>
      (op == OpRegister(u) && InRange(u)) || (u in s.universes && Terminations(added, u) < 3)
  }

  lemma SendLogs(s: State, us: seq<u16>, data: Bytes, priority: Option<byte>, sync: Option<u16>)
    returns (added: seq<Packet>)
    requires Inv(s)
    ensures
      var t := Send(s, us, data, priority, sync).0;
      Logs(s, OpSend(us, data, priority, sync), t, added) && SameIdentity(s, t)
      && forall u :: Terminations(added, u) == 0
  {
    var pri := if priority.Some? then priority.value else E131_DEFAULT_PRIORITY;
    var addr := if sync.Some? then sync.value else E131_NO_SYNC_ADDR;
    added := [];
    assert s.sent + [] == s.sent;
    RefusedSendChangesNothing(s, us, data, priority, sync);
    if Accepts(s, us, data, priority, sync) {
      AllAllowedIsEach(s, us);
      added := ChunksConserve(s, us, data, pri, addr, 0);
      SendChunksKeeps(s, us, data, pri, addr, 0);
      forall i | 0 <= i < |added| ensures OfSource(added[i], s) && IsLive(added[i]) {
        assert Carries(added[i], s, us[0 + i], pri, addr);
      }
      forall u: u16 ensures Terminations(added, u) == 0 { NoneTerminates(added, u); }
    }
  }

  lemma TerminationCallLogs(s: State, op: Op) returns (added: seq<Packet>)
    requires Inv(s) && (op.OpTerminateStream? || op.OpTerminate?)
    ensures Logs(s, op, Apply(s, op).0, added) && Registers(s, op, Apply(s, op).0, added)
  {
    match op
    case OpTerminateStream(u, code) =>
      added := TerminateStreamLogs(s, u, code);
      forall v: u16 ensures Terminations(added, v) == if v == u then |added| else 0 { AllTerminate(added, u, v); }
    case OpTerminate(code) =>
      added := TerminateAllLogs(s.(running := false), s.universes, code);
  }

  /** Whatever a call does, the log grows by packets of the source as it is then. */
  lemma CallLogs(s: State, op: Op) returns (added: seq<Packet>)
    requires Inv(s)
    ensures Logs(s, op, Apply(s, op).0, added) && Registers(s, op, Apply(s, op).0, added)
  {
    added := [];
    assert s.sent + [] == s.sent;
    match op {
      case OpRegister(u) => RegisterIff(s, u);
      case OpSend(us, data, priority, sync) => added := SendLogs(s, us, data, priority, sync);
      case OpSendSync(u) =>
        SyncSends(s, u);
        if SendSync(s, u).1.Ok? {
          added := [SendSync(s, u).0.sent[|s.sent|]];
          forall v: u16 ensures Terminations(added, v) == 0 { NoneTerminates(added, v); }
        }
      case OpTerminateStream(u, code) => added := TerminationCallLogs(s, op);
      case OpTerminate(code) => added := TerminationCallLogs(s, op);
      case OpSendDiscovery =>
        Paging.RegistryBound(s.universes);
        added := PagesLog(s, 0);
        forall v: u16 ensures Terminations(added, v) == 0 { NoneTerminates(added, v); }
      case _ =>
    }
  }

  /** What the calls of a run come to when the socket does not fail. */
  lemma CallsTakeEffect(s: State, op: Op)
    requires Inv(s) && Reliable(s)
    ensures
      var (t, added) := (Apply(s, op).0, AddedBy(s, op));
      && (op.OpSend? && Accepts(s, op.us, op.data, op.priority, op.sync) ==> Joined(added) == op.data)
      && (op.OpSendSync? && Usable(s, op.u) ==> |added| == 1 && OnSync(added[0], op.u))
      && (op.OpTerminateStream? && Usable(s, op.u) ==> Terminations(added, op.u) == 3 && op.u !in t.universes)
      && (op.OpTerminate? ==> t.universes == [] && |added| == 3 * |s.universes|)
      && (op.OpSendDiscovery? ==> |added| == |s.universes| / 512 + 1)
  {
    match op
    case OpSend(us, data, priority, sync) =>
      RefusedSendChangesNothing(s, us, data, priority, sync);
      if Accepts(s, us, data, priority, sync) {
        ReliableSends(s, us, data, priority, sync);
        var added := SendSplits(s, us, data, priority, sync);
        assert AddedBy(s, op) == added;
      }
    case OpSendSync(u) => SyncSends(s, u);
    case OpTerminateStream(u, code) =>
      if Usable(s, u) {
        var three := OneStreamEmits(s, u, code);
        assert AddedBy(s, op) == three;
        AllTerminate(three, u, u);
        RemoveKeepsOrder(s.universes, u);
      }
    case OpTerminate(code) =>
      var added := TerminateEmits(s, code);
      assert AddedBy(s, op) == added;
    case OpSendDiscovery =>
      DiscoveryEmits(s);
      assert AddedBy(s, op) == PagePackets(s.cid, s.name, s.universes, 0);
    case _ =>
  }

  lemma {:induction false} ReliableChunks(s: State, us: seq<u16>, data: Bytes, priority: byte, sync: u16, i: nat)
    requires i <= Required(|data|) <= |us| && Reliable(s)
    ensures SendChunks(s, us, data, priority, sync, i).1 != Err(Io)
    decreases Required(|data|) - i
  {
    if i < Required(|data|) {
      var (s1, r) := SendUniverse(s, us[i], Chunk(data, i), priority, sync);
      if r.Ok? { ReliableChunks(s1, us, data, priority, sync, i + 1); }
    }
  }

  lemma ReliableSends(s: State, us: seq<u16>, data: Bytes, priority: Option<byte>, sync: Option<u16>)
    requires Inv(s) && Reliable(s) && Accepts(s, us, data, priority, sync)
    ensures Send(s, us, data, priority, sync).1 == Ok(Unit)
  {
    RefusedSendChangesNothing(s, us, data, priority, sync);
    AllAllowedIsEach(s, us);
    ReliableChunks(s, us, data, if priority.Some? then priority.value else E131_DEFAULT_PRIORITY,
                   if sync.Some? then sync.value else E131_NO_SYNC_ADDR, 0);
  }

  // ---------------------------------------------------------------------- runs

  lemma {:induction false} AfterOneMore(s: State, ops: seq<Op>, op: Op)
    requires Inv(s)
    ensures Inv(After(s, ops)) && After(s, ops + [op]) == Apply(After(s, ops), op).0
    decreases |ops|
  {
    RunKeepsInv(s, ops);
    if ops == [] {
      assert ops + [op] == [op] && [op][1..] == [];
      ApplyKeepsInv(s, op);
    } else {
      assert (ops + [op])[1..] == ops[1..] + [op] && (ops + [op])[0] == ops[0];
      ApplyKeepsInv(s, ops[0]);
      AfterOneMore(Apply(s, ops[0]).0, ops[1..], op);
    }
  }

  /** The packets that one call adds to the log. */
  function AddedBy(s: State, op: Op): seq<Packet>
    requires Inv(s)
  {
    var log := Apply(s, op).0.sent;
    if |s.sent| <= |log| then log[|s.sent|..] else []
  }

  lemma AddedIsLogged(s: State, op: Op)
    requires Inv(s)
    ensures Logs(s, op, Apply(s, op).0, AddedBy(s, op)) && Registers(s, op, Apply(s, op).0, AddedBy(s, op))
  {
    var added := CallLogs(s, op);
    assert AddedBy(s, op) == added;
  }

  /** The call registers the universe. */
  predicate Enters(op: Op, u: u16) { op == OpRegister(u) && InRange(u) }

  /** The call sends three termination packets for the universe. */
  predicate Drops(s: State, op: Op, u: u16)
    requires Inv(s)
  {
    Terminations(AddedBy(s, op), u) >= 3
  }

  /** Some call has registered the universe, and none since has sent three termination packets for it. */
  ghost predicate Stands(s: State, ops: seq<Op>, u: u16)
    requires Inv(s)
  {
    exists i: nat :: i < |ops| && Enters(ops[i], u) && NotDroppedSince(s, ops, i, u)
  }

  ghost predicate NotDroppedSince(s: State, ops: seq<Op>, i: nat, u: u16)
    requires Inv(s)
  {
    forall j | i < j < |ops| :: RunKeepsInv(s, ops[..j]); !Drops(After(s, ops[..j]), ops[j], u)
  }

  lemma {:induction false} StandsOneMore(s: State, ops: seq<Op>, op: Op, u: u16)
    requires Inv(s) && Inv(After(s, ops))
    ensures Stands(s, ops + [op], u) <==> Enters(op, u) || (Stands(s, ops, u) && !Drops(After(s, ops), op, u))
  {
    var all := ops + [op];
    forall j | 0 <= j < |ops| ensures all[..j] == ops[..j] && all[j] == ops[j] {}
    assert all[..|ops|] == ops && all[|ops|] == op;
    if Stands(s, all, u) {
      var i: nat :| i < |all| && Enters(all[i], u) && NotDroppedSince(s, all, i, u);
      if i < |ops| {
        assert NotDroppedSince(s, ops, i, u);
        assert !Drops(After(s, all[..|ops|]), all[|ops|], u);
      }
    }
    if Enters(op, u) { assert NotDroppedSince(s, all, |ops|, u); }
    if Stands(s, ops, u) && !Drops(After(s, ops), op, u) {
      var i: nat :| i < |ops| && Enters(ops[i], u) && NotDroppedSince(s, ops, i, u);
      assert NotDroppedSince(s, all, i, u);
    }
  }

  /**
   * Over any run of a new sender, whichever of its sends fail: a universe is registered exactly when some call has
   * registered it and none since has sent three termination packets for it.
   */
  lemma {:induction false} RegistryOverRuns(s: State, ops: seq<Op>, u: u16)
    requires Inv(s) && s.universes == []
    ensures u in After(s, ops).universes <==> Stands(s, ops, u)
  {
    if ops != [] {
      var init, op := ops[..|ops| - 1], ops[|ops| - 1];
      assert ops == init + [op];
      AfterOneMore(s, init, op);
      RegistryOverRuns(s, init, u);
      StandsOneMore(s, init, op, u);
      AddedIsLogged(After(s, init), op);
    }
  }

  /** Such a universe, and no other, can be sent on: one universe's data reaches the socket. */
  lemma SendableIff(s: State, ops: seq<Op>, u: u16, data: Bytes)
    requires Inv(s) && s.universes == [] && After(s, ops).running && 1 <= |data| <= 513
    ensures
      var r := Send(After(s, ops), [u], data, None, None).1;
      (r == Ok(Unit) || r == Err(Io) <==> Stands(s, ops, u))
      && (!Stands(s, ops, u) ==> r == Err(if InRange(u) then UniverseNotRegistered(u) else IllegalUniverse(u)))
  {
    var t := After(s, ops);
    RunKeepsInv(s, ops);
    RegistryOverRuns(s, ops, u);
    RefusedSendChangesNothing(t, [u], data, None, None);
    SendRefusals(t, [u], data, None, None, 0);
    if u in t.universes { assert Usable(t, u); } else { assert FirstUnusable(t, [u], 0); }
  }

  /** The name given last, of those that fit. */
  function LastName(name: Bytes, ops: seq<Op>): Bytes {
    if ops == [] then name
    else
      var op := ops[|ops| - 1];
      if op.OpSetName? && |op.name| <= 64 then op.name else LastName(name, ops[..|ops| - 1])
  }

  function LastPreview(ops: seq<Op>): bool {
    if ops == [] then false
    else if ops[|ops| - 1].OpSetPreview? then ops[|ops| - 1].preview
    else LastPreview(ops[..|ops| - 1])
  }

  /** A sender has the name it was given last and the preview flag set last, and is stopped by `terminate` alone. */
  lemma {:induction false} IdentityOverRuns(cid: Cid, name: Bytes, script: seq<bool>, ops: seq<Op>)
    requires |name| <= 64
    ensures
      var t := After(Initial(cid, name, script), ops);
      && t.cid == cid && t.name == LastName(name, ops) && t.preview == LastPreview(ops)
      && (t.running <==> forall i | 0 <= i < |ops| :: !ops[i].OpTerminate?)
  {
    if ops != [] {
      var s, init, op := Initial(cid, name, script), ops[..|ops| - 1], ops[|ops| - 1];
      assert ops == init + [op];
      AfterOneMore(s, init, op);
      IdentityOverRuns(cid, name, script, init);
      CallKeepsIdentity(After(s, init), op);
    }
  }

  lemma CallKeepsIdentity(s: State, op: Op)
    requires Inv(s)
    ensures
      var t := Apply(s, op).0;
      && t.cid == s.cid && t.name == (if op.OpSetName? && |op.name| <= 64 then op.name else s.name)
      && t.preview == (if op.OpSetPreview? then op.preview else s.preview)
      && (t.running <==> s.running && !op.OpTerminate?)
  {
    ApplyKeepsInv(s, op);
    match op
    case OpSend(us, data, priority, sync) => var _ := SendLogs(s, us, data, priority, sync);
    case OpTerminateStream(u, code) => TerminateStreamKeepsInv(s, u, code);
    case OpTerminate(code) => TerminateAllKeepsInv(s.(running := false), s.universes, code);
    case OpSendDiscovery =>
      Paging.RegistryBound(s.universes);
      SendPagesKeeps(s, 0);
    case _ =>
  }

  /** Names of up to 64 bytes are taken, longer ones refused. */
  lemma SetNameIff(s: State, name: Bytes)
    requires Inv(s)
    ensures
      var (t, r) := Apply(s, OpSetName(name));
      if |name| <= 64 then r == Ok(Unit) && t.name == name && t == s.(name := name)
      else r == Err(MalformedSourceName) && t == s
  {
  }

  /** Every packet that a call adds to a sender's log carries its identifier, its last name and last preview flag. */
  lemma PacketsCarryTheName(cid: Cid, name: Bytes, script: seq<bool>, ops: seq<Op>, op: Op, i: nat)
    requires |name| <= 64 && Inv(After(Initial(cid, name, script), ops))
    requires i < |AddedBy(After(Initial(cid, name, script), ops), op)|
    ensures
      var p := AddedBy(After(Initial(cid, name, script), ops), op)[i];
      && p.cid == cid
      && (p.data.DataPacket? ==> p.data.data.name == LastName(name, ops) && p.data.data.preview == LastPreview(ops))
      && (p.data.DiscoveryPacket? ==> p.data.discovery.name == LastName(name, ops))
  {
    IdentityOverRuns(cid, name, script, ops);
    AddedIsLogged(After(Initial(cid, name, script), ops), op);
  }

  /** A stopped sender sends no data any more, whatever it is told to do: what its log still gains is not live data. */
  lemma {:induction false} StoppedForGood(s: State, ops: seq<Op>)
    requires Inv(s) && !s.running
    ensures
      var t := After(s, ops);
      && !t.running && |s.sent| <= |t.sent| && t.sent[..|s.sent|] == s.sent
      && forall i | |s.sent| <= i < |t.sent| :: !IsLive(t.sent[i])
    decreases |ops|
  {
    if ops != [] {
      var s1 := Apply(s, ops[0]).0;
      CallKeepsIdentity(s, ops[0]);
      ApplyKeepsInv(s, ops[0]);
      AddedIsLogged(s, ops[0]);
      StoppedForGood(s1, ops[1..]);
      var t, added := After(s1, ops[1..]), AddedBy(s, ops[0]);
      forall i | |s.sent| <= i < |t.sent| ensures !IsLive(t.sent[i]) {
        if i < |s1.sent| { assert t.sent[i] == t.sent[..|s1.sent|][i] == added[i - |s.sent|]; }
      }
      assert t.sent[..|s.sent|] == t.sent[..|s1.sent|][..|s.sent|];
    }
  }
}
