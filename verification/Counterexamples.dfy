/** Inputs at which the code does not do what its comments, or its users, would have it do. */
module Counterexamples {
  import opened Types
  import opened P = Packet
  import opened Merge
  import S = Sequencing
  import W = Waiting
  import R = Receiver
  import Codec
  import Sender
  import SenderRuns

  /** A name of 64 bytes: the sender takes it, the packet packs, and no receiver can parse it. */
  lemma SixtyFourByteName(cid: Cid, script: seq<bool>, slack: Bytes)
    ensures
      var name: Bytes := seq(64, _ => 0x61);
      var p := P.Packet(cid, DataPacket(DataFraming(name, 100, 0, 0, false, false, false, 1, [0])));
      && Sender.Inv(Sender.Initial(cid, name, script)) && PackOk(p)
      && Parse(Encode(p) + slack) == Fail(SourceNameNotNullTerminated)
  {
    var name: Bytes := seq(64, _ => 0x61);
    Codec.LongNameFails(P.Packet(cid, DataPacket(DataFraming(name, 100, 0, 0, false, false, false, 1, [0]))), slack);
  }

  lemma {:induction false} RunOfTwo(s: Sender.State, a: Sender.Op, b: Sender.Op)
    requires Sender.Inv(s)
    ensures Sender.Inv(Sender.Apply(s, a).0)
    ensures SenderRuns.After(s, [a, b]) == Sender.Apply(Sender.Apply(s, a).0, b).0
  {
    Sender.ApplyKeepsInv(s, a);
    Sender.ApplyKeepsInv(Sender.Apply(s, a).0, b);
    var s1 := Sender.Apply(s, a).0;
    assert [a, b][1..] == [b] && [b][1..] == [];
    assert SenderRuns.After(s1, [b]) == SenderRuns.After(Sender.Apply(s1, b).0, [b][1..]);
  }

  lemma OneByteIsOneChunk(s: Sender.State, u: u16)
    requires s.running && Sender.UniverseAllowed(s, u).Ok?
    ensures Sender.Send(s, [u], [0], None, None) == Sender.SendUniverse(s, u, [0], E131_DEFAULT_PRIORITY, 0)
  {
    var us, data: Bytes := [u], [0];
    assert us[1..] == [] && Sender.AllAllowed(s, us[1..]).Ok? && Sender.AllAllowed(s, us).Ok?;
    assert Sender.Required(|data|) == 1 && Sender.Chunk(data, 0) == data;
    var (s1, r) := Sender.SendUniverse(s, u, data, E131_DEFAULT_PRIORITY, 0);
    assert Sender.SendChunks(s1, us, data, E131_DEFAULT_PRIORITY, 0, 1) == (s1, Ok(Unit));
    assert Sender.SendChunks(s, us, data, E131_DEFAULT_PRIORITY, 0, 0) == (s1, r);
  }

  /**
   * A sender registers the discovery universe and sends data on it: the datagram goes out and no receiver can parse
   * it.
   */
  lemma DataOnDiscoveryUniverse(cid: Cid, name: Bytes, slack: Bytes)
    requires ValidName(name)
    ensures
      var u := E131_DISCOVERY_UNIVERSE;
      var sent := SenderRuns.After(Sender.Initial(cid, name, []),
                                   [Sender.OpRegister(u), Sender.OpSend([u], [0], None, None)]).sent;
      |sent| == 1 && PackOk(sent[0]) && Parse(Encode(sent[0]) + slack) == Fail(InvalidUniverse(u))
  {
    var u := E131_DISCOVERY_UNIVERSE;
    var s := Sender.Initial(cid, name, []);
    RunOfTwo(s, Sender.OpRegister(u), Sender.OpSend([u], [0], None, None));
    InsertKeepsOrder([], u);
    var s1 := Sender.RegisterUniverse(s, u).0;
    OneByteIsOneChunk(s1, u);
    var p := Sender.DataPkt(s1, u, [0], E131_DEFAULT_PRIORITY, 0, false);
    assert [] + [p] == [p];
    Codec.IllegalUniverseFails(p, p.data.data, slack);
  }

  /** Two data packets on one universe that both carry the number 0 are not numbered right. */
  lemma SecondNumberedZero(sent: seq<P.Packet>)
    requires |sent| == 2 && SenderRuns.OnData(sent[0], 1) && SenderRuns.OnData(sent[1], 1)
    requires sent[1].data.data.seqNo == 0
    ensures !SenderRuns.Numbered(sent)
  {
    SenderRuns.CountsOfMore([], sent[0], 1);
    assert sent[..1] == [] + [sent[0]];
    assert !SenderRuns.NumberedAfter(sent[..1], sent[1]);
  }

  /** The socket refuses one termination packet: the next data packet on the universe carries the number 0 again. */
  lemma CounterLost(cid: Cid, name: Bytes)
    requires |name| <= SOURCE_NAME_LENGTH
    ensures
      var send := Sender.OpSend([1], [0], None, None);
      var s := SenderRuns.After(Sender.Initial(cid, name, [true, false]), [Sender.OpRegister(1), send]);
      && Sender.Inv(s) && SenderRuns.InStep(s)
      && var s' := SenderRuns.After(s, [Sender.OpTerminateStream(1, 0), send]);
         |s'.sent| == 2 && s'.sent[1].data.data.seqNo == 0 && !SenderRuns.Numbered(s'.sent)
  {
    var send := Sender.OpSend([1], [0], None, None);
    var s0 := Sender.Initial(cid, name, [true, false]);
    RunOfTwo(s0, Sender.OpRegister(1), send);
    InsertKeepsOrder([], 1);
    var s1 := Sender.RegisterUniverse(s0, 1).0;
    OneByteIsOneChunk(s1, 1);
    var s2 := Sender.Send(s1, [1], [0], None, None).0;
    SenderRuns.SendUniverseKeepsStep(s1, 1, [0], E131_DEFAULT_PRIORITY, 0);
    RunOfTwo(s2, Sender.OpTerminateStream(1, 0), send);
    var s3 := Sender.TerminateStream(s2, 1, 0).0;
    assert Sender.SendTerminates(s2, 1, 0, 3) == (s3, Err(Io));
    OneByteIsOneChunk(s3, 1);
    var sent := Sender.Send(s3, [1], [0], None, None).0.sent;
    assert |sent| == 2;
    SecondNumberedZero(sent);
  }

  /**
   * Two packets that wait for different addresses: the HTP merge loses both, and the default merge keeps the second.
   */
  lemma MergeAcrossAddresses(cid: Cid)
    ensures
      var i := DmxData(1, [0, 10], 7, 100, Some(cid), false, 0);
      var n := DmxData(1, [0, 20], 8, 100, Some(cid), false, 1);
      var w: W.Buffer := map[1 := i];
      && W.Store(w, n, HtpMerge) == (map[], Err(DmxMergeError))
      && W.Store(w, n, DiscardLowestPriorityThenPrevious) == (map[1 := n], Ok(Unit))
  {
    var i := DmxData(1, [0, 10], 7, 100, Some(cid), false, 0);
    var n := DmxData(1, [0, 20], 8, 100, Some(cid), false, 1);
    var w: W.Buffer := map[1 := i];
    assert w - {1} == map[] && w[1 := n] == map[1 := n];
    assert !Compatible(i, n);
  }

  /** A receiver as it comes: no source limit, no previews, nothing announced. */
  const DEFAULT_CONFIG: R.Config :=
    R.Config(None, false, false, false, false, DiscardLowestPriorityThenPrevious)

  /** A synchronisation packet on a universe that no data came on, then its termination: the sync number stays. */
  lemma SyncNumberStays(cid: Cid, name: Bytes)
    ensures
      var st1 := R.Step(R.Initial(DEFAULT_CONFIG), At(0, R.Listen([1]))).0;
      var sync := P.Packet(cid, SyncPacket(SyncFraming(0, 1)));
      var end := P.Packet(cid, DataPacket(DataFraming(name, 100, 0, 0, false, true, false, 1, [0])));
      && Ascending(st1.universes)
      && var st2 := R.Step(st1, At(1, R.Recv(Done(sync), None))).0;
         && Ascending(st2.universes)
         && var st3 := R.Step(st2, At(2, R.Recv(Done(end), None))).0;
            S.Entry(st3.data, cid, 1) == None && S.Entry(st3.sync, cid, 1) == Some(S.Stamp(0, 1))
  {
    R.ListenToOne([E131_DISCOVERY_UNIVERSE], 1);
    InsertKeepsOrder([E131_DISCOVERY_UNIVERSE], 1);
    var st1 := R.Step(R.Initial(DEFAULT_CONFIG), At(0, R.Listen([1]))).0;
    var sync := P.Packet(cid, SyncPacket(SyncFraming(0, 1)));
    var st2 := R.Step(st1, At(1, R.Recv(Done(sync), None))).0;
    S.FirstPacketPasses(0);
    S.EntryOfJudge(map[], None, cid, 0, 1, 1, cid, 1);
    assert S.Purge(map[], 1) == map[];
    assert st2.data == map[] && S.Entry(st2.sync, cid, 1) == Some(S.Stamp(0, 1));
    S.EntryOfPurge(st2.sync, 2, cid, 1);
    assert S.Purge(map[], 2) == map[];
  }

  /** The same, announcing timeouts. */
  const ANNOUNCING_CONFIG: R.Config := DEFAULT_CONFIG.(announceTimeout := true)

  function Tracking(universes: seq<u16>, data: S.Table): R.State {
    R.State(ANNOUNCING_CONFIG, universes, map[], [], [], data, map[])
  }

  function LivePacket(cid: Cid, name: Bytes, u: u16, seqNo: byte): P.Packet {
    P.Packet(cid, DataPacket(DataFraming(name, 100, 0, seqNo, false, false, false, u, [0])))
  }

  /**
   * One source has expired, another has not and sends its next packet: a round whose sweeps report nothing reads the
   * packet, reports the first source's timeout in its stead, and the packet is gone.
   */
  lemma ReadAndLost(c: Cid, d: Cid, name: Bytes)
    requires c != d
    ensures
      var st := Tracking([1], map[c := map[1 := S.Stamp(0, 2500)], d := map[1 := S.Stamp(0, 0)]]);
      var picks := R.Picks(None, None, Some((d, 1)));
      && R.Inv(st) && R.AllowedPicks(st, 2500, 2500, Some(Done(LivePacket(c, name, 1, 1))), picks)
      && R.Round(st, 2500, 2500, Some(Done(LivePacket(c, name, 1, 1))), picks)
         == (st.(data := map[c := map[1 := S.Stamp(0, 2500)]]), R.Failed(UniverseTimeout(d, 1)))
  {
    var t: S.Table := map[c := map[1 := S.Stamp(0, 2500)], d := map[1 := S.Stamp(0, 0)]];
    assert !S.SomeExpired(t[c], 2500);
    assert t[d] - {1} == map[] && t - {d} == map[c := map[1 := S.Stamp(0, 2500)]];
  }

  /**
   * A source alone: while the receiver waits on the socket, its one universe expires and costs it a packet on the
   * other.
   */
  lemma OwnUniverseCostsPacket(c: Cid, name: Bytes)
    ensures
      var st := Tracking([1, 2], map[c := map[1 := S.Stamp(0, 0), 2 := S.Stamp(0, 2400)]]);
      var picks := R.Picks(None, None, Some((c, 1)));
      && R.Inv(st) && R.AllowedPicks(st, 2400, 2500, Some(Done(LivePacket(c, name, 2, 1))), picks)
      && R.Round(st, 2400, 2500, Some(Done(LivePacket(c, name, 2, 1))), picks)
         == (st.(data := map[c := map[2 := S.Stamp(0, 2400)]]), R.Failed(UniverseTimeout(c, 1)))
  {
    var t: S.Table := map[c := map[1 := S.Stamp(0, 0), 2 := S.Stamp(0, 2400)]];
    assert !S.SomeExpired(t[c], 2400);
    var rest: S.Universes := map[2 := S.Stamp(0, 2400)];
    assert t[c] - {1} == rest && 2 in rest && t[c := rest] == map[c := rest];
    assert S.RemoveEntry(t, c, 1) == map[c := rest];
  }

  /**
   * A packet waits and grows stale while the receiver waits on the socket: the fresh one that comes then is merged into
   * it, and its own synchronisation packet finds nothing to hand out.
   */
  lemma StalePacketWins(c: Cid, name: Bytes)
    ensures
      var stale := DmxData(1, [0, 10], 7, 150, Some(c), false, 0);
      var st := R.State(DEFAULT_CONFIG, [1, 7], map[1 := stale], [], [], map[], map[]);
      var p := P.Packet(c, DataPacket(DataFraming(name, 100, 7, 0, false, false, false, 1, [0, 20])));
      && R.Inv(st)
      && var (st', out) := R.Round(st, 2499, 2500, Some(Done(p)), R.Picks(None, None, None));
         && out == R.Nothing && S.Entry(st'.data, c, 1) == Some(S.Stamp(0, 2500))
         && st'.waiting == map[1 := stale] && W.Released(st'.waiting, 7, 2500) == {}
  {
    var stale := DmxData(1, [0, 10], 7, 150, Some(c), false, 0);
    var st := R.State(DEFAULT_CONFIG, [1, 7], map[1 := stale], [], [], map[], map[]);
    var p := P.Packet(c, DataPacket(DataFraming(name, 100, 7, 0, false, false, false, 1, [0, 20])));
    var (st1, r) := R.SweepAll(st, 2499, None, None);
    assert st1 == st by { assert S.Purge(map[], 2499) == map[] && W.DropStale(st.waiting, 2499) == st.waiting; }
    R.ListenToOne([1, 7], 7);
    S.FirstPacketPasses(0);
    S.EntryOfJudge(map[], None, c, 0, 1, 2500, c, 1);
    assert S.Purge(map[], 2500) == map[];
    R.LiveDataRunsWaitingOp(st, c, p.data.data, 2500, None);
    R.CheckedPacket(st, p, 2500, None);
    assert stale.priority > R.ToDmx(c, p.data.data, 2500).priority;
    assert map[1 := stale][1 := stale] == map[1 := stale];
  }
}
