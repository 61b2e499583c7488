/** Sender, wire and receiver together: synchronised chunks wait, and come out as one when their packet comes. */
module SyncDelivery {
  import opened Types
  import opened P = Packet
  import opened Merge
  import opened S = Sequencing
  import opened R = Receiver
  import opened RR = ReceiverRuns
  import opened SR = SenderRuns
  import opened Arrivals
  import opened Delivery
  import W = Waiting
  import WireValidity
  import Sender

  /** The receiver takes the packet in, and neither a source limit nor the report of a timeout stands in its way. */
  ghost predicate Admitted(st: State, p: P.Packet, now: nat, pick: Pick) {
    && Kept(st, p, now, pick) && Wanted(p, st.universes, st.config.processPreview) && HasRoom(st, p, now)
  }

  predicate HasRoom(st: State, p: P.Packet, now: nat) {
    Checked(st, p).Some? ==> !Full(Swept(st, TableOf(st, Checked(st, p).value.kind), now), st.config.limit, p.cid)
  }

  ghost predicate AllAdmitted(st: State, log: seq<P.Packet>, a: seq<Arrival>)
    requires Ascending(st.universes) && InLog(a, log)
    decreases |a|
  {
    a == [] ||
    (StepKeepsConfig(st, EventOf(a[0], log));
     && (a[0].Own? ==> Admitted(st, log[a[0].index], a[0].now, a[0].pick))
     && AllAdmitted(Step(st, EventOf(a[0], log)).0, log, a[1..]))
  }

  lemma {:induction false} AdmittedIsHeard(st: State, log: seq<P.Packet>, a: seq<Arrival>)
    requires Ascending(st.universes) && InLog(a, log) && AllAdmitted(st, log, a)
    ensures HearsAll(st, log, a) && KeepsAll(st, log, a)
    decreases |a|
  {
    if a != [] {
      StepKeepsConfig(st, EventOf(a[0], log));
      AdmittedIsHeard(Step(st, EventOf(a[0], log)).0, log, a[1..]);
    }
  }

  // ------------------------------------------------------- what waits for an address

  /** What waits for the address is exactly this. */
  ghost predicate Pending(w: W.Buffer, addr: u16, items: W.Buffer) {
    && (forall u | u in items :: u in w && w[u] == items[u] && w[u].syncUni == addr)
    && (forall u | u in w && w[u].syncUni == addr :: u in items)
  }

  /** Less than 2.5 s before `end`. */
  predicate InTime(now: nat, end: nat) { now <= end < now + DATA_LOSS_TIMEOUT }

  /** The receiver holds exactly these items for the address, all in time for `end`. */
  ghost predicate Holding(st: State, addr: u16, items: W.Buffer, end: nat) {
    && Ascending(st.universes) && Pending(st.waiting, addr, items)
    && forall u | u in items :: InTime(items[u].recvTime, end)
  }

  lemma PendingIsReleased(w: W.Buffer, addr: u16, items: W.Buffer, now: nat)
    requires Pending(w, addr, items) && forall u | u in items :: InTime(items[u].recvTime, now)
    ensures W.Released(w, addr, now) == items.Values
  {
    forall d ensures d in W.Released(w, addr, now) <==> d in items.Values {
      if d in items.Values {
        var u :| u in items && items[u] == d;
        assert u in w && w[u] == d;
      }
    }
  }

  // --------------------------------------------------------------- other traffic

  /** A merge waits for the address of one of the packets it merges. */
  ghost predicate MergeTakesSides(merge: MergeFn) {
    forall i, n | merge(i, n).Ok? :: merge(i, n).value.syncUni in {i.syncUni, n.syncUni}
  }

  lemma ShippedMergesTakeSides()
    ensures MergeTakesSides(DiscardLowestPriorityThenPrevious) && MergeTakesSides(HtpMerge)
  {
  }

  /** A packet for other universes and another address, of whatever kind. */
  ghost predicate Elsewhere(p: P.Packet, us: set<u16>, addr: u16, merge: MergeFn) {
    match p.data
    case DataPacket(d) =>
      d.terminated ||
      (d.universe !in us && d.syncAddr != addr && (d.syncAddr != E131_NO_SYNC_ADDR ==> MergeTakesSides(merge)))
    case SyncPacket(s) => s.syncAddr != addr
    case DiscoveryPacket(_) => true
  }

  /** What goes on beside the chunks: packets of others for elsewhere, rounds, calls that do not mute or clear here. */
  ghost predicate Aside(e: Event, cid: Cid, us: set<u16>, addr: u16, merge: MergeFn) {
    && Foreign(e, cid) && Sound(e) && !e.Mute? && !e.ClearAllWaiting? && (e.ClearWaiting? ==> e.u !in us)
    && (e.Recv? && e.input.Done? ==> Elsewhere(e.input.value, us, addr, merge))
  }

  /** An operation on the buffer that touches neither the universes nor the address. */
  ghost predicate Harmless(op: Timed<W.Op>, us: set<u16>, addr: u16, merge: MergeFn, end: nat) {
    match op.event
    case Put(d) => d.universe !in us && d.syncUni != addr && MergeTakesSides(merge)
    case Take(s) => s != addr
    case Drop(u) => u !in us
    case DropAll => false
    case Expire => op.now <= end
  }

  lemma HarmlessKeeps(w: W.Buffer, op: Timed<W.Op>, us: set<u16>, addr: u16, merge: MergeFn, items: W.Buffer, end: nat)
    requires Pending(w, addr, items) && items.Keys <= us && Harmless(op, us, addr, merge, end)
    requires forall u | u in items :: InTime(items[u].recvTime, end)
    ensures
      var w' := W.Step(w, op, merge).0;
      Pending(w', addr, items) && forall u | u in us && u in w' :: u in w
  {
  }

  lemma AsideIsHarmless(st: State, e: Timed<Event>, cid: Cid, us: set<u16>, addr: u16, end: nat)
    requires Aside(e.event, cid, us, addr, st.config.merge) && e.now <= end
    ensures |BufferOps(st, e)| <= 1
    ensures forall op | op in BufferOps(st, e) :: Harmless(op, us, addr, st.config.merge, end)
  {
  }

  /** What goes on beside the chunks changes nothing for them. */
  lemma AsideKeeps(st: State, e: Timed<Event>, cid: Cid, us: set<u16>, addr: u16, items: W.Buffer, end: nat)
    requires Holding(st, addr, items, end) && items.Keys <= us
    requires Aside(e.event, cid, us, addr, st.config.merge) && e.now <= end
    ensures
      var st' := Step(st, e).0;
      && Holding(st', addr, items, end) && SameConfig(st, st') && ListensOn(st, st')
      && forall u | u in us && u in st'.waiting :: u in st.waiting
  {
    StepKeepsConfig(st, e);
    StepKeepsListening(st, e);
    StepRunsBuffer(st, e);
    AsideIsHarmless(st, e, cid, us, addr, end);
    var ops := BufferOps(st, e);
    if ops != [] {
      assert ops == [ops[0]];
      W.BufferAfterOne(st.waiting, ops[0], st.config.merge);
      HarmlessKeeps(st.waiting, ops[0], us, addr, st.config.merge, items, end);
    }
  }

  // ---------------------------------------------------------------- the chunks

  /** The log holds live chunks `ps` of the source from its `k`-th packet on, all of them to wait for the address. */
  ghost predicate Chunks(log: seq<P.Packet>, k: nat, cid: Cid, ps: seq<DataFraming>, us: set<u16>, addr: u16) {
    && k + |ps| <= |log|
    && (forall i | 0 <= i < |ps| ::
          && log[k + i] == P.Packet(cid, DataPacket(ps[i])) && !ps[i].terminated
          && ps[i].syncAddr == addr && ps[i].universe in us)
    && forall i, j | 0 <= i < j < |ps| :: ps[i].universe != ps[j].universe
  }

  /** These chunks arrive in order and in time for `end`, with anything going on beside them. */
  ghost predicate Arriving(a: seq<Arrival>, k: nat, n: nat, cid: Cid, us: set<u16>, addr: u16, merge: MergeFn,
                           end: nat) {
    && |Indices(a)| == n && InOrder(a, k)
    && forall i | 0 <= i < |a| ::
         if a[i].Own? then InTime(a[i].now, end) else a[i].now <= end && Aside(a[i].event, cid, us, addr, merge)
  }

  /** When the log's packets arrive. */
  function Times(a: seq<Arrival>): (r: seq<nat>)
    ensures |r| == |Indices(a)|
    decreases |a|
  {
    if a == [] then [] else if a[0].Own? then [a[0].now] + Times(a[1..]) else Times(a[1..])
  }

  /** The chunks as they come out, each with the time it arrived. */
  function ChunkData(times: seq<nat>, ps: seq<DataFraming>, cid: Cid): (r: seq<DmxData>)
    requires |ps| == |times|
    ensures |r| == |times| && forall i | 0 <= i < |r| :: IsItem(r[i], cid, ps[i], times[i])
  {
    seq(|times|, i requires 0 <= i < |times| => ToDmx(cid, ps[i], times[i]))
  }

  /** A chunk that is let in waits, and the receiver listens for what it waits for. */
  lemma ChunkIsStored(st: State, cid: Cid, d: DataFraming, now: nat, pick: Pick)
    requires Ascending(st.universes) && !d.terminated && InDataRange(d.syncAddr) && d.universe in st.universes
    requires d.preview ==> st.config.processPreview
    requires HandleData(st, cid, d, now, pick).1 == Nothing
    ensures
      var st' := HandleData(st, cid, d, now, pick).0;
      && st'.waiting == W.Store(st.waiting, ToDmx(cid, d, now), st.config.merge).0
      && d.syncAddr in st'.universes
  {
    LiveDataRunsWaitingOp(st, cid, d, now, pick);
    ListenToOne(st.universes, d.syncAddr);
    InsertKeepsOrder(st.universes, d.syncAddr);
    var t := CheckSeq(st.data, st.config.limit, cid, d.seqNo, d.universe, now, st.config.announceTimeout, pick).0;
    StoringSparesListening(st.(data := t, universes := Insert(st.universes, d.syncAddr)), ToDmx(cid, d, now));
  }

  lemma StoreIsPending(w: W.Buffer, addr: u16, items: W.Buffer, d: DmxData, merge: MergeFn)
    requires Pending(w, addr, items) && d.universe !in w && d.syncUni == addr
    ensures W.Store(w, d, merge) == (w[d.universe := d], Ok(Unit))
    ensures Pending(w[d.universe := d], addr, items[d.universe := d])
  {
  }

  /** One chunk more waits. */
  lemma ChunkStep(st: State, log: seq<P.Packet>, x: Arrival, cid: Cid, d: DataFraming, addr: u16, items: W.Buffer,
                  end: nat)
    requires Holding(st, addr, items, end) && x.Own? && x.index < |log|
    requires log[x.index] == P.Packet(cid, DataPacket(d)) && Admitted(st, log[x.index], x.now, x.pick)
    requires Passed(st, Step(st, EventOf(x, log)).1, log[x.index], x.now)
    requires !d.terminated && d.syncAddr == addr && InDataRange(addr) && d.universe !in st.waiting && InTime(x.now, end)
    ensures
      var st' := Step(st, EventOf(x, log)).0;
      && Holding(st', addr, items[d.universe := ToDmx(cid, d, x.now)], end) && addr in st'.universes
      && forall u | u in st'.waiting :: u in st.waiting || u == d.universe
  {
    StoreIsPending(st.waiting, addr, items, ToDmx(cid, d, x.now), st.config.merge);
    ChunkIsStored(st, cid, d, x.now, x.pick);
    StepKeepsConfig(st, EventOf(x, log));
  }

  /** `items` with each of the data put in at its universe. */
  function PutAll(items: W.Buffer, ds: seq<DmxData>): W.Buffer
    decreases |ds|
  {
    if ds == [] then items else PutAll(items[ds[0].universe := ds[0]], ds[1..])
  }

  lemma {:induction false} PutAllHolds(items: W.Buffer, ds: seq<DmxData>)
    requires forall i, j | 0 <= i < j < |ds| :: ds[i].universe != ds[j].universe
    requires forall i | 0 <= i < |ds| :: ds[i].universe !in items
    ensures
      var all := PutAll(items, ds);
      && (forall u | u in items :: u in all && all[u] == items[u])
      && (forall i | 0 <= i < |ds| :: ds[i].universe in all && all[ds[i].universe] == ds[i])
      && (forall u | u in all :: u in items || all[u] in ds)
    decreases |ds|
  {
    if ds != [] {
      var rest := ds[1..];
      assert forall i | 0 <= i < |rest| :: rest[i] == ds[i + 1];
      PutAllHolds(items[ds[0].universe := ds[0]], rest);
      forall i | 0 <= i < |ds|
        ensures ds[i].universe in PutAll(items, ds) && PutAll(items, ds)[ds[i].universe] == ds[i]
      {
        if i > 0 { assert ds[i] == rest[i - 1]; }
      }
    }
  }

  lemma {:induction false} ValuesOfPutAll(ds: seq<DmxData>)
    requires forall i, j | 0 <= i < j < |ds| :: ds[i].universe != ds[j].universe
    ensures PutAll(map[], ds).Values == Elements(ds)
  {
    PutAllHolds(map[], ds);
    forall d ensures d in PutAll(map[], ds).Values <==> d in Elements(ds) {
      if d in Elements(ds) {
        var i :| 0 <= i < |ds| && ds[i] == d;
        assert PutAll(map[], ds)[d.universe] == d;
      }
    }
  }

  lemma DistinctElements(ds: seq<DmxData>)
    requires forall i, j | 0 <= i < j < |ds| :: ds[i].universe != ds[j].universe
    ensures |Elements(ds)| == |ds|
  {
    if ds != [] {
      var n := |ds| - 1;
      DistinctElements(ds[..n]);
      assert Elements(ds) == Elements(ds[..n]) + {ds[n]};
      assert ds[n] !in ds[..n];
    }
  }

  lemma {:induction false} PutAllUnfolds(items: W.Buffer, d: DmxData, rest: seq<DmxData>)
    ensures PutAll(items, [d] + rest) == PutAll(items[d.universe := d], rest)
  {
    assert ([d] + rest)[1..] == rest;
  }

  /** Nothing waits yet for the chunks' universes. */
  ghost predicate Clear(w: W.Buffer, ps: seq<DataFraming>) {
    forall i | 0 <= i < |ps| :: ps[i].universe !in w
  }

  lemma {:induction false} TailOfChunks(log: seq<P.Packet>, k: nat, cid: Cid, ps: seq<DataFraming>, us: set<u16>,
                        addr: u16, times: seq<nat>)
    requires ps != [] && Chunks(log, k, cid, ps, us, addr) && |times| == |ps|
    ensures Chunks(log, k + 1, cid, ps[1..], us, addr)
    ensures forall i | 0 <= i < |ps[1..]| :: ps[1..][i].universe != ps[0].universe
    ensures ChunkData(times, ps, cid) == [ToDmx(cid, ps[0], times[0])] + ChunkData(times[1..], ps[1..], cid)
  {
    forall i | 0 <= i < |ps| - 1
      ensures log[k + 1 + i] == P.Packet(cid, DataPacket(ps[1..][i])) && !ps[1..][i].terminated
      ensures ps[1..][i].syncAddr == addr && ps[1..][i].universe in us
    {
      assert ps[1..][i] == ps[i + 1] && log[k + (i + 1)] == P.Packet(cid, DataPacket(ps[i + 1]));
    }
  }

  lemma {:induction false} TailArriving(a: seq<Arrival>, k: nat, n: nat, cid: Cid, us: set<u16>, addr: u16,
                        merge: MergeFn, end: nat, log: seq<P.Packet>)
    requires a != [] && InLog(a, log) && Arriving(a, k, n, cid, us, addr, merge, end)
    ensures InLog(a[1..], log) && Undisturbed(a, cid)
    ensures a[0].Own? ==> n > 0 && a[0].index == k && Arriving(a[1..], k + 1, n - 1, cid, us, addr, merge, end)
    ensures a[0].Other? ==> Arriving(a[1..], k, n, cid, us, addr, merge, end)
  {
    TailInOrder(a, k, log, cid);
  }

  /** The next chunk comes: it waits with the others, and those still to come find their universes clear. */
  lemma {:induction false} ChunkWaits(st: State, log: seq<P.Packet>, k: nat, x: Arrival, times: seq<nat>, cid: Cid,
                        ps: seq<DataFraming>, us: set<u16>, addr: u16, items: W.Buffer, end: nat)
    requires Holding(st, addr, items, end) && InDataRange(addr) && items.Keys <= us
    requires ps != [] && Chunks(log, k, cid, ps, us, addr) && Clear(st.waiting, ps)
    requires x.Own? && x.index == k && InTime(x.now, end) && |times| == |ps| && times[0] == x.now
    requires Admitted(st, log[k], x.now, x.pick) && Passed(st, Step(st, EventOf(x, log)).1, log[k], x.now)
    ensures
      var (st1, d) := (Step(st, EventOf(x, log)).0, ToDmx(cid, ps[0], x.now));
      && Holding(st1, addr, items[d.universe := d], end) && items[d.universe := d].Keys <= us
      && Chunks(log, k + 1, cid, ps[1..], us, addr) && Clear(st1.waiting, ps[1..]) && addr in st1.universes
      && PutAll(items, ChunkData(times, ps, cid))
         == PutAll(items[d.universe := d], ChunkData(times[1..], ps[1..], cid))
  {
    var d := ToDmx(cid, ps[0], x.now);
    assert log[k + 0] == P.Packet(cid, DataPacket(ps[0]));
    ChunkStep(st, log, x, cid, ps[0], addr, items, end);
    TailOfChunks(log, k, cid, ps, us, addr, times);
    PutAllUnfolds(items, d, ChunkData(times[1..], ps[1..], cid));
    forall i | 0 <= i < |ps[1..]| ensures ps[1..][i].universe !in Step(st, EventOf(x, log)).0.waiting {
      assert ps[1..][i] == ps[i + 1];
    }
  }

  lemma {:induction false} ChunksWait(st: State, log: seq<P.Packet>, k: nat, a: seq<Arrival>, cid: Cid,
                        ps: seq<DataFraming>, us: set<u16>, addr: u16, items: W.Buffer, end: nat)
    requires Holding(st, addr, items, end) && InDataRange(addr) && items.Keys <= us && InLog(a, log)
    requires Chunks(log, k, cid, ps, us, addr) && Clear(st.waiting, ps)
    requires Arriving(a, k, |ps|, cid, us, addr, st.config.merge, end)
    requires AllAdmitted(st, log, a) && AllPass(st, log, a)
    ensures Holding(Final(st, log, a), addr, PutAll(items, ChunkData(Times(a), ps, cid)), end)
    ensures ps != [] || addr in st.universes ==> addr in Final(st, log, a).universes
    decreases |a|
  {
    if a != [] {
      var e := EventOf(a[0], log);
      var st1 := Step(st, e).0;
      TailArriving(a, k, |ps|, cid, us, addr, st.config.merge, end, log);
      StepKeepsConfig(st, e);
      if a[0].Own? {
        var d := ToDmx(cid, ps[0], a[0].now);
        ChunkWaits(st, log, k, a[0], Times(a), cid, ps, us, addr, items, end);
        ChunksWait(st1, log, k + 1, a[1..], cid, ps[1..], us, addr, items[d.universe := d], end);
      } else {
        AsideKeeps(st, e, cid, us, addr, items, end);
        ChunksWait(st1, log, k, a[1..], cid, ps, us, addr, items, end);
      }
    }
  }

  /** What a synchronisation packet that is let in hands out, when this is what waits for its address. */
  lemma PendingComesOut(st: State, log: seq<P.Packet>, x: Arrival, addr: u16, items: W.Buffer)
    requires Holding(st, addr, items, x.now) && items.Values != {} && x.Own? && x.index < |log|
    requires OnSync(log[x.index], addr) && Admitted(st, log[x.index], x.now, x.pick)
    requires Passed(st, Step(st, EventOf(x, log)).1, log[x.index], x.now)
    ensures Step(st, EventOf(x, log)).1 == Data(items.Values)
  {
    PendingIsReleased(st.waiting, addr, items, x.now);
  }

  lemma AddressIsLegal(log: seq<P.Packet>, n: nat, cid: Cid, addr: u16)
    requires ValidLog(log, cid) && n < |log| && OnSync(log[n], addr)
    ensures InDataRange(addr) && log[n].cid == cid
  {
    assert Valid(log[n]);
  }

  lemma ChunksPass(st: State, log: seq<P.Packet>, k: nat, a: seq<Arrival>, cid: Cid, n: nat)
    requires Ascending(st.universes) && ValidLog(log, cid) && k <= |log| && Tracks(st, cid, log[..k])
    requires InLog(a, log) && InOrder(a, k) && Undisturbed(a, cid) && k + |Indices(a)| == n <= |log|
    requires AllAdmitted(st, log, a)
    ensures AllPass(st, log, a) && Tracks(Final(st, log, a), cid, log[..n])
  {
    AdmittedIsHeard(st, log, a);
    InOrderPasses(st, log, k, a, cid, n);
  }

  lemma SyncPacketPasses(st: State, log: seq<P.Packet>, n: nat, last: Arrival, cid: Cid, addr: u16)
    requires Ascending(st.universes) && ValidLog(log, cid) && n < |log| && Tracks(st, cid, log[..n])
    requires last.Own? && last.index == n && OnSync(log[n], addr) && Admitted(st, log[n], last.now, last.pick)
    ensures Passed(st, Step(st, EventOf(last, log)).1, log[n], last.now)
  {
    OwnArrivalPasses(st, log, n, last.now, last.pick, cid);
  }

  /**
   * A tracked source's synchronised chunks for distinct universes, arriving in order at a receiver where nothing else
   * waits for their universes or their address, among any traffic for other universes and addresses: their
   * synchronisation packet, less than 2.5 s after the first of them, brings out exactly these chunks.
   */
  lemma {:induction false} SynchronisedChunksComeOut(st: State, log: seq<P.Packet>, k: nat, a: seq<Arrival>,
                        last: Arrival, cid: Cid, ps: seq<DataFraming>, us: set<u16>, addr: u16)
    requires Ascending(st.universes) && ValidLog(log, cid) && k <= |log| && Tracks(st, cid, log[..k])
    requires ps != [] && Chunks(log, k, cid, ps, us, addr) && InLog(a, log) && AllAdmitted(st, log, a)
    requires Arriving(a, k, |ps|, cid, us, addr, st.config.merge, last.now)
    requires Clear(st.waiting, ps) && forall u | u in st.waiting :: st.waiting[u].syncUni != addr
    requires last.Own? && last.index == k + |ps| < |log| && OnSync(log[last.index], addr)
    requires Kept(Final(st, log, a), log[last.index], last.now, last.pick)
    requires HasRoom(Final(st, log, a), log[last.index], last.now)
    ensures
      var (st1, ds) := (Final(st, log, a), ChunkData(Times(a), ps, cid));
      Step(st1, EventOf(last, log)).1 == Data(Elements(ds)) && |Elements(ds)| == |ps|
  {
    var st1, ds := Final(st, log, a), ChunkData(Times(a), ps, cid);
    AddressIsLegal(log, last.index, cid, addr);
    ChunksPass(st, log, k, a, cid, last.index);
    ChunksWait(st, log, k, a, cid, ps, us, addr, map[], last.now);
    SyncPacketPasses(st1, log, last.index, last, cid, addr);
    ValuesOfPutAll(ds);
    assert ds[0] in Elements(ds);
    PendingComesOut(st1, log, last, addr, PutAll(map[], ds));
    DistinctElements(ds);
  }

  // ------------------------------------------------------------ from the sender

  /** A sender's log after a synchronised send and its synchronisation packet. */
  lemma SynchronisedLog(s: Sender.State, us: seq<u16>, data: Bytes, priority: Option<byte>, addr: u16)
    returns (added: seq<P.Packet>, sync: P.Packet)
    requires InStep(s) && WireValidity.WireOk(s)
    requires Sender.Send(s, us, data, priority, Some(addr)).1.Ok?
    requires Sender.SendSync(Sender.Send(s, us, data, priority, Some(addr)).0, addr).1.Ok?
    ensures
      var log := Sender.SendSync(Sender.Send(s, us, data, priority, Some(addr)).0, addr).0.sent;
      && log == s.sent + added + [sync] && ValidLog(log, s.cid) && OnSync(sync, addr)
      && 0 < |added| == Sender.Required(|data|) <= |us| && Joined(added) == data
      && forall i | 0 <= i < |added| ::
           Carries(added[i], s, us[i], if priority.Some? then priority.value else 100, addr)
  {
    var (op, op') := (Sender.OpSend(us, data, priority, Some(addr)), Sender.OpSendSync(addr));
    var s1 := Sender.Send(s, us, data, priority, Some(addr)).0;
    added := SendSplits(s, us, data, priority, Some(addr));
    Sender.ApplyKeepsInv(s, op);
    ApplyKeepsStep(s, op);
    WireValidity.ApplyOk(s, op);
    sync := P.Packet(s1.cid, SyncPacket(SyncFraming(Sender.SeqOf(s1.syncSeq, addr), addr)));
    Sender.ApplyKeepsInv(s1, op');
    ApplyKeepsStep(s1, op');
    WireValidity.ApplyOk(s1, op');
  }

  /** The framing layers of data packets. */
  function Framings(ps: seq<P.Packet>): (r: seq<DataFraming>)
    requires forall i | 0 <= i < |ps| :: ps[i].data.DataPacket?
    ensures |r| == |ps|
  {
    seq(|ps|, i requires 0 <= i < |ps| => ps[i].data.data)
  }

  /** The payloads of what is handed out, joined. */
  function ValuesOf(items: seq<DmxData>): Bytes {
    if items == [] then [] else items[0].values + ValuesOf(items[1..])
  }

  lemma {:induction false} ValuesAreJoined(added: seq<P.Packet>, times: seq<nat>, cid: Cid)
    requires |added| == |times| && forall i | 0 <= i < |added| :: added[i].data.DataPacket?
    ensures ValuesOf(ChunkData(times, Framings(added), cid)) == Joined(added)
    decreases |added|
  {
    if added != [] {
      ValuesAreJoined(added[1..], times[1..], cid);
      assert Framings(added)[1..] == Framings(added[1..]);
      assert ChunkData(times, Framings(added), cid)[1..] == ChunkData(times[1..], Framings(added[1..]), cid);
    }
  }

  /** An item for each of the leading universes, from this sender, as old as the arrival of its chunk. */
  ghost predicate ItemsOf(items: seq<DmxData>, s: Sender.State, us: seq<u16>, priority: byte, addr: u16,
                          times: seq<nat>) {
    && |items| == |times| <= |us|
    && forall i | 0 <= i < |items| ::
         && items[i].universe == us[i] && items[i].syncUni == addr && items[i].srcCid == Some(s.cid)
         && items[i].priority == priority && items[i].preview == s.preview && items[i].recvTime == times[i]
  }

  lemma ItemsOfChunks(added: seq<P.Packet>, s: Sender.State, us: seq<u16>, priority: byte, addr: u16, times: seq<nat>)
    requires |added| == |times| <= |us|
    requires forall i | 0 <= i < |added| :: Carries(added[i], s, us[i], priority, addr)
    ensures forall i | 0 <= i < |added| :: added[i].data.DataPacket?
    ensures ItemsOf(ChunkData(times, Framings(added), s.cid), s, us, priority, addr, times)
  {
    var items := ChunkData(times, Framings(added), s.cid);
    forall i | 0 <= i < |items| ensures IsItem(items[i], s.cid, added[i].data.data, times[i]) {
      assert Carries(added[i], s, us[i], priority, addr);
    }
  }

  function SetOf(us: seq<u16>): set<u16> { set u | u in us }

  lemma ChunksOfSend(log: seq<P.Packet>, before: seq<P.Packet>, added: seq<P.Packet>, sync: P.Packet, s: Sender.State,
                     us: seq<u16>, priority: byte, addr: u16)
    requires log == before + added + [sync] && |added| <= |us|
    requires forall i | 0 <= i < |added| :: Carries(added[i], s, us[i], priority, addr)
    requires forall i, j | 0 <= i < j < |us| :: us[i] != us[j]
    ensures forall i | 0 <= i < |added| :: added[i].data.DataPacket?
    ensures Chunks(log, |before|, s.cid, Framings(added), SetOf(us), addr)
    ensures log[..|before|] == before && log[|before| + |added|] == sync
  {
    forall i | 0 <= i < |added|
      ensures log[|before| + i] == P.Packet(s.cid, DataPacket(Framings(added)[i])) && !Framings(added)[i].terminated
      ensures Framings(added)[i].syncAddr == addr && Framings(added)[i].universe == us[i]
    {
      assert log[|before| + i] == added[i] && Carries(added[i], s, us[i], priority, addr);
    }
  }

  /**
   * One synchronised send over distinct universes and its synchronisation packet, delivered in order among any traffic
   * for elsewhere: the receiver hands out one item for each chunk of that send and nothing else, to the leading
   * universes and with the sender as their source, and the items' values joined in the order of the universes are the
   * data sent.
   */
  lemma SynchronisedSendComesOut(s: Sender.State, us: seq<u16>, data: Bytes, priority: Option<byte>,
                        addr: u16, st: State, a: seq<Arrival>, last: Arrival)
    returns (items: seq<DmxData>)
    requires InStep(s) && WireValidity.WireOk(s) && forall i, j | 0 <= i < j < |us| :: us[i] != us[j]
    requires Sender.Send(s, us, data, priority, Some(addr)).1.Ok?
    requires Sender.SendSync(Sender.Send(s, us, data, priority, Some(addr)).0, addr).1.Ok?
    requires Ascending(st.universes) && Tracks(st, s.cid, s.sent)
    requires forall u | u in st.waiting :: u !in us && st.waiting[u].syncUni != addr
    requires Arriving(a, |s.sent|, Sender.Required(|data|), s.cid, SetOf(us), addr, st.config.merge, last.now)
    requires last.Own? && last.index == |s.sent| + Sender.Required(|data|)
    requires
      var log := Sender.SendSync(Sender.Send(s, us, data, priority, Some(addr)).0, addr).0.sent;
      && InLog(a, log) && AllAdmitted(st, log, a) && last.index < |log|
      && Kept(Final(st, log, a), log[last.index], last.now, last.pick)
      && HasRoom(Final(st, log, a), log[last.index], last.now)
    ensures
      var log := Sender.SendSync(Sender.Send(s, us, data, priority, Some(addr)).0, addr).0.sent;
      && Step(Final(st, log, a), EventOf(last, log)).1 == Data(Elements(items)) && |Elements(items)| == |items|
      && ValuesOf(items) == data && |items| == Sender.Required(|data|) <= |us|
      && ItemsOf(items, s, us, if priority.Some? then priority.value else 100, addr, Times(a))
  {
    var log := Sender.SendSync(Sender.Send(s, us, data, priority, Some(addr)).0, addr).0.sent;
    var added, sync := SynchronisedLog(s, us, data, priority, addr);
    var pri := if priority.Some? then priority.value else 100;
    ChunksOfSend(log, s.sent, added, sync, s, us, pri, addr);
    forall i | 0 <= i < |added| ensures Framings(added)[i].universe !in st.waiting {
      assert Carries(added[i], s, us[i], pri, addr);
    }
    SynchronisedChunksComeOut(st, log, |s.sent|, a, last, s.cid, Framings(added), SetOf(us), addr);
    items := ChunkData(Times(a), Framings(added), s.cid);
    ValuesAreJoined(added, Times(a), s.cid);
    ItemsOfChunks(added, s, us, pri, addr, Times(a));
  }
}
