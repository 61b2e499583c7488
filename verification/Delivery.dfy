/** Sender, wire and receiver together: in-order delivery loses nothing and rejects nothing. */
module Delivery {
  import opened Types
  import opened P = Packet
  import opened Merge
  import opened S = Sequencing
  import opened R = Receiver
  import opened SR = SenderRuns
  import opened WireValidity
  import opened Arrivals
  import Sender

  // ------------------------------------------------------- one source's streams

  /** Anything but a packet of the source: other sources' packets, garbage, silence, and every call. */
  ghost predicate Foreign(e: Event, cid: Cid) {
    e.Recv? && e.input.Done? ==> e.input.value.cid != cid
  }

  ghost predicate EntriesShrink(t: Table, t': Table, cid: Cid) {
    forall u: u16 :: Entry(t', cid, u) == None || Entry(t', cid, u) == Entry(t, cid, u)
  }

  lemma SweepEntriesShrink(t: Table, now: nat, announce: bool, pick: Pick, cid: Cid)
    ensures EntriesShrink(t, Sweep(t, now, announce, pick).0, cid)
  {
    var t' := Sweep(t, now, announce, pick).0;
    forall u: u16 ensures Entry(t', cid, u) == None || Entry(t', cid, u) == Entry(t, cid, u) {
      EntryOfPurge(t, now, cid, u);
      if pick.Some? { EntryOfRemove(t, pick.value.0, pick.value.1, cid, u); }
    }
  }

  lemma OtherCheckShrinks(t: Table, limit: Option<nat>, c: Cid, n: byte, v: u16, now: nat,
                        announce: bool, pick: Pick, cid: Cid)
    requires c != cid
    ensures EntriesShrink(t, CheckSeq(t, limit, c, n, v, now, announce, pick).0, cid)
  {
    var (t1, r) := Sweep(t, now, announce, pick);
    SweepEntriesShrink(t, now, announce, pick, cid);
    forall u: u16 ensures Entry(Judge(t1, limit, c, n, v, now).0, cid, u) == Entry(t1, cid, u) {
      EntryOfJudge(t1, limit, c, n, v, now, cid, u);
    }
  }

  lemma OtherTerminationShrinks(t: Table, c: Cid, v: u16, cid: Cid)
    ensures EntriesShrink(t, RemoveEntry(t, c, v), cid)
  {
    var t' := RemoveEntry(t, c, v);
    forall u: u16 ensures Entry(t', cid, u) == None || Entry(t', cid, u) == Entry(t, cid, u) {
      EntryOfRemove(t, c, v, cid, u);
    }
  }

  ghost predicate StreamsShrink(st: State, st': State, cid: Cid) {
    EntriesShrink(st.data, st'.data, cid) && EntriesShrink(st.sync, st'.sync, cid)
  }

  lemma SweepShrinks(st: State, now: nat, data: Pick, sync: Pick, cid: Cid)
    ensures StreamsShrink(st, SweepAll(st, now, data, sync).0, cid)
  {
    SweepEntriesShrink(st.data, now, st.config.announceTimeout, data, cid);
    SweepEntriesShrink(st.sync, now, st.config.announceTimeout, sync, cid);
  }

  lemma OtherPacketShrinks(st: State, p: P.Packet, now: nat, pick: Pick, cid: Cid)
    requires Ascending(st.universes) && p.cid != cid
    ensures StreamsShrink(st, Handle(st, p, now, pick).0, cid)
  {
    match Checked(st, p)
    case Some(k) =>
      CheckedPacket(st, p, now, pick);
      OtherCheckShrinks(TableOf(st, k.kind), st.config.limit, p.cid, k.seqNo, k.universe, now,
                        st.config.announceTimeout, pick, cid);
    case None =>
      UncheckedPacket(st, p, now, pick);
      if Ends(st, p) {
        OtherTerminationShrinks(st.data, p.cid, p.data.data.universe, cid);
        OtherTerminationShrinks(st.sync, p.cid, p.data.data.universe, cid);
      }
  }

  /** Nothing that others send and nothing the user calls moves a source's numbers; at most they are forgotten. */
  lemma ForeignShrinks(st: State, e: Timed<Event>, cid: Cid)
    requires Ascending(st.universes) && Foreign(e.event, cid)
    ensures StreamsShrink(st, Step(st, e).0, cid)
  {
    match e.event
    case BeginRound(data, sync) => SweepShrinks(st, e.now, data, sync, cid);
    case Recv(input, pick) => if input.Done? { OtherPacketShrinks(st, input.value, e.now, pick, cid); }
    case _ =>
  }

  // --------------------------------------------------------- tracking the sender

  ghost predicate Follows(e: Option<Stamp>, count: nat) {
    e.Some? ==> count > 0 && e.value.seqNo == (count - 1) % 0x100
  }

  predicate OnStream(p: P.Packet, kind: Kind, u: u16) {
    if kind.DataNumbers? then OnData(p, u) else OnSync(p, u)
  }

  /** How many packets of the kind have been sent on the universe. */
  function Count(sent: seq<P.Packet>, kind: Kind, u: u16): nat {
    if kind.DataNumbers? then CountData(sent, u) else CountSync(sent, u)
  }

  lemma {:induction false} CountOfMore(sent: seq<P.Packet>, p: P.Packet, kind: Kind, u: u16)
    ensures Count(sent + [p], kind, u) == Count(sent, kind, u) + if OnStream(p, kind, u) then 1 else 0
  {
    CountsOfMore(sent, p, u);
  }

  /** The number a packet is checked by is that of its stream. */
  lemma CheckedIsNumbered(st: State, sent: seq<P.Packet>, p: P.Packet)
    requires Checked(st, p).Some? && NumberedAfter(sent, p)
    ensures
      var k := Checked(st, p).value;
      && k.seqNo == Count(sent, k.kind, k.universe) % 0x100
      && forall kind, u :: OnStream(p, kind, u) <==> kind == k.kind && u == k.universe
  {
  }

  /** Where the receiver tracks a stream, it holds the number of the last packet sent on it. */
  ghost predicate Tracks(st: State, cid: Cid, sent: seq<P.Packet>) {
    forall kind, u: u16 :: Follows(Entry(TableOf(st, kind), cid, u), Count(sent, kind, u))
  }

  lemma ShrinkingKeepsTracking(st: State, st': State, cid: Cid, sent: seq<P.Packet>)
    requires Tracks(st, cid, sent) && StreamsShrink(st, st', cid)
    ensures Tracks(st', cid, sent)
  {
    forall kind, u: u16 ensures Follows(Entry(TableOf(st', kind), cid, u), Count(sent, kind, u)) {
      assert Follows(Entry(TableOf(st, kind), cid, u), Count(sent, kind, u));
    }
  }

  /** The table has no room for the source: it is not there yet, and as many as may be already are. */
  predicate Full(t: Table, limit: Option<nat>, cid: Cid) {
    cid !in t && limit.Some? && |t| >= limit.value
  }

  lemma NextIsOneAhead(count: nat)
    requires count > 0
    ensures SeqDiff(count % 0x100, (count - 1) % 0x100) == 1
  {
  }

  /**
   * The next number after a tracked one is one ahead, across the wrap too, and the first of a stream always passes:
   * a full table is the one thing that can turn it away.
   */
  lemma NextIsAccepted(t: Table, limit: Option<nat>, cid: Cid, u: u16, count: nat, now: nat)
    requires Follows(Entry(t, cid, u), count)
    ensures
      var (t', r) := Judge(t, limit, cid, count % 0x100, u, now);
      && r == (if Full(t, limit, cid) then Err(SourcesExceeded(|t|)) else Ok(Unit))
      && Follows(Entry(t', cid, u), count + 1)
  {
    EntryOfJudge(t, limit, cid, count % 0x100, u, now, cid, u);
    if Entry(t, cid, u).Some? { NextIsOneAhead(count); } else { FirstPacketPasses(count % 0x100); }
  }

  lemma NextFollows(t: Table, limit: Option<nat>, cid: Cid, u: u16, count: nat, now: nat, v: u16,
                        other: nat)
    requires Follows(Entry(t, cid, u), count) && Follows(Entry(t, cid, v), other) && (u == v ==> count == other)
    ensures Follows(Entry(Judge(t, limit, cid, count % 0x100, u, now).0, cid, v), if u == v then other + 1 else other)
  {
    NextIsAccepted(t, limit, cid, u, count, now);
    EntryOfJudge(t, limit, cid, count % 0x100, u, now, cid, v);
  }

  // ------------------------------------------------------------------- one packet

  /**
   * Nothing can be reported in the packet's stead: the receiver announces no timeouts, or nothing in the packet's table
   * has expired. What the round reports is something the code can.
   */
  ghost predicate Kept(st: State, p: P.Packet, now: nat, pick: Pick) {
    st.config.announceTimeout && Checked(st, p).Some? ==>
      NothingExpired(TableOf(st, Checked(st, p).value.kind), now) && AllowedPacketPick(st, p, now, pick)
  }

  /** A table after a sweep that reports nothing. */
  function Swept(st: State, t: Table, now: nat): Table {
    Sweep(t, now, st.config.announceTimeout, None).0
  }

  lemma KeptIsJudged(st: State, p: P.Packet, now: nat, pick: Pick)
    requires Checked(st, p).Some? && Kept(st, p, now, pick)
    ensures
      var k := Checked(st, p).value;
      CheckOf(st, p.cid, k, now, pick)
      == Judge(Swept(st, TableOf(st, k.kind), now), st.config.limit, p.cid, k.seqNo, k.universe, now)
  {
  }

  /** What a receiver must listen to for a packet to be taken in, and whether it must process previews. */
  predicate Wanted(p: P.Packet, us: seq<u16>, processPreview: bool) {
    match p.data
    case DiscoveryPacket(_) => true
    case SyncPacket(s) => s.syncAddr in us
    case DataPacket(d) => (d.preview ==> processPreview) && (d.terminated || d.universe in us)
  }

  /**
   * What a packet must come back with, from the state before it. A live packet is turned away by a full table alone:
   * otherwise an unsynchronised chunk comes out as it was sent, a synchronised one is stored and fails only if it does
   * not merge, and a synchronisation packet hands out what is fresh and waits for its address.
   */
  ghost predicate Passed(st: State, out: Outcome, p: P.Packet, now: nat) {
    match Checked(st, p)
    case Some(k) =>
      var t := Swept(st, TableOf(st, k.kind), now);
      out == if Full(t, st.config.limit, p.cid) then Failed(SourcesExceeded(|t|)) else Accepted(st, p, now)
    case None =>
      match p.data
      case DataPacket(d) =>
        out == if st.config.announceTermination then Failed(UniverseTerminated(p.cid, d.universe)) else Nothing
      case SyncPacket(_) => out == Nothing
      case DiscoveryPacket(d) => out == Nothing || out == Failed(SourceDiscovered(d.name))
  }

  lemma PacketPasses(st: State, p: P.Packet, now: nat, pick: Pick, sent: seq<P.Packet>)
    requires Ascending(st.universes) && Valid(p) && NumberedAfter(sent, p) && Tracks(st, p.cid, sent)
    requires Kept(st, p, now, pick) && Wanted(p, st.universes, st.config.processPreview)
    ensures Passed(st, Handle(st, p, now, pick).1, p, now)
  {
    if Checked(st, p).Some? {
      var k := Checked(st, p).value;
      var t := Swept(st, TableOf(st, k.kind), now);
      CheckedPacket(st, p, now, pick);
      KeptIsJudged(st, p, now, pick);
      CheckedIsNumbered(st, sent, p);
      assert Follows(Entry(TableOf(st, k.kind), p.cid, k.universe), Count(sent, k.kind, k.universe));
      SweepEntriesShrink(TableOf(st, k.kind), now, st.config.announceTimeout, None, p.cid);
      NextIsAccepted(t, st.config.limit, p.cid, k.universe, Count(sent, k.kind, k.universe), now);
    }
  }

  lemma {:induction false} CheckFollows(st: State, p: P.Packet, now: nat, pick: Pick, sent: seq<P.Packet>, kind: Kind,
                        v: u16)
    requires Ascending(st.universes) && NumberedAfter(sent, p) && Tracks(st, p.cid, sent)
    requires Checked(st, p).Some? && Kept(st, p, now, pick)
    ensures Follows(Entry(TableOf(Handle(st, p, now, pick).0, kind), p.cid, v), Count(sent + [p], kind, v))
  {
    var k := Checked(st, p).value;
    var t := TableOf(st, k.kind);
    CheckedPacket(st, p, now, pick);
    CheckedIsNumbered(st, sent, p);
    CountOfMore(sent, p, kind, v);
    assert Follows(Entry(TableOf(st, kind), p.cid, v), Count(sent, kind, v));
    if kind == k.kind {
      KeptIsJudged(st, p, now, pick);
      SweepEntriesShrink(t, now, st.config.announceTimeout, None, p.cid);
      assert Follows(Entry(t, p.cid, k.universe), Count(sent, kind, k.universe));
      NextFollows(Swept(st, t, now), st.config.limit, p.cid, k.universe, Count(sent, kind, k.universe), now, v,
                  Count(sent, kind, v));
    }
  }

  lemma {:induction false} UncheckedFollows(st: State, p: P.Packet, now: nat, pick: Pick, sent: seq<P.Packet>,
                        kind: Kind, v: u16)
    requires Ascending(st.universes) && Tracks(st, p.cid, sent) && Checked(st, p).None?
    requires Wanted(p, st.universes, st.config.processPreview)
    ensures Follows(Entry(TableOf(Handle(st, p, now, pick).0, kind), p.cid, v), Count(sent + [p], kind, v))
  {
    UncheckedPacket(st, p, now, pick);
    CountOfMore(sent, p, kind, v);
    assert Follows(Entry(TableOf(st, kind), p.cid, v), Count(sent, kind, v));
    if Ends(st, p) {
      EntryOfRemove(st.data, p.cid, p.data.data.universe, p.cid, v);
      EntryOfRemove(st.sync, p.cid, p.data.data.universe, p.cid, v);
    }
  }

  /** The next packet of a tracked sender passes, and the sender stays tracked. */
  lemma OwnPacketPasses(st: State, p: P.Packet, now: nat, pick: Pick, sent: seq<P.Packet>)
    requires Ascending(st.universes) && Valid(p) && NumberedAfter(sent, p) && Tracks(st, p.cid, sent)
    requires Kept(st, p, now, pick) && Wanted(p, st.universes, st.config.processPreview)
    ensures
      var (st', out) := Handle(st, p, now, pick);
      Tracks(st', p.cid, sent + [p]) && Passed(st, out, p, now)
  {
    PacketPasses(st, p, now, pick, sent);
    var st' := Handle(st, p, now, pick).0;
    forall kind, v: u16 ensures Follows(Entry(TableOf(st', kind), p.cid, v), Count(sent + [p], kind, v)) {
      if Checked(st, p).Some? {
        CheckFollows(st, p, now, pick, sent, kind, v);
      } else {
        UncheckedFollows(st, p, now, pick, sent, kind, v);
      }
    }
  }

  // ------------------------------------------------------------ whole deliveries

  ghost predicate ValidLog(log: seq<P.Packet>, cid: Cid) {
    Numbered(log) && forall i | 0 <= i < |log| :: Valid(log[i]) && log[i].cid == cid
  }

  /** The log's packets arrive in order, from the `k`-th on. */
  ghost predicate InOrder(a: seq<Arrival>, k: nat) {
    forall i | 0 <= i < |Indices(a)| :: Indices(a)[i] == k + i
  }

  /** The receiver takes in every packet of the log when it comes. */
  ghost predicate HearsAll(st: State, log: seq<P.Packet>, a: seq<Arrival>)
    requires Ascending(st.universes) && InLog(a, log)
    decreases |a|
  {
    a == [] ||
    (StepKeepsConfig(st, EventOf(a[0], log));
     && (a[0].Own? ==> Wanted(log[a[0].index], st.universes, st.config.processPreview))
     && HearsAll(Step(st, EventOf(a[0], log)).0, log, a[1..]))
  }

  /** No packet of the log is lost to the report of a timeout. */
  ghost predicate KeepsAll(st: State, log: seq<P.Packet>, a: seq<Arrival>)
    requires Ascending(st.universes) && InLog(a, log)
    decreases |a|
  {
    a == [] ||
    (StepKeepsConfig(st, EventOf(a[0], log));
     && (a[0].Own? ==> Kept(st, log[a[0].index], a[0].now, a[0].pick))
     && KeepsAll(Step(st, EventOf(a[0], log)).0, log, a[1..]))
  }

  /** Every packet of the log comes back with what it must. */
  ghost predicate AllPass(st: State, log: seq<P.Packet>, a: seq<Arrival>)
    requires Ascending(st.universes) && InLog(a, log)
    decreases |a|
  {
    a == [] ||
    (StepKeepsConfig(st, EventOf(a[0], log));
     var (st', out) := Step(st, EventOf(a[0], log));
     && (a[0].Own? ==> Passed(st, out, log[a[0].index], a[0].now))
     && AllPass(st', log, a[1..]))
  }

  ghost predicate Undisturbed(a: seq<Arrival>, cid: Cid) {
    forall i | 0 <= i < |a| && a[i].Other? :: Foreign(a[i].event, cid)
  }

  lemma OwnArrivalPasses(st: State, log: seq<P.Packet>, k: nat, now: nat, pick: Pick, cid: Cid)
    requires Ascending(st.universes) && ValidLog(log, cid) && k < |log| && Tracks(st, cid, log[..k])
    requires Wanted(log[k], st.universes, st.config.processPreview) && Kept(st, log[k], now, pick)
    ensures
      var (st', out) := Step(st, EventOf(Own(now, k, pick), log));
      Tracks(st', cid, log[..k + 1]) && Passed(st, out, log[k], now)
  {
    assert NumberedAfter(log[..k], log[k]);
    OwnPacketPasses(st, log[k], now, pick, log[..k]);
    assert log[..k + 1] == log[..k] + [log[k]];
  }

  lemma OtherArrivalKeeps(st: State, log: seq<P.Packet>, k: nat, now: nat, event: Event, cid: Cid)
    requires Ascending(st.universes) && Foreign(event, cid) && k <= |log| && Tracks(st, cid, log[..k])
    ensures Tracks(Step(st, EventOf(Other(now, event), log)).0, cid, log[..k])
  {
    ForeignShrinks(st, At(now, event), cid);
    ShrinkingKeepsTracking(st, Step(st, At(now, event)).0, cid, log[..k]);
  }

  lemma ArrivalPasses(st: State, log: seq<P.Packet>, k: nat, x: Arrival, cid: Cid)
    requires Ascending(st.universes) && ValidLog(log, cid) && k <= |log| && Tracks(st, cid, log[..k])
    requires x.Own? ==> x.index == k < |log| && Kept(st, log[k], x.now, x.pick)
    requires x.Own? ==> Wanted(log[k], st.universes, st.config.processPreview)
    requires x.Other? ==> Foreign(x.event, cid)
    ensures
      var (st', out) := Step(st, EventOf(x, log));
      && (x.Own? ==> Tracks(st', cid, log[..k + 1]) && Passed(st, out, log[k], x.now))
      && (x.Other? ==> Tracks(st', cid, log[..k]))
  {
    match x
    case Own(now, _, pick) => OwnArrivalPasses(st, log, k, now, pick, cid);
    case Other(now, event) => OtherArrivalKeeps(st, log, k, now, event, cid);
  }

  lemma {:induction false} TailInOrder(a: seq<Arrival>, k: nat, log: seq<P.Packet>, cid: Cid)
    requires a != [] && InLog(a, log) && InOrder(a, k) && Undisturbed(a, cid)
    ensures InLog(a[1..], log) && Undisturbed(a[1..], cid)
    ensures a[0].Own? ==> a[0].index == k && InOrder(a[1..], k + 1) && |Indices(a)| == 1 + |Indices(a[1..])|
    ensures a[0].Other? ==> InOrder(a[1..], k) && |Indices(a)| == |Indices(a[1..])|
  {
    if a[0].Own? {
      assert Indices(a) == [a[0].index] + Indices(a[1..]) && Indices(a)[0] == k;
      assert forall i | 0 <= i < |Indices(a[1..])| :: Indices(a[1..])[i] == Indices(a)[i + 1];
    } else {
      assert Indices(a) == Indices(a[1..]);
    }
  }

  lemma {:induction false} InOrderPasses(st: State, log: seq<P.Packet>, k: nat, a: seq<Arrival>, cid: Cid,
                        n: nat)
    requires Ascending(st.universes) && ValidLog(log, cid) && InLog(a, log) && k + |Indices(a)| == n <= |log|
    requires InOrder(a, k) && Undisturbed(a, cid) && HearsAll(st, log, a) && KeepsAll(st, log, a)
    requires Tracks(st, cid, log[..k])
    ensures AllPass(st, log, a) && Tracks(Final(st, log, a), cid, log[..n])
    decreases |a|
  {
    if a != [] {
      TailInOrder(a, k, log, cid);
      var st' := Step(st, EventOf(a[0], log)).0;
      StepKeepsConfig(st, EventOf(a[0], log));
      ArrivalPasses(st, log, k, a[0], cid);
      InOrderPasses(st', log, if a[0].Own? then k + 1 else k, a[1..], cid, n);
    }
  }

  /**
   * Everything a sender has put on the wire in any run, delivered in order, at any times, among any traffic of other
   * sources, sweeps and calls, to a receiver with any source limit and any merge function: no packet is ever taken for
   * out of sequence. Each unsynchronised chunk comes out the moment it arrives, exactly as it was sent, unless the
   * source is new to a full table. What each packet comes back with is stated in Passed.
   */
  lemma {:induction false} LosslessDelivery(cid: Cid, name: Bytes, script: seq<bool>, ops: seq<Sender.Op>,
                        config: Config, a: seq<Arrival>)
    requires ValidName(name) && AllClean(Sender.Initial(cid, name, script), ops)
    requires forall i | 0 <= i < |ops| :: WireSafe(ops[i])
    requires
      var log := SR.After(Sender.Initial(cid, name, script), ops).sent;
      && InLog(a, log) && |Indices(a)| <= |log| && InOrder(a, 0) && Undisturbed(a, cid)
      && HearsAll(Initial(config), log, a) && KeepsAll(Initial(config), log, a)
    ensures
      var log := SR.After(Sender.Initial(cid, name, script), ops).sent;
      && (forall i | 0 <= i < |log| :: Valid(log[i]) && Datagram(Encode(log[i])) == Done(log[i]))
      && AllPass(Initial(config), log, a)
  {
    SentLog(cid, name, script, ops);
    var log := SR.After(Sender.Initial(cid, name, script), ops).sent;
    forall i | 0 <= i < |log| ensures Datagram(Encode(log[i])) == Done(log[i]) { DatagramIsPacket(log[i]); }
    assert log[..0] == [];
    InOrderPasses(Initial(config), log, 0, a, cid, |Indices(a)|);
  }

  // --------------------------------------------- a receiver that keeps listening

  ghost predicate ListensOn(st: State, st': State) {
    forall u | u in st.universes :: u in st'.universes
  }

  lemma StoringSparesListening(st: State, d: DmxData)
    ensures StoreWaiting(st, d).0.universes == st.universes
  {
  }

  lemma CallKeepsListening(st: State, e: Timed<Event>)
    requires Ascending(st.universes) && !e.event.Recv? && !e.event.Mute?
    ensures ListensOn(st, Step(st, e).0)
  {
    match e.event
    case BeginRound(data, sync) => BeginningReports(st, e.now, data, sync);
    case Listen(us) => ListensIff(st.universes, us);
    case _ =>
  }

  /** Only muting stops a receiver listening. */
  lemma StepKeepsListening(st: State, e: Timed<Event>)
    requires Ascending(st.universes) && !e.event.Mute?
    ensures ListensOn(st, Step(st, e).0)
  {
    match e.event
    case Recv(input, pick) => if input.Done? { HandlingSpares(st, input.value, e.now, pick); }
    case _ => CallKeepsListening(st, e);
  }

  ghost predicate NeverMutes(a: seq<Arrival>) {
    forall i | 0 <= i < |a| && a[i].Other? :: !a[i].event.Mute?
  }

  /** A receiver that announces no timeouts loses nothing to their reports. */
  lemma {:induction false} SilentKeepsAll(st: State, log: seq<P.Packet>, a: seq<Arrival>)
    requires Ascending(st.universes) && InLog(a, log) && !st.config.announceTimeout
    ensures KeepsAll(st, log, a)
    decreases |a|
  {
    if a != [] {
      StepKeepsConfig(st, EventOf(a[0], log));
      SilentKeepsAll(Step(st, EventOf(a[0], log)).0, log, a[1..]);
    }
  }

  lemma {:induction false} ListeningHearsAll(st: State, log: seq<P.Packet>, a: seq<Arrival>)
    requires Ascending(st.universes) && InLog(a, log) && NeverMutes(a)
    requires forall i | 0 <= i < |log| :: Wanted(log[i], st.universes, st.config.processPreview)
    ensures HearsAll(st, log, a)
    decreases |a|
  {
    if a != [] {
      var e := EventOf(a[0], log);
      var st' := Step(st, e).0;
      StepKeepsConfig(st, e);
      StepKeepsListening(st, e);
      forall i | 0 <= i < |log| ensures Wanted(log[i], st'.universes, st.config.processPreview) {
        assert Wanted(log[i], st.universes, st.config.processPreview);
      }
      ListeningHearsAll(st', log, a[1..]);
    }
  }

  /**
   * The same for a new receiver that starts by listening to the universes the sender uses and never mutes one: it
   * misses nothing from the first packet on.
   */
  lemma {:induction false} ListenerLosesNothing(cid: Cid, name: Bytes, script: seq<bool>, ops: seq<Sender.Op>,
                        config: Config, start: nat, us: seq<u16>, a: seq<Arrival>)
    requires ValidName(name) && AllClean(Sender.Initial(cid, name, script), ops)
    requires forall i | 0 <= i < |ops| :: WireSafe(ops[i])
    requires (forall u | u in us :: InRange(u)) && NeverMutes(a)
    requires
      var log := SR.After(Sender.Initial(cid, name, script), ops).sent;
      && InLog(a, log) && |Indices(a)| <= |log| && InOrder(a, 0) && Undisturbed(a, cid)
      && (forall i | 0 <= i < |log| :: Wanted(log[i], us, config.processPreview))
      && var st := Step(Initial(config), At(start, Listen(us))).0;
         Ascending(st.universes) && (config.announceTimeout ==> KeepsAll(st, log, a))
    ensures
      var log := SR.After(Sender.Initial(cid, name, script), ops).sent;
      var st := Step(Initial(config), At(start, Listen(us))).0;
      Ascending(st.universes) && AllPass(st, log, a)
  {
    SentLog(cid, name, script, ops);
    var log := SR.After(Sender.Initial(cid, name, script), ops).sent;
    var st := Step(Initial(config), At(start, Listen(us))).0;
    ListensIff([E131_DISCOVERY_UNIVERSE], us);
    forall i | 0 <= i < |log| ensures Wanted(log[i], st.universes, config.processPreview) {
      assert Wanted(log[i], us, config.processPreview);
    }
    ListeningHearsAll(st, log, a);
    if !config.announceTimeout { SilentKeepsAll(st, log, a); }
    assert log[..0] == [];
    InOrderPasses(st, log, 0, a, cid, |Indices(a)|);
  }
}
