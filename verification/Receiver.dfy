/** The receiver as a state machine: what each packet and each call does to its whole state. */
module Receiver {
  import opened Types
  import opened Packet
  import opened Merge
  import opened S = Sequencing
  import W = Waiting
  import D = Discovery
  import Codec

  datatype Config = Config(
    limit: Option<nat>, processPreview: bool, announceDiscovery: bool, announceTermination: bool,
    announceTimeout: bool, merge: MergeFn)

  datatype State = State(
    config: Config, universes: seq<u16>, waiting: W.Buffer, discovered: seq<D.Source>, partial: seq<D.Source>,
    data: Table, sync: Table)

  /** What one call hands back. The order in which a synchronisation packet's data comes out is not fixed. */
  datatype Outcome = Nothing | Data(items: set<DmxData>) | Failed(error: SacnError) | Crashed

  // ---------------------------------------------------------------- handlers

  function ToDmx(cid: Cid, d: DataFraming, now: nat): DmxData {
    DmxData(d.universe, d.values, d.syncAddr, d.priority, Some(cid), d.preview, now)
  }

  function TerminateStream(st: State, cid: Cid, u: u16): State {
    var (data, sync) := ForgetStream(st.data, st.sync, cid, u);
    st.(data := data, sync := sync, discovered := D.TerminateDiscovered(st.discovered, cid, u))
  }

  function StoreWaiting(st: State, d: DmxData): (State, Outcome) {
    var (w, r) := W.Store(st.waiting, d, st.config.merge);
    (st.(waiting := w), if r.Err? then Failed(r.error) else Nothing)
  }

  function OutOfRange(us: seq<u16>): Option<u16> {
    if us == [] then None else if !InRange(us[0]) then Some(us[0]) else OutOfRange(us[1..])
  }

  function InsertAll(universes: seq<u16>, us: seq<u16>): (r: seq<u16>)
    requires Ascending(universes)
    ensures Ascending(r)
    decreases |us|
  {
    if us == [] then universes
    else
      InsertKeepsOrder(universes, us[0]);
      InsertAll(Insert(universes, us[0]), us[1..])
  }

  /** Listens to every one of the universes, or to none when one is illegal. */
  function ListenTo(universes: seq<u16>, us: seq<u16>): (seq<u16>, Result<Unit>)
    requires Ascending(universes)
  {
    match OutOfRange(us)
    case Some(u) => (universes, Err(IllegalUniverse(u)))
    case None => (InsertAll(universes, us), Ok(Unit))
  }

  function HandleData(st: State, cid: Cid, d: DataFraming, now: nat, pick: Pick): (State, Outcome)
    requires Ascending(st.universes)
  {
    if d.preview && !st.config.processPreview then (st, Nothing)
    else if d.terminated then
      (TerminateStream(st, cid, d.universe),
       if st.config.announceTermination then Failed(UniverseTerminated(cid, d.universe)) else Nothing)
    else if d.universe !in st.universes then (st, Nothing)
    else
      var (t, r) := CheckSeq(st.data, st.config.limit, cid, d.seqNo, d.universe, now, st.config.announceTimeout, pick);
      var st1 := st.(data := t);
      if r.Err? then (st1, Failed(r.error))
      else if d.syncAddr == E131_NO_SYNC_ADDR then
        (st1.(waiting := st.waiting - {d.universe}), Data({ToDmx(cid, d, now)}))
      else
        var (us, r') := ListenTo(st.universes, [d.syncAddr]);
        if r'.Err? then (st1, Failed(r'.error)) else StoreWaiting(st1.(universes := us), ToDmx(cid, d, now))
  }

  function HandleSync(st: State, cid: Cid, s: SyncFraming, now: nat, pick: Pick): (State, Outcome) {
    if s.syncAddr !in st.universes then (st, Nothing)
    else
      var (t, r) := CheckSeq(st.sync, st.config.limit, cid, s.seqNo, s.syncAddr, now, st.config.announceTimeout, pick);
      var st1 := st.(sync := t);
      if r.Err? then (st1, Failed(r.error))
      else
        var items := W.Released(st.waiting, s.syncAddr, now);
        (st1.(waiting := W.Unreleased(st.waiting, s.syncAddr)), if items == {} then Nothing else Data(items))
  }

  function HandleDiscovery(st: State, cid: Cid, d: DiscoveryFraming, now: nat): (State, Outcome) {
    var (disc, part, name) := D.HandlePage(st.discovered, st.partial, cid, d, now);
    (st.(discovered := disc, partial := part),
     if name.Some? && st.config.announceDiscovery then Failed(SourceDiscovered(name.value)) else Nothing)
  }

  function Handle(st: State, p: Packet, now: nat, pick: Pick): (State, Outcome)
    requires Ascending(st.universes)
  {
    match p.data
    case DataPacket(d) => HandleData(st, p.cid, d, now, pick)
    case SyncPacket(s) => HandleSync(st, p.cid, s, now, pick)
    case DiscoveryPacket(u) => HandleDiscovery(st, p.cid, u, now)
  }

  // ---------------------------------------------------------- sequence numbers

  /** A receiver keeps two kinds of numbers, each in its own table. */
  datatype Kind = DataNumbers | SyncNumbers

  function Other(kind: Kind): Kind { if kind.DataNumbers? then SyncNumbers else DataNumbers }

  function TableOf(st: State, kind: Kind): Table { if kind.DataNumbers? then st.data else st.sync }

  function WithTable(st: State, kind: Kind, t: Table): State {
    if kind.DataNumbers? then st.(data := t) else st.(sync := t)
  }

  /** A check of a packet's number: against which table, on which universe. */
  datatype Check = Check(kind: Kind, universe: u16, seqNo: byte)

  /** The check that a packet has to go through, if the receiver takes it in as a live one. */
  function Checked(st: State, p: Packet): Option<Check> {
    match p.data
    case DataPacket(d) =>
      if (d.preview ==> st.config.processPreview) && !d.terminated && d.universe in st.universes
      then Some(Check(DataNumbers, d.universe, d.seqNo)) else None
    case SyncPacket(s) =>
      if s.syncAddr in st.universes then Some(Check(SyncNumbers, s.syncAddr, s.seqNo)) else None
    case DiscoveryPacket(_) => None
  }

  function CheckOf(st: State, c: Cid, k: Check, now: nat, pick: Pick): (Table, Result<Unit>) {
    CheckSeq(TableOf(st, k.kind), st.config.limit, c, k.seqNo, k.universe, now, st.config.announceTimeout, pick)
  }

  /**
   * What must come of a live packet that passes its check: an unsynchronised chunk comes out with each of its fields,
   * its source and the time; a synchronised one waits, unless something waits already that it does not merge with; a
   * synchronisation packet brings out what waits for its address and is under 2.5 s old.
   */
  function Accepted(st: State, p: Packet, now: nat): Outcome {
    match p.data
    case DataPacket(d) =>
      var item := DmxData(d.universe, d.values, d.syncAddr, d.priority, Some(p.cid), d.preview, now);
      if d.syncAddr == 0 then Data({item})
      else if d.universe in st.waiting && st.config.merge(st.waiting[d.universe], item).Err?
      then Failed(st.config.merge(st.waiting[d.universe], item).error)
      else Nothing
    case SyncPacket(s) =>
      var items :=
        set u | u in st.waiting && st.waiting[u].syncUni == s.syncAddr && now - st.waiting[u].recvTime < 2500
            :: st.waiting[u];
      if items == {} then Nothing else Data(items)
    case DiscoveryPacket(_) => Nothing
  }

  /** The packet's payload as it is handed out. */
  ghost predicate IsItem(x: DmxData, cid: Cid, d: DataFraming, now: nat) {
    && x.universe == d.universe && x.values == d.values && x.syncUni == d.syncAddr && x.priority == d.priority
    && x.srcCid == Some(cid) && x.preview == d.preview && x.recvTime == now
  }

  /** The check decides alone whether a live packet is turned away, and moves its own table only. */
  lemma CheckedPacket(st: State, p: Packet, now: nat, pick: Pick)
    requires Ascending(st.universes) && Checked(st, p).Some?
    ensures
      var k := Checked(st, p).value;
      var ((t, r), (st', out)) := (CheckOf(st, p.cid, k, now, pick), Handle(st, p, now, pick));
      && TableOf(st', k.kind) == t && TableOf(st', Other(k.kind)) == TableOf(st, Other(k.kind))
      && (r.Err? ==> out == Failed(r.error) && st' == WithTable(st, k.kind, t))
      && (r.Ok? && Valid(p) ==> out == Accepted(st, p, now))
  {
    match p.data
    case DataPacket(d) => CheckedData(st, p, d, now, pick);
    case SyncPacket(s) =>
      var (st', out) := Handle(st, p, now, pick);
      assert (st', out) == HandleSync(st, p.cid, s, now, pick) && st'.data == st.data;
  }

  lemma CheckedData(st: State, p: Packet, d: DataFraming, now: nat, pick: Pick)
    requires Ascending(st.universes) && p.data == DataPacket(d) && Checked(st, p).Some?
    ensures
      var k := Checked(st, p).value;
      var ((t, r), (st', out)) := (CheckOf(st, p.cid, k, now, pick), HandleData(st, p.cid, d, now, pick));
      && st'.data == t && st'.sync == st.sync
      && (r.Err? ==> out == Failed(r.error) && st' == st.(data := t))
      && (r.Ok? && Valid(p) ==> out == Accepted(st, p, now))
  {
    var (t, r) := CheckOf(st, p.cid, Checked(st, p).value, now, pick);
    if r.Ok? && d.syncAddr != E131_NO_SYNC_ADDR {
      var us := ListenTo(st.universes, [d.syncAddr]).0;
      StoringSparesTables(st, st.(data := t, universes := us), ToDmx(p.cid, d, now));
      if InDataRange(d.syncAddr) { ListenToOne(st.universes, d.syncAddr); }
    }
  }

  lemma StoringSparesTables(st: State, st1: State, d: DmxData)
    requires st1.waiting == st.waiting && st1.config == st.config
    ensures
      var failed := d.universe in st.waiting && st.config.merge(st.waiting[d.universe], d).Err?;
      StoreWaiting(st1, d).1
      == if failed then Failed(st.config.merge(st.waiting[d.universe], d).error) else Nothing
    ensures StoreWaiting(st1, d).0.data == st1.data && StoreWaiting(st1, d).0.sync == st1.sync
  {
  }

  lemma StoringSparesRest(st: State, d: DmxData)
    ensures StoreWaiting(st, d).0 == st.(waiting := StoreWaiting(st, d).0.waiting)
  {
  }

  /** The packet ends a stream. */
  predicate Ends(st: State, p: Packet) {
    p.data.DataPacket? && p.data.data.terminated && (p.data.data.preview ==> st.config.processPreview)
  }

  /** What else handling a packet leaves alone: the universes but for a new synchronisation address, and the sources. */
  lemma HandlingSpares(st: State, p: Packet, now: nat, pick: Pick)
    requires Ascending(st.universes)
    ensures
      var st' := Handle(st, p, now, pick).0;
      && st'.config == st.config
      && (!p.data.DiscoveryPacket? ==> st'.partial == st.partial)
      && (!p.data.DiscoveryPacket? && !Ends(st, p) ==> st'.discovered == st.discovered)
      && (p.data.DiscoveryPacket? ==> st'.waiting == st.waiting)
      && forall u: u16 :: u in st'.universes <==> u in st.universes || u == HeardOf(st, p, now, pick)
  {
    match p.data
    case DataPacket(d) => DataSpares(st, p, d, now, pick);
    case SyncPacket(s) =>
      var st' := HandleSync(st, p.cid, s, now, pick).0;
      assert st'.universes == st.universes && st'.partial == st.partial && st'.discovered == st.discovered;
    case DiscoveryPacket(d) => assert HandleDiscovery(st, p.cid, d, now).0.universes == st.universes;
  }

  /** The synchronisation address that a packet makes the receiver listen to, or one it listens to already, if any. */
  ghost function HeardOf(st: State, p: Packet, now: nat, pick: Pick): int {
    if p.data.DataPacket? && Checked(st, p).Some? && CheckOf(st, p.cid, Checked(st, p).value, now, pick).1.Ok?
       && InRange(p.data.data.syncAddr)
    then p.data.data.syncAddr else -1
  }

  lemma DataSpares(st: State, p: Packet, d: DataFraming, now: nat, pick: Pick)
    requires Ascending(st.universes) && p.data == DataPacket(d)
    ensures
      var st' := HandleData(st, p.cid, d, now, pick).0;
      && st'.config == st.config && st'.partial == st.partial && (!Ends(st, p) ==> st'.discovered == st.discovered)
      && forall u: u16 :: u in st'.universes <==> u in st.universes || u == HeardOf(st, p, now, pick)
  {
    if Checked(st, p).Some? {
      LiveDataSpares(st, p, d, now, pick);
    } else if d.terminated {
      assert TerminateStream(st, p.cid, d.universe).partial == st.partial;
    }
  }

  lemma LiveDataSpares(st: State, p: Packet, d: DataFraming, now: nat, pick: Pick)
    requires Ascending(st.universes) && p.data == DataPacket(d) && Checked(st, p).Some?
    ensures
      var st' := HandleData(st, p.cid, d, now, pick).0;
      && st' == st.(data := st'.data, waiting := st'.waiting, universes := st'.universes)
      && forall u: u16 :: u in st'.universes <==> u in st.universes || u == HeardOf(st, p, now, pick)
  {
    var (t, r) := CheckOf(st, p.cid, Checked(st, p).value, now, pick);
    if r.Ok? && InRange(d.syncAddr) {
      ListenToOne(st.universes, d.syncAddr);
      InsertKeepsOrder(st.universes, d.syncAddr);
      StoringSparesRest(st.(data := t, universes := Insert(st.universes, d.syncAddr)), ToDmx(p.cid, d, now));
    } else {
      OutOfRangeIff([d.syncAddr]);
      assert d.syncAddr in [d.syncAddr];
    }
  }

  /** Of the packets that go through no check, only a termination moves the tables. */
  lemma UncheckedPacket(st: State, p: Packet, now: nat, pick: Pick)
    requires Ascending(st.universes) && Checked(st, p).None?
    ensures
      var st' := Handle(st, p, now, pick).0;
      (st'.data, st'.sync)
      == if Ends(st, p) then ForgetStream(st.data, st.sync, p.cid, p.data.data.universe) else (st.data, st.sync)
  {
    match p.data
    case DataPacket(d) =>
    case SyncPacket(s) =>
    case DiscoveryPacket(u) => assert Handle(st, p, now, pick).0.data == st.data;
  }

  // ----------------------------------------------------------------- receiving

  /** A datagram read into the zeroed receive buffer. */
  function Buffered(dgram: Bytes): (r: Bytes)
    ensures |r| == RCV_BUF_DEFAULT_SIZE
  {
    if |dgram| >= RCV_BUF_DEFAULT_SIZE then dgram[..RCV_BUF_DEFAULT_SIZE]
    else dgram + Zeros(RCV_BUF_DEFAULT_SIZE - |dgram|)
  }

  /** The timeouts reported, if any, by the sweeps of one round and by the packet's own check. */
  datatype Picks = Picks(data: Pick, sync: Pick, packet: Pick)

  /** The sweeps at the start of a round; a reported timeout ends the round. */
  function SweepAll(st: State, now: nat, data: Pick, sync: Pick): (State, Result<Unit>) {
    var announce := st.config.announceTimeout;
    var (t, r) := Sweep(st.data, now, announce, data);
    if r.Err? then (st.(data := t), r)
    else
      var (t', r') := Sweep(st.sync, now, announce, sync);
      if r'.Err? then (st.(data := t, sync := t'), r')
      else (st.(data := t, sync := t', waiting := W.DropStale(st.waiting, now)), r')
  }

  /** A datagram as the receiver sees it: parsed out of the zeroed buffer it was read into. */
  function Datagram(dgram: Bytes): Parsed<Packet> { Parse(Buffered(dgram)) }

  function HandleInput(st: State, input: Parsed<Packet>, now: nat, pick: Pick): (State, Outcome)
    requires Ascending(st.universes)
  {
    match input
    case Fail(e) => (st, Failed(ParsePack(e)))
    case Panic => (st, Crashed)
    case Done(p) => Handle(st, p, now, pick)
  }

  /**
   * What happens to a receiver. A round of receiving begins with the sweeps and, unless these report a timeout, waits
   * for a datagram, which comes at its own later time.
   */
  datatype Event =
    | BeginRound(data: Pick, sync: Pick)
    | Recv(input: Parsed<Packet>, pick: Pick)
    | Listen(us: seq<u16>)
    | Mute(u: u16)
    | ResetSources
    | ClearAllWaiting
    | ClearWaiting(u: u16)
    | RemoveExpired

  function Step(st: State, e: Timed<Event>): (State, Outcome)
    requires Ascending(st.universes)
  {
    match e.event
    case BeginRound(data, sync) =>
      var (st', r) := SweepAll(st, e.now, data, sync);
      (st', if r.Err? then Failed(r.error) else Nothing)
    case Recv(input, pick) => HandleInput(st, input, e.now, pick)
    case Listen(us) =>
      var (l, r) := ListenTo(st.universes, us);
      (st.(universes := l), if r.Err? then Failed(r.error) else Nothing)
    case Mute(u) =>
      if !InRange(u) then (st, Failed(IllegalUniverse(u)))
      else if u !in st.universes then (st, Failed(UniverseNotFound(u)))
      else (st.(universes := Remove(st.universes, u)), Nothing)
    case ResetSources => (st.(data := map[], sync := map[], partial := [], discovered := []), Nothing)
    case ClearAllWaiting => (st.(waiting := map[]), Nothing)
    case ClearWaiting(u) => (st.(waiting := st.waiting - {u}), Nothing)
    case RemoveExpired =>
      (st.(partial := D.DropExpired(st.partial, e.now), discovered := D.DropExpired(st.discovered, e.now)), Nothing)
  }

  // ------------------------------------------------------------- what may happen

  /** What a packet's own check may report when timeouts are announced: see Sequencing.AllowedPick. */
  ghost predicate AllowedPacketPick(st: State, p: Packet, now: nat, pick: Pick) {
    Checked(st, p).Some? ==> AllowedPick(TableOf(st, Checked(st, p).value.kind), now, pick)
  }

  /** What the sweeps may report; one that reports nothing leaves its table as it was. */
  ghost predicate AllowedSweeps(st: State, now: nat, data: Pick, sync: Pick) {
    AllowedPick(st.data, now, data) && (data.None? ==> AllowedPick(st.sync, now, sync))
  }

  /** What an event reports, if the receiver announces timeouts, is something the code can report. */
  ghost predicate Allowed(st: State, e: Timed<Event>) {
    st.config.announceTimeout ==>
      && (e.event.BeginRound? ==> AllowedSweeps(st, e.now, e.event.data, e.event.sync))
      && (e.event.Recv? && e.event.input.Done? ==> AllowedPacketPick(st, e.event.input.value, e.now, e.event.pick))
  }

  /** Whatever a datagram parses to is a valid packet; nothing else is asked of what comes in. */
  ghost predicate Sound(e: Event) {
    e.Recv? && e.input.Done? ==> Valid(e.input.value)
  }

  lemma DatagramsAreSound(dgram: Bytes, pick: Pick)
    ensures Sound(Recv(Datagram(dgram), pick))
  {
    if Datagram(dgram).Done? { Codec.ParsedIsValid(Buffered(dgram)); }
  }

  /** One round: the sweeps at `swept` and, unless they end it, the datagram that comes at `now`, if one does. */
  function Round(st: State, swept: nat, now: nat, input: Option<Parsed<Packet>>, picks: Picks): (State, Outcome)
    requires Ascending(st.universes)
  {
    var (st1, r) := SweepAll(st, swept, picks.data, picks.sync);
    if r.Err? then (st1, Failed(r.error))
    else if input.None? then (st1, Nothing)
    else HandleInput(st1, input.value, now, picks.packet)
  }

  /** What one round may report. */
  ghost predicate AllowedPicks(st: State, swept: nat, now: nat, input: Option<Parsed<Packet>>, picks: Picks) {
    st.config.announceTimeout ==>
      && AllowedSweeps(st, swept, picks.data, picks.sync)
      && (picks.data.None? && picks.sync.None? && input.Some? && input.value.Done? ==>
            AllowedPacketPick(st, input.value.value, now, picks.packet))
  }

  /** The events of a round. */
  function RoundEvents(st: State, swept: nat, now: nat, input: Option<Parsed<Packet>>, picks: Picks)
    : (r: seq<Timed<Event>>)
  {
    [At(swept, BeginRound(picks.data, picks.sync))]
    + if input.Some? && SweepAll(st, swept, picks.data, picks.sync).1.Ok?
      then [At(now, Recv(input.value, picks.packet))] else []
  }

  /** A round is a run of its one or two events, and what it may report is what they may. */
  lemma {:induction false} RoundIsRun(st: State, swept: nat, now: nat, input: Option<Parsed<Packet>>, picks: Picks)
    requires Ascending(st.universes)
    ensures
      var (evs, (st', out)) :=
        (RoundEvents(st, swept, now, input, picks), Round(st, swept, now, input, picks));
      && After(st, evs) == st' && Step(After(st, evs[..|evs| - 1]), evs[|evs| - 1]).1 == out
      && (AllowedPicks(st, swept, now, input, picks) ==> AllowedRun(st, evs))
  {
    var evs := RoundEvents(st, swept, now, input, picks);
    RunOfOne(st, evs[0]);
    if |evs| == 2 {
      assert evs == [evs[0], evs[1]] && evs[..1] == [evs[0]];
      RunOfTwo(st, evs[0], evs[1]);
      if st.config.announceTimeout { SilentSweepsKeep(st, swept, picks.data, picks.sync); }
    } else {
      assert evs == [evs[0]] && evs[..0] == [];
    }
  }

  lemma {:induction false} RunOfOne(st: State, e: Timed<Event>)
    requires Ascending(st.universes)
    ensures After(st, [e]) == Step(st, e).0 && (AllowedRun(st, [e]) <==> Allowed(st, e))
  {
    StepKeepsConfig(st, e);
    assert [e][1..] == [];
  }

  lemma {:induction false} RunOfTwo(st: State, a: Timed<Event>, b: Timed<Event>)
    requires Ascending(st.universes)
    ensures SameConfig(st, Step(st, a).0) && After(st, [a, b]) == Step(Step(st, a).0, b).0
    ensures AllowedRun(st, [a, b]) <==> Allowed(st, a) && Allowed(Step(st, a).0, b)
  {
    StepKeepsConfig(st, a);
    assert [a, b][1..] == [b];
    RunOfOne(Step(st, a).0, b);
  }

  lemma SilentSweepsKeep(st: State, now: nat, data: Pick, sync: Pick)
    requires st.config.announceTimeout && SweepAll(st, now, data, sync).1.Ok?
    ensures data.None? && sync.None? && SweepAll(st, now, data, sync).0 == st.(waiting := W.DropStale(st.waiting, now))
  {
  }

  // -------------------------------------------------------------------- calls

  /** Muting ends listening to that universe and to no other, or says why it cannot. */
  lemma MuteIff(st: State, now: nat, u: u16)
    requires Ascending(st.universes)
    ensures
      var (st', out) := Step(st, At(now, Mute(u)));
      && st' == st.(universes := st'.universes) && Ascending(st'.universes)
      && (forall v :: v in st'.universes <==> v in st.universes && (v == u ==> !InRange(u)))
      && out == if !InRange(u) then Failed(IllegalUniverse(u))
                else if u !in st.universes then Failed(UniverseNotFound(u)) else Nothing
  {
    RemoveKeepsOrder(st.universes, u);
  }

  lemma ListenIs(st: State, now: nat, us: seq<u16>)
    requires Ascending(st.universes)
    ensures
      var (st', out) := Step(st, At(now, Listen(us)));
      && st' == st.(universes := ListenTo(st.universes, us).0)
      && (out == Nothing <==> forall u | u in us :: InRange(u))
  {
    ListensIff(st.universes, us);
  }

  /** A reset forgets every number and every source, and nothing else. */
  lemma ResetForgets(st: State, now: nat)
    requires Ascending(st.universes)
    ensures
      var (st', out) := Step(st, At(now, ResetSources));
      && out == Nothing && |st'.discovered| == |st'.partial| == 0 && |st'.data| == |st'.sync| == 0
      && st'.waiting == st.waiting && st'.universes == st.universes && st'.config == st.config
  {
  }

  /** Clearing drops what waits for the universe, or everything that waits, and nothing else. */
  lemma ClearingDrops(st: State, now: nat, u: u16)
    requires Ascending(st.universes)
    ensures
      var (one, all) := (Step(st, At(now, ClearWaiting(u))).0, Step(st, At(now, ClearAllWaiting)).0);
      && one == st.(waiting := one.waiting) && all == st.(waiting := all.waiting) && |all.waiting| == 0
      && forall v :: (v in one.waiting <==> v in st.waiting && v != u)
                     && (v in one.waiting ==> one.waiting[v] == st.waiting[v])
  {
  }

  /** Expiry leaves of either list what was heard of less than 2.5 s ago (Discovery.DropExpiredOfOne), in order. */
  lemma {:induction false} ExpiryDrops(st: State, now: nat)
    requires Ascending(st.universes)
    ensures
      var st' := Step(st, At(now, RemoveExpired)).0;
      && st' == st.(partial := st'.partial, discovered := st'.discovered)
      && (forall c :: D.View(st'.partial, c) == D.DropExpired(D.View(st.partial, c), now))
      && (forall c :: D.View(st'.discovered, c) == D.DropExpired(D.View(st.discovered, c), now))
  {
    forall c: Cid
      ensures D.View(D.DropExpired(st.partial, now), c) == D.DropExpired(D.View(st.partial, c), now)
      ensures D.View(D.DropExpired(st.discovered, now), c) == D.DropExpired(D.View(st.discovered, c), now)
    {
      D.ViewOfExpired(st.partial, now, c);
      D.ViewOfExpired(st.discovered, now, c);
    }
  }

  /** A round begins with a report if there is one, and otherwise with every table swept and stale data gone. */
  lemma BeginningReports(st: State, now: nat, data: Pick, sync: Pick)
    requires Ascending(st.universes)
    ensures
      var (st', out) := Step(st, At(now, BeginRound(data, sync)));
      var report := if data.Some? then data else sync;
      && out == (if st.config.announceTimeout && report.Some?
                 then Failed(UniverseTimeout(report.value.0, report.value.1)) else Nothing)
      && st' == st.(data := st'.data, sync := st'.sync, waiting := st'.waiting)
      && (out.Failed? ==> st'.waiting == st.waiting)
      && (out == Nothing ==> forall u ::
            && (u in st'.waiting <==> u in st.waiting && now - st.waiting[u].recvTime < 2500)
            && (u in st'.waiting ==> st'.waiting[u] == st.waiting[u]))
  {
  }

  /** Entries of the tables after the sweeps: the reported one is gone, or all that have expired are. */
  lemma SweptEntries(st: State, now: nat, data: Pick, sync: Pick, kind: Kind, c: Cid, u: u16)
    requires Ascending(st.universes)
    ensures
      var st' := Step(st, At(now, BeginRound(data, sync))).0;
      var (e, e') := (Entry(TableOf(st, kind), c, u), Entry(TableOf(st', kind), c, u));
      if !st.config.announceTimeout then e' == if e.Some? && now - e.value.lastRecv < 2500 then e else None
      else if kind.DataNumbers? then e' == if data == Some((c, u)) then None else e
      else e' == if data.None? && sync == Some((c, u)) then None else e
  {
    EntryOfPurge(TableOf(st, kind), now, c, u);
    if data.Some? { EntryOfRemove(st.data, data.value.0, data.value.1, c, u); }
    if sync.Some? { EntryOfRemove(st.sync, sync.value.0, sync.value.1, c, u); }
  }

  /** A new receiver listens for discovery alone, knows no source and has nothing waiting. */
  lemma InitialKnowsNothing(config: Config)
    ensures
      var st := Initial(config);
      && st.config == config && (forall u :: u in st.universes <==> u == 64214) && |st.universes| == 1
      && |st.waiting| == |st.data| == |st.sync| == 0 && |st.discovered| == |st.partial| == 0
  {
  }

  /** The receive buffer holds the datagram's first 1144 bytes, and zeros behind them. */
  lemma BufferHolds(dgram: Bytes)
    ensures |Buffered(dgram)| == 1144
    ensures forall i | 0 <= i < 1144 :: Buffered(dgram)[i] == if i < |dgram| then dgram[i] else 0
  {
  }

  // --------------------------------------------------- what announcing timeouts costs

  /** An announcing receiver may read a live packet and lose it to a timeout exactly when something has expired. */
  lemma LosesPacketIff(st: State, p: Packet, now: nat)
    requires st.config.announceTimeout && Checked(st, p).Some?
    ensures
      var t := TableOf(st, Checked(st, p).value.kind);
      (exists pick: Pick :: pick.Some? && AllowedPacketPick(st, p, now, pick)) <==> !NothingExpired(t, now)
  {
    var t := TableOf(st, Checked(st, p).value.kind);
    if !NothingExpired(t, now) {
      var c :| c in t && SomeExpired(t[c], now);
      var u :| u in t[c] && Expired(t[c][u], now);
      var pick: Pick := Some((c, u));
      assert AllowedPacketPick(st, p, now, pick);
    }
  }

  /** The sweeps of the round let the packet be read, and its own check then reports a timeout. */
  ghost predicate ReadsAndLoses(st: State, p: Packet, swept: nat, now: nat, picks: Picks) {
    && AllowedPicks(st, swept, now, Some(Done(p)), picks)
    && picks.data.None? && picks.sync.None? && picks.packet.Some?
  }

  /**
   * Over a whole round that takes in the sweeps before: some round reads the packet and loses it exactly when either
   * table is empty or holds a source with nothing expired when it is swept, and something in the packet's own table
   * has expired when it comes.
   */
  lemma RoundLosesPacketIff(st: State, p: Packet, swept: nat, now: nat)
    requires st.config.announceTimeout && Checked(st, p).Some?
    ensures
      (exists picks: Picks :: ReadsAndLoses(st, p, swept, now, picks))
      <==> && (st.data == map[] || exists c | c in st.data :: !SomeExpired(st.data[c], swept))
           && (st.sync == map[] || exists c | c in st.sync :: !SomeExpired(st.sync[c], swept))
           && !NothingExpired(TableOf(st, Checked(st, p).value.kind), now)
  {
    LosesPacketIff(st, p, now);
    if AllowedPick(st.data, swept, None) && AllowedPick(st.sync, swept, None) &&
       !NothingExpired(TableOf(st, Checked(st, p).value.kind), now) {
      var pick: Pick :| pick.Some? && AllowedPacketPick(st, p, now, pick);
      assert ReadsAndLoses(st, p, swept, now, Picks(None, None, pick));
    }
  }

  /** Of a packet so lost nothing remains: it is reported as that timeout, and only the expired entry goes. */
  lemma LostPacket(st: State, p: Packet, now: nat, c: Cid, u: u16)
    requires Ascending(st.universes) && st.config.announceTimeout && Checked(st, p).Some?
    requires AllowedPacketPick(st, p, now, Some((c, u)))
    ensures
      var (k, (st', out)) := (Checked(st, p).value, Handle(st, p, now, Some((c, u))));
      var t := TableOf(st, k.kind);
      && out == Failed(UniverseTimeout(c, u)) && st' == WithTable(st, k.kind, RemoveEntry(t, c, u))
      && Entry(t, c, u).Some? && Expired(t[c][u], now)
      && forall c', u' | c' != c || u' != u :: Entry(TableOf(st', k.kind), c', u') == Entry(t, c', u')
  {
    CheckedPacket(st, p, now, Some((c, u)));
    var t := TableOf(st, Checked(st, p).value.kind);
    forall c', u' | c' != c || u' != u ensures Entry(RemoveEntry(t, c, u), c', u') == Entry(t, c', u') {
      EntryOfRemove(t, c, u, c', u');
    }
  }

  // -------------------------------------------------------------------- crashes

  /**
   * A datagram crashes the receiver exactly when, in its zeroed buffer, it makes the parser panic (Codec.PanicsIff).
   */
  lemma CrashesIff(st: State, now: nat, dgram: Bytes, pick: Pick)
    requires Ascending(st.universes)
    ensures
      var b := Buffered(dgram);
      Step(st, At(now, Recv(Datagram(dgram), pick))).1 == Crashed
      <==> b[..16] == Preamble() && Codec.ShortRoot(b[16..])
  {
    Codec.PanicsIff(Buffered(dgram));
    CrashIsPanic(st, now, Datagram(dgram), pick);
  }

  lemma CrashIsPanic(st: State, now: nat, input: Parsed<Packet>, pick: Pick)
    requires Ascending(st.universes)
    ensures Step(st, At(now, Recv(input, pick))).1 == Crashed <==> input.Panic?
  {
    if input.Done? { HandlingNeverCrashes(st, input.value, now, pick); }
  }

  /** What does not parse is reported with the parser's error, and changes nothing. */
  lemma GarbageIsReported(st: State, now: nat, dgram: Bytes, pick: Pick)
    requires Ascending(st.universes) && Datagram(dgram).Fail?
    ensures Step(st, At(now, Recv(Datagram(dgram), pick))) == (st, Failed(ParsePack(Parse(Buffered(dgram)).error)))
  {
  }

  lemma HandlingNeverCrashes(st: State, p: Packet, now: nat, pick: Pick)
    requires Ascending(st.universes)
    ensures Handle(st, p, now, pick).1 != Crashed
  {
  }

  /** Twenty-two bytes, the least a data packet's root layer can start with and a length of zero, crash any receiver. */
  lemma ShortDatagramCrashes(st: State, now: nat, pick: Pick)
    requires Ascending(st.universes)
    ensures Step(st, At(now, Recv(Datagram(Preamble() + [0x70, 0, 0, 0, 0, 4]), pick))).1 == Crashed
  {
    var dgram: Bytes := Preamble() + [0x70, 0, 0, 0, 0, 4];
    var b := Buffered(dgram);
    CrashesIff(st, now, dgram, pick);
    assert b[..16] == Preamble();
    assert b[16] == 0x70 && b[17] == 0 && b[18] == 0 && b[19] == 0 && b[20] == 0 && b[21] == 4;
  }

  function Initial(config: Config): State {
    State(config, [E131_DISCOVERY_UNIVERSE], map[], [], [], map[], map[])
  }

  // ----------------------------------------------------------------- invariant

  ghost predicate ListensWell(us: seq<u16>) {
    Ascending(us) && forall u | u in us :: InRange(u)
  }

  ghost predicate WaitsWell(w: W.Buffer) {
    forall u | u in w :: w[u].universe == u && w[u].syncUni != E131_NO_SYNC_ADDR
  }

  /** No partial source is complete already. */
  ghost predicate StillPartial(part: seq<D.Source>) {
    forall i | 0 <= i < |part| :: !D.OneOfEach(part[i].pages, part[i].lastPage)
  }

  ghost predicate Inv(st: State) {
    && ListensWell(st.universes) && WaitsWell(st.waiting)
    && D.Unique(st.discovered) && D.Unique(st.partial) && StillPartial(st.partial)
    && TableInv(st.data, st.config.limit) && TableInv(st.sync, st.config.limit)
  }

  /** What a merge function owes the receiver. */
  ghost predicate MergeKeeps(merge: MergeFn) {
    forall i: DmxData, n: DmxData | i.universe == n.universe && i.syncUni != 0 && n.syncUni != 0 && merge(i, n).Ok? ::
      merge(i, n).value.universe == i.universe && merge(i, n).value.syncUni != 0
  }

  /** Both shipped merge functions keep what they owe. */
  lemma ShippedMergesKeep()
    ensures MergeKeeps(DiscardLowestPriorityThenPrevious) && MergeKeeps(HtpMerge)
  {
  }

  lemma InitialInv(config: Config)
    requires config.limit != Some(0)
    ensures Inv(Initial(config))
  {
  }

  lemma {:induction false} InsertAllKeeps(universes: seq<u16>, us: seq<u16>)
    requires Ascending(universes)
    ensures forall u :: u in InsertAll(universes, us) <==> u in universes || u in us
    decreases |us|
  {
    if us != [] {
      InsertKeepsOrder(universes, us[0]);
      InsertAllKeeps(Insert(universes, us[0]), us[1..]);
      assert us == [us[0]] + us[1..];
    }
  }

  /** The `i`-th universe is the first that is illegal. */
  ghost predicate FirstIllegal(us: seq<u16>, i: nat) {
    i < |us| && !InRange(us[i]) && forall j | 0 <= j < i :: InRange(us[j])
  }

  /** Nothing is reported exactly when every universe is legal; otherwise it is the first that is not. */
  lemma {:induction false} OutOfRangeIff(us: seq<u16>)
    ensures OutOfRange(us).None? <==> forall u | u in us :: InRange(u)
    ensures OutOfRange(us).Some? ==> exists i: nat :: FirstIllegal(us, i) && OutOfRange(us) == Some(us[i])
  {
    if us != [] {
      OutOfRangeIff(us[1..]);
      assert us == [us[0]] + us[1..];
      if OutOfRange(us).Some? {
        if !InRange(us[0]) {
          assert FirstIllegal(us, 0);
        } else {
          var i: nat :| FirstIllegal(us[1..], i) && OutOfRange(us[1..]) == Some(us[1..][i]);
          assert us[i + 1] == us[1..][i];
          assert FirstIllegal(us, i + 1) by {
            forall j | 0 <= j < i + 1 ensures InRange(us[j]) { if j > 0 { assert us[j] == us[1..][j - 1]; } }
          }
        }
      }
    }
  }

  /** A receiver that is told to listen listens to all of the universes, or, if one is illegal, to none more. */
  lemma {:induction false} ListensIff(universes: seq<u16>, us: seq<u16>)
    requires Ascending(universes)
    ensures
      var ((l, r), legal) := (ListenTo(universes, us), forall u | u in us :: InRange(u));
      && Ascending(l) && (r == Ok(Unit) <==> legal)
      && (forall u :: u in l <==> u in universes || (legal && u in us))
      && (!legal ==> l == universes && exists i: nat :: FirstIllegal(us, i) && r == Err(IllegalUniverse(us[i])))
  {
    OutOfRangeIff(us);
    InsertAllKeeps(universes, us);
  }

  lemma {:induction false} InsertAllInRange(universes: seq<u16>, us: seq<u16>)
    requires ListensWell(universes) && OutOfRange(us).None?
    ensures ListensWell(InsertAll(universes, us))
  {
    InsertAllKeeps(universes, us);
    OutOfRangeIff(us);
  }

  lemma StoreKeepsWaits(w: W.Buffer, d: DmxData, merge: MergeFn)
    requires WaitsWell(w) && d.syncUni != 0 && MergeKeeps(merge)
    ensures WaitsWell(W.Store(w, d, merge).0)
  {
  }

  lemma TerminateKeepsInv(st: State, cid: Cid, u: u16)
    requires Inv(st)
    ensures Inv(TerminateStream(st, cid, u))
  {
    RemoveKeepsInv(st.data, st.config.limit, cid, u);
    RemoveKeepsInv(st.sync, st.config.limit, cid, u);
    TerminateKeepsUnique(st.discovered, cid, u);
  }

  lemma AcceptKeepsInv(st: State, d: DmxData)
    requires Inv(st) && MergeKeeps(st.config.merge) && d.syncUni != 0 && ListenTo(st.universes, [d.syncUni]).1.Ok?
    ensures Inv(StoreWaiting(st.(universes := ListenTo(st.universes, [d.syncUni]).0), d).0)
  {
    InsertAllInRange(st.universes, [d.syncUni]);
    StoreKeepsWaits(st.waiting, d, st.config.merge);
  }

  lemma HandleDataKeepsInv(st: State, cid: Cid, d: DataFraming, now: nat, pick: Pick)
    requires Inv(st) && MergeKeeps(st.config.merge)
    ensures Inv(HandleData(st, cid, d, now, pick).0)
  {
    if d.terminated {
      TerminateKeepsInv(st, cid, d.universe);
    } else {
      var limit, announce := st.config.limit, st.config.announceTimeout;
      CheckSeqKeepsInv(st.data, limit, cid, d.seqNo, d.universe, now, announce, pick);
      var (t, r) := CheckSeq(st.data, limit, cid, d.seqNo, d.universe, now, announce, pick);
      var st1 := st.(data := t);
      assert Inv(st1);
      if d.syncAddr != 0 && ListenTo(st.universes, [d.syncAddr]).1.Ok? { AcceptKeepsInv(st1, ToDmx(cid, d, now)); }
    }
  }

  lemma HandleSyncKeepsInv(st: State, cid: Cid, s: SyncFraming, now: nat, pick: Pick)
    requires Inv(st)
    ensures Inv(HandleSync(st, cid, s, now, pick).0)
  {
    CheckSeqKeepsInv(st.sync, st.config.limit, cid, s.seqNo, s.syncAddr, now, st.config.announceTimeout, pick);
    UnreleasedKeepsWaits(st.waiting, s.syncAddr);
  }

  lemma UnreleasedKeepsWaits(w: W.Buffer, sync: u16)
    requires WaitsWell(w)
    ensures WaitsWell(W.Unreleased(w, sync))
  {
  }

  lemma TerminateKeepsUnique(disc: seq<D.Source>, cid: Cid, u: u16)
    requires D.Unique(disc)
    ensures D.Unique(D.TerminateDiscovered(disc, cid, u))
  {
    match D.FindSource(disc, cid)
    case None =>
    case Some(i) =>
      forall c: Cid ensures |D.View(D.TerminateDiscovered(disc, cid, u), c)| <= 1 {
        D.ViewAround(disc, i, D.TerminateUniverse(disc[i], u), c);
        assert |D.View(disc, c)| <= 1;
      }
  }

  lemma PageKeepsPartial(disc: seq<D.Source>, part: seq<D.Source>, cid: Cid, d: DiscoveryFraming, now: nat)
    requires StillPartial(part) && d.page <= d.lastPage
    ensures StillPartial(D.HandlePage(disc, part, cid, d, now).1)
  {
    var page := D.Page(d.page, d.universes);
    match D.FindSource(part, cid)
    case Some(i) =>
      var s := D.AddPage(part[i], page, now);
      D.CompleteIffOneOfEach(part[i].pages + [page], s.lastPage);
      forall n ensures D.Copies(s.pages, n) == D.Copies(part[i].pages + [page], n) {
        D.CopiesOfSort(part[i].pages + [page], n);
      }
      assert D.OneOfEach(s.pages, s.lastPage) <==> D.OneOfEach(part[i].pages + [page], s.lastPage);
    case None =>
      assert forall n :: D.Copies([page], n) == if n == d.page then 1 else 0;
      if d.lastPage > 0 {
        assert D.Copies([page], 0) == 0 || D.Copies([page], d.lastPage) == 0;
      }
  }

  lemma HandleDiscoveryKeepsInv(st: State, cid: Cid, d: DiscoveryFraming, now: nat)
    requires Inv(st) && d.page <= d.lastPage
    ensures Inv(HandleDiscovery(st, cid, d, now).0)
  {
    D.PageKeepsUnique(st.discovered, st.partial, cid, d, now);
    PageKeepsPartial(st.discovered, st.partial, cid, d, now);
  }

  lemma SweepAllKeepsInv(st: State, now: nat, data: Pick, sync: Pick)
    requires Inv(st)
    ensures Inv(SweepAll(st, now, data, sync).0)
  {
    SweepKeepsInv(st.data, st.config.limit, now, st.config.announceTimeout, data);
    SweepKeepsInv(st.sync, st.config.limit, now, st.config.announceTimeout, sync);
  }

  lemma HandleKeepsInv(st: State, p: Packet, now: nat, pick: Pick)
    requires Inv(st) && MergeKeeps(st.config.merge) && Valid(p)
    ensures Inv(Handle(st, p, now, pick).0)
  {
    match p.data
    case DataPacket(d) => HandleDataKeepsInv(st, p.cid, d, now, pick);
    case SyncPacket(s) => HandleSyncKeepsInv(st, p.cid, s, now, pick);
    case DiscoveryPacket(u) => HandleDiscoveryKeepsInv(st, p.cid, u, now);
  }

  /** What expiry keeps: exactly the sources heard of in time, none twice that was there once. */
  lemma {:induction false} DropExpiredIsSublist(l: seq<D.Source>, now: nat, c: Cid)
    ensures |D.View(D.DropExpired(l, now), c)| <= |D.View(l, c)|
    ensures forall s :: s in D.DropExpired(l, now) <==> s in l && now - s.lastUpdated < DATA_LOSS_TIMEOUT
  {
    if l != [] {
      var init, last := l[..|l| - 1], l[|l| - 1];
      assert l == init + [last];
      DropExpiredIsSublist(init, now, c);
      assert (D.DropExpired(init, now) + [last])[..|D.DropExpired(init, now)|] == D.DropExpired(init, now);
    }
  }

  lemma {:induction false} DropExpiredKeepsInv(l: seq<D.Source>, now: nat)
    ensures D.Unique(l) ==> D.Unique(D.DropExpired(l, now))
    ensures StillPartial(l) ==> StillPartial(D.DropExpired(l, now))
  {
    forall c: Cid
      ensures |D.View(D.DropExpired(l, now), c)| <= |D.View(l, c)| && forall s | s in D.DropExpired(l, now) :: s in l
    {
      DropExpiredIsSublist(l, now, c);
    }
    DropExpiredIsSublist(l, now, Zeros(16));
  }

  lemma CallKeepsInv(st: State, e: Timed<Event>)
    requires Inv(st) && !e.event.Recv?
    ensures Inv(Step(st, e).0)
  {
    match e.event
    case BeginRound(data, sync) => SweepAllKeepsInv(st, e.now, data, sync);
    case Listen(us) => if OutOfRange(us).None? { InsertAllInRange(st.universes, us); }
    case Mute(u) => RemoveKeepsOrder(st.universes, u);
    case RemoveExpired =>
      DropExpiredKeepsInv(st.partial, e.now);
      DropExpiredKeepsInv(st.discovered, e.now);
    case _ =>
  }

  /** Every call and every datagram, well-formed or not, keeps the receiver's invariant. */
  lemma StepKeepsInv(st: State, e: Timed<Event>)
    requires Inv(st) && MergeKeeps(st.config.merge) && Sound(e.event)
    ensures Inv(Step(st, e).0)
  {
    match e.event
    case Recv(input, pick) => if input.Done? { HandleKeepsInv(st, input.value, e.now, pick); }
    case _ => CallKeepsInv(st, e);
  }

  ghost predicate SameConfig(st: State, st': State) {
    st'.config == st.config && Ascending(st'.universes)
  }

  lemma HandleKeepsConfig(st: State, p: Packet, now: nat, pick: Pick)
    requires Ascending(st.universes)
    ensures SameConfig(st, Handle(st, p, now, pick).0)
  {
    match p.data
    case DataPacket(d) => assert Ascending(ListenTo(st.universes, [d.syncAddr]).0);
    case SyncPacket(s) =>
    case DiscoveryPacket(u) =>
  }

  lemma StepKeepsConfig(st: State, e: Timed<Event>)
    requires Ascending(st.universes)
    ensures SameConfig(st, Step(st, e).0)
  {
    match e.event
    case Recv(input, pick) => if input.Done? { HandleKeepsConfig(st, input.value, e.now, pick); }
    case Mute(u) => RemoveKeepsOrder(st.universes, u);
    case _ =>
  }

  // ---------------------------------------------------------------------- runs

  /** The state after a run, each event applied to what the ones before it left. */
  function After(st: State, evs: seq<Timed<Event>>): (r: State)
    requires Ascending(st.universes)
    ensures SameConfig(st, r)
    decreases |evs|
  {
    if evs == [] then st
    else
      StepKeepsConfig(st, evs[0]);
      After(Step(st, evs[0]).0, evs[1..])
  }

  /** Whatever the events of a run report, the code can report. */
  ghost predicate AllowedRun(st: State, evs: seq<Timed<Event>>)
    requires Ascending(st.universes)
    decreases |evs|
  {
    evs == [] || (StepKeepsConfig(st, evs[0]); Allowed(st, evs[0]) && AllowedRun(Step(st, evs[0]).0, evs[1..]))
  }

  /** In every state a receiver can reach, announcing or not, limited or not, the invariant holds. */
  lemma {:induction false} RunKeepsInv(st: State, evs: seq<Timed<Event>>)
    requires Inv(st) && MergeKeeps(st.config.merge) && forall i | 0 <= i < |evs| :: Sound(evs[i].event)
    ensures Inv(After(st, evs))
    decreases |evs|
  {
    if evs != [] {
      StepKeepsInv(st, evs[0]);
      StepKeepsConfig(st, evs[0]);
      RunKeepsInv(Step(st, evs[0]).0, evs[1..]);
    }
  }

  // --------------------------------------------------------------- termination

  /**
   * Handling a termination packet again changes nothing. The stream's data number is gone, and its synchronisation
   * number too unless only that was known; no other number is. Its universe, and no other, leaves the list of the
   * source that sent it.
   */
  lemma {:induction false} TerminationIsIdempotent(st: State, cid: Cid, u: u16)
    ensures
      var st1 := TerminateStream(st, cid, u);
      && TerminateStream(st1, cid, u) == st1
      && Entry(st1.data, cid, u).None?
      && (Entry(st1.sync, cid, u).None? <==> Entry(st.data, cid, u).Some? || Entry(st.sync, cid, u).None?)
      && |st1.discovered| == |st.discovered|
      && forall i | 0 <= i < |st.discovered| :: D.AllUniverses(st1.discovered[i]) ==
           if D.FindSource(st.discovered, cid) == Some(i) then D.Without(D.AllUniverses(st.discovered[i]), u)
           else D.AllUniverses(st.discovered[i])
    ensures
      var st1 := TerminateStream(st, cid, u);
      && st1 == st.(data := st1.data, sync := st1.sync, discovered := st1.discovered)
      && forall c: Cid, v: u16 | c != cid || v != u ::
        Entry(st1.data, c, v) == Entry(st.data, c, v) && Entry(st1.sync, c, v) == Entry(st.sync, c, v)
  {
    RemovesBothIff(st.data, st.sync, cid, u);
    D.TerminateDiscoveredOnce(st.discovered, cid, u);
    var st1 := TerminateStream(st, cid, u);
    forall c: Cid, v: u16 | c != cid || v != u
      ensures Entry(st1.data, c, v) == Entry(st.data, c, v) && Entry(st1.sync, c, v) == Entry(st.sync, c, v)
    {
      EntryOfRemove(st.data, cid, u, c, v);
      EntryOfRemove(st.sync, cid, u, c, v);
    }
  }

  // ------------------------------------------------------- the waiting buffer

  /** What handling a packet does to the waiting buffer, as an operation on that buffer alone. */
  function WaitingOp(st: State, p: Packet, now: nat, pick: Pick): Option<W.Op> {
    match Checked(st, p)
    case None => None
    case Some(k) =>
      if CheckOf(st, p.cid, k, now, pick).1.Err? then None
      else match p.data
        case DataPacket(d) =>
          Some(if d.syncAddr == E131_NO_SYNC_ADDR then W.Drop(d.universe) else W.Put(ToDmx(p.cid, d, now)))
        case SyncPacket(s) => Some(W.Take(s.syncAddr))
        case DiscoveryPacket(_) => None
  }

  /**
   * The receiver's buffer runs exactly those operations: stored packets are the accepted ones that carry a
   * synchronisation address, and only an accepted synchronisation packet takes any out.
   */
  lemma HandleRunsWaitingOp(st: State, p: Packet, now: nat, pick: Pick)
    requires Ascending(st.universes) && Valid(p)
    ensures
      var (st', out) := Handle(st, p, now, pick);
      match WaitingOp(st, p, now, pick)
      case None => st'.waiting == st.waiting && !out.Data?
      case Some(op) =>
        var (w, items) := W.Step(st.waiting, At(now, op), st.config.merge);
        && st'.waiting == w
        && (op.Take? ==> out == if items == {} then Nothing else Data(items))
        && (op.Put? ==> !out.Data?)
  {
    match p.data
    case DataPacket(d) => HandleDataRunsWaitingOp(st, p, d, now, pick);
    case SyncPacket(s) =>
    case DiscoveryPacket(u) =>
  }

  lemma ListenToOne(universes: seq<u16>, u: u16)
    requires Ascending(universes) && InRange(u)
    ensures ListenTo(universes, [u]) == (Insert(universes, u), Ok(Unit))
  {
    assert [u][1..] == [];
    InsertKeepsOrder(universes, u);
    assert OutOfRange([u][1..]).None? && InsertAll(Insert(universes, u), [u][1..]) == Insert(universes, u);
  }

  lemma HandleDataRunsWaitingOp(st: State, p: Packet, d: DataFraming, now: nat, pick: Pick)
    requires Ascending(st.universes) && Valid(p) && p.data == DataPacket(d)
    ensures
      var (st', out) := HandleData(st, p.cid, d, now, pick);
      match WaitingOp(st, p, now, pick)
      case None => st'.waiting == st.waiting && !out.Data?
      case Some(op) =>
        st'.waiting == W.Step(st.waiting, At(now, op), st.config.merge).0 && !op.Take? && (op.Put? ==> !out.Data?)
  {
    if d.preview && !st.config.processPreview {
    } else if d.terminated {
    } else if d.universe in st.universes {
      LiveDataRunsWaitingOp(st, p.cid, d, now, pick);
    }
  }

  lemma StoringIsPut(st: State, d: DmxData, now: nat)
    ensures
      var (st', out) := StoreWaiting(st, d);
      st'.waiting == W.Step(st.waiting, At(now, W.Put(d)), st.config.merge).0 && !out.Data?
  {
  }

  lemma LiveDataRunsWaitingOp(st: State, cid: Cid, d: DataFraming, now: nat, pick: Pick)
    requires Ascending(st.universes) && d.syncAddr <= E131_MAX_MULTICAST_UNIVERSE
    requires (d.preview ==> st.config.processPreview) && !d.terminated && d.universe in st.universes
    ensures
      var r := CheckSeq(st.data, st.config.limit, cid, d.seqNo, d.universe, now, st.config.announceTimeout, pick).1;
      var (st', out) := HandleData(st, cid, d, now, pick);
      if r.Err? then st'.waiting == st.waiting && !out.Data?
      else if d.syncAddr == E131_NO_SYNC_ADDR then st'.waiting == st.waiting - {d.universe}
      else st'.waiting == W.Step(st.waiting, At(now, W.Put(ToDmx(cid, d, now))), st.config.merge).0 && !out.Data?
  {
    var (t, r) := CheckSeq(st.data, st.config.limit, cid, d.seqNo, d.universe, now, st.config.announceTimeout, pick);
    if r.Ok? && d.syncAddr != E131_NO_SYNC_ADDR {
      ListenToOne(st.universes, d.syncAddr);
      StoringIsPut(st.(data := t, universes := Insert(st.universes, d.syncAddr)), ToDmx(cid, d, now), now);
    }
  }
}
