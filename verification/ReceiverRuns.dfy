/** Whole runs of the receiver, seen as runs of its two tables of numbers and of its waiting buffer. */
module ReceiverRuns {
  import opened Types
  import opened P = Packet
  import opened Merge
  import opened S = Sequencing
  import opened R = Receiver
  import Q = SequenceRuns
  import W = Waiting

  // ------------------------------------------------- the tables of numbers

  /** The packet's own check reports a timeout, and the packet is lost. */
  predicate Reports(st: State, pick: Pick) {
    st.config.announceTimeout && pick.Some?
  }

  /** What an event does to one of the tables. */
  function TableOps(st: State, e: Timed<Event>, kind: Kind): seq<Timed<Q.TableEvent>> {
    match e.event
    case BeginRound(data, sync) =>
      if kind.DataNumbers? then [At(e.now, Q.SweepOnly(data))]
      else if Reports(st, data) then []
      else [At(e.now, Q.SweepOnly(sync))]
    case Recv(input, pick) => if input.Done? then PacketOps(st, e.now, input.value, pick, kind) else []
    case ResetSources => [At(e.now, Q.Forget)]
    case _ => []
  }

  function PacketOps(st: State, now: nat, p: P.Packet, pick: Pick, kind: Kind): seq<Timed<Q.TableEvent>> {
    match Checked(st, p)
    case Some(k) =>
      if k.kind != kind then []
      else [At(now, if Reports(st, pick) then Q.SweepOnly(pick) else Q.Arrive(p.cid, k.universe, k.seqNo))]
    case None =>
      if Ends(st, p) && (kind.DataNumbers? || Entry(st.data, p.cid, p.data.data.universe).Some?)
      then [At(now, Q.Terminate(p.cid, p.data.data.universe))] else []
  }

  function TableAfter(t: Table, limit: Option<nat>, announce: bool, ops: seq<Timed<Q.TableEvent>>): Table
    decreases |ops|
  {
    if ops == [] then t else TableAfter(Q.TableStep(t, limit, announce, ops[0]).0, limit, announce, ops[1..])
  }

  /** The receiver's verdict on a packet it takes in, as its caller sees it. */
  function Verdict(out: Outcome): Result<Unit> {
    if out.Failed? && (out.error.OutOfSequence? || out.error.SourcesExceeded?) then Err(out.error) else Ok(Unit)
  }

  /** A failed merge is not mistaken for a packet turned away. */
  ghost predicate MergeErrsApart(merge: MergeFn) {
    forall i, n :: merge(i, n).Err? ==> !merge(i, n).error.OutOfSequence? && !merge(i, n).error.SourcesExceeded?
  }

  lemma ShippedMergesErrApart()
    ensures MergeErrsApart(DiscardLowestPriorityThenPrevious) && MergeErrsApart(HtpMerge)
  {
  }

  /** A receiver whose caller can tell the verdicts. */
  ghost predicate Legible(st: State) {
    Ascending(st.universes) && MergeErrsApart(st.config.merge)
  }

  /** The event brings a live packet of the stream, and its check comes to judge it. */
  predicate Judges(st: State, e: Timed<Event>, kind: Kind, c: Cid, u: u16) {
    && e.event.Recv? && e.event.input.Done? && !Reports(st, e.event.pick)
    && var p := e.event.input.value;
       p.cid == c && Checked(st, p).Some? && Checked(st, p).value.kind == kind && Checked(st, p).value.universe == u
  }

  /** What the verdict means: a packet that passes comes out as it should, any other is turned away with its error. */
  lemma JudgedComesOut(st: State, e: Timed<Event>, kind: Kind, c: Cid, u: u16)
    requires Legible(st) && Sound(e.event) && Judges(st, e, kind, c, u)
    ensures
      var (out, p) := (Step(st, e).1, e.event.input.value);
      && Verdict(out) == CheckOf(st, c, Checked(st, p).value, e.now, None).1
      && out == (if Verdict(out).Ok? then Accepted(st, p, e.now) else Failed(Verdict(out).error))
  {
    var p := e.event.input.value;
    CheckedPacket(st, p, e.now, e.event.pick);
    CheckFails(st, c, Checked(st, p).value, e.now, e.event.pick);
    AcceptedPasses(st, p, e.now);
  }

  lemma CheckFails(st: State, c: Cid, k: Check, now: nat, pick: Pick)
    requires !Reports(st, pick)
    ensures CheckOf(st, c, k, now, pick) == CheckOf(st, c, k, now, None)
    ensures
      var r := CheckOf(st, c, k, now, None).1;
      r.Err? ==> r.error.OutOfSequence? || r.error.SourcesExceeded?
  {
  }

  lemma AcceptedPasses(st: State, p: P.Packet, now: nat)
    requires MergeErrsApart(st.config.merge)
    ensures Verdict(Accepted(st, p, now)).Ok?
  {
  }

  lemma {:induction false} OneOp(t: Table, limit: Option<nat>, announce: bool, op: Timed<Q.TableEvent>)
    ensures TableAfter(t, limit, announce, [op]) == Q.TableStep(t, limit, announce, op).0
  {
    assert [op][1..] == [];
  }

  /** A packet is its operations on the table. */
  lemma {:induction false} PacketRunsTable(st: State, p: P.Packet, now: nat, pick: Pick, kind: Kind)
    requires Ascending(st.universes)
    ensures TableOf(Handle(st, p, now, pick).0, kind)
         == TableAfter(TableOf(st, kind), st.config.limit, st.config.announceTimeout, PacketOps(st, now, p, pick, kind))
  {
    match Checked(st, p)
    case Some(k) =>
      CheckedPacket(st, p, now, pick);
      if k.kind == kind { CheckIsOp(st, p, k, now, pick); }
    case None =>
      UncheckedPacket(st, p, now, pick);
      var ops := PacketOps(st, now, p, pick, kind);
      if ops != [] {
        assert ops == [ops[0]];
        OneOp(TableOf(st, kind), st.config.limit, st.config.announceTimeout, ops[0]);
      }
  }

  lemma {:induction false} CheckIsOp(st: State, p: P.Packet, k: Check, now: nat, pick: Pick)
    requires Checked(st, p) == Some(k)
    ensures CheckOf(st, p.cid, k, now, pick).0
         == TableAfter(TableOf(st, k.kind), st.config.limit, st.config.announceTimeout,
                       PacketOps(st, now, p, pick, k.kind))
  {
    var ops := PacketOps(st, now, p, pick, k.kind);
    OneOp(TableOf(st, k.kind), st.config.limit, st.config.announceTimeout, ops[0]);
    if !Reports(st, pick) { CheckFails(st, p.cid, k, now, pick); }
  }

  /** One event is its operations on the table. */
  lemma {:induction false} StepRunsTable(st: State, e: Timed<Event>, kind: Kind)
    requires Ascending(st.universes)
    ensures TableOf(Step(st, e).0, kind)
         == TableAfter(TableOf(st, kind), st.config.limit, st.config.announceTimeout, TableOps(st, e, kind))
  {
    match e.event
    case Recv(input, pick) => if input.Done? { PacketRunsTable(st, input.value, e.now, pick, kind); }
    case BeginRound(data, sync) =>
      OneOp(st.data, st.config.limit, st.config.announceTimeout, At(e.now, Q.SweepOnly(data)));
      OneOp(st.sync, st.config.limit, st.config.announceTimeout, At(e.now, Q.SweepOnly(sync)));
    case ResetSources =>
      OneOp(TableOf(st, kind), st.config.limit, st.config.announceTimeout, At(e.now, Q.Forget));
    case _ =>
  }

  /** The stream's verdict on that event is what the caller sees. */
  lemma {:induction false} StepVerdict(st: State, e: Timed<Event>, kind: Kind, c: Cid, u: u16)
    requires Legible(st) && Sound(e.event)
    ensures
      Q.StreamVerdicts(TableOf(st, kind), st.config.limit, st.config.announceTimeout, TableOps(st, e, kind), c, u)
      == if Judges(st, e, kind, c, u) then [Verdict(Step(st, e).1)] else []
  {
    var ops := TableOps(st, e, kind);
    if Judges(st, e, kind, c, u) { JudgedComesOut(st, e, kind, c, u); }
    if ops != [] { assert ops[1..] == []; }
  }

  /** What the event reports, the table can report. */
  lemma {:induction false} StepIsAllowed(st: State, e: Timed<Event>, kind: Kind)
    requires Allowed(st, e)
    ensures Q.AllowedOps(TableOf(st, kind), st.config.limit, st.config.announceTimeout, TableOps(st, e, kind))
  {
    var ops := TableOps(st, e, kind);
    if ops != [] { assert ops[1..] == []; }
  }

  function RunOps(st: State, evs: seq<Timed<Event>>, kind: Kind): seq<Timed<Q.TableEvent>>
    requires Ascending(st.universes)
    decreases |evs|
  {
    if evs == [] then []
    else
      StepKeepsConfig(st, evs[0]);
      TableOps(st, evs[0], kind) + RunOps(Step(st, evs[0]).0, evs[1..], kind)
  }

  /** What the caller learns, over a run, of the judged packets of one stream. */
  function Verdicts(st: State, evs: seq<Timed<Event>>, kind: Kind, c: Cid, u: u16): seq<Result<Unit>>
    requires Ascending(st.universes)
    decreases |evs|
  {
    if evs == [] then []
    else
      StepKeepsConfig(st, evs[0]);
      var (st', out) := Step(st, evs[0]);
      (if Judges(st, evs[0], kind, c, u) then [Verdict(out)] else []) + Verdicts(st', evs[1..], kind, c, u)
  }

  lemma {:induction false} VerdictsOfJoin(t: Table, limit: Option<nat>, announce: bool, a: seq<Timed<Q.TableEvent>>,
          b: seq<Timed<Q.TableEvent>>, c: Cid, u: u16)
    ensures Q.StreamVerdicts(t, limit, announce, a + b, c, u)
         == Q.StreamVerdicts(t, limit, announce, a, c, u)
            + Q.StreamVerdicts(TableAfter(t, limit, announce, a), limit, announce, b, c, u)
    decreases |a|
  {
    if a == [] {
      assert a + b == b;
    } else {
      assert (a + b)[1..] == a[1..] + b;
      VerdictsOfJoin(Q.TableStep(t, limit, announce, a[0]).0, limit, announce, a[1..], b, c, u);
    }
  }

  lemma {:induction false} AllowedJoin(t: Table, limit: Option<nat>, announce: bool, a: seq<Timed<Q.TableEvent>>,
          b: seq<Timed<Q.TableEvent>>)
    requires Q.AllowedOps(t, limit, announce, a)
    requires Q.AllowedOps(TableAfter(t, limit, announce, a), limit, announce, b)
    ensures Q.AllowedOps(t, limit, announce, a + b)
    decreases |a|
  {
    if a == [] {
      assert a + b == b;
    } else {
      var t' := Q.TableStep(t, limit, announce, a[0]).0;
      assert (a + b)[1..] == a[1..] + b && (a + b)[0] == a[0];
      assert Q.AllowedOps(t', limit, announce, a[1..]) && Q.AllowedOp(t, announce, a[0]);
      AllowedJoin(t', limit, announce, a[1..], b);
    }
  }

  ghost predicate AllSound(evs: seq<Timed<Event>>) {
    forall i | 0 <= i < |evs| :: Sound(evs[i].event)
  }

  /** What the caller learns of a stream, and what the receiver may report, is the same of its table's run. */
  lemma {:induction false} RunsTable(st: State, evs: seq<Timed<Event>>, kind: Kind, c: Cid, u: u16)
    requires Legible(st) && AllSound(evs)
    ensures
      var (t, limit, announce) := (TableOf(st, kind), st.config.limit, st.config.announceTimeout);
      && Verdicts(st, evs, kind, c, u) == Q.StreamVerdicts(t, limit, announce, RunOps(st, evs, kind), c, u)
      && (AllowedRun(st, evs) ==> Q.AllowedOps(t, limit, announce, RunOps(st, evs, kind)))
    decreases |evs|
  {
    if evs != [] {
      var (t, limit, announce) := (TableOf(st, kind), st.config.limit, st.config.announceTimeout);
      var st' := Step(st, evs[0]).0;
      StepKeepsConfig(st, evs[0]);
      StepRunsTable(st, evs[0], kind);
      StepVerdict(st, evs[0], kind, c, u);
      RunsTable(st', evs[1..], kind, c, u);
      var ops, rest := TableOps(st, evs[0], kind), RunOps(st', evs[1..], kind);
      VerdictsOfJoin(t, limit, announce, ops, rest, c, u);
      if AllowedRun(st, evs) {
        StepIsAllowed(st, evs[0], kind);
        AllowedJoin(t, limit, announce, ops, rest);
      }
    }
  }

  lemma {:induction false} OpsAfter(ops: seq<Timed<Q.TableEvent>>, rest: seq<Timed<Q.TableEvent>>, from: nat, now: nat)
    requires from <= now && (forall i | 0 <= i < |ops| :: ops[i].now == now) && ClockRuns(rest, now)
    ensures ClockRuns(ops + rest, from)
    decreases |ops|
  {
    if ops == [] {
      assert ops + rest == rest;
    } else {
      assert (ops + rest)[1..] == ops[1..] + rest;
      OpsAfter(ops[1..], rest, now, now);
    }
  }

  lemma {:induction false} OpsKeepClock(st: State, evs: seq<Timed<Event>>, from: nat, kind: Kind)
    requires Ascending(st.universes) && ClockRuns(evs, from)
    ensures ClockRuns(RunOps(st, evs, kind), from)
    decreases |evs|
  {
    if evs != [] {
      StepKeepsConfig(st, evs[0]);
      OpsKeepClock(Step(st, evs[0]).0, evs[1..], evs[0].now, kind);
      OpsAfter(TableOps(st, evs[0], kind), RunOps(Step(st, evs[0]).0, evs[1..], kind), from, evs[0].now);
    }
  }

  /**
   * What a receiver without a source limit or announced timeouts says of a stream's packets depends on that stream's
   * own packets, terminations and resets alone: two that saw the same of it agree, whatever else either has been
   * through.
   */
  lemma {:induction false} VerdictsAreTheStreamsOwn(st: State, evs: seq<Timed<Event>>, st': State,
          evs': seq<Timed<Event>>, kind: Kind, c: Cid, u: u16)
    requires Legible(st) && st.config.limit.None? && !st.config.announceTimeout && AllSound(evs) && ClockRuns(evs, 0)
    requires Legible(st') && st'.config.limit.None? && !st'.config.announceTimeout && AllSound(evs')
    requires ClockRuns(evs', 0)
    requires Entry(TableOf(st, kind), c, u) == Entry(TableOf(st', kind), c, u)
    requires Q.Project(RunOps(st, evs, kind), c, u) == Q.Project(RunOps(st', evs', kind), c, u)
    ensures Verdicts(st, evs, kind, c, u) == Verdicts(st', evs', kind, c, u)
  {
    RunsTable(st, evs, kind, c, u);
    RunsTable(st', evs', kind, c, u);
    OpsKeepClock(st, evs, 0, kind);
    OpsKeepClock(st', evs', 0, kind);
    Q.StreamsDoNotInterfere(TableOf(st, kind), RunOps(st, evs, kind), TableOf(st', kind), RunOps(st', evs', kind),
                            c, u);
  }

  /**
   * In any run of a receiver, with any source limit, announcing timeouts or not: of a tracked stream of data or of
   * synchronisation packets, the judged packets that get through are exactly the strict running maxima of its
   * unbounded counter, as long as each comes within the window and before the last one accepted expires.
   */
  lemma {:induction false} RunningMaximaGetThrough(st: State, evs: seq<Timed<Event>>, kind: Kind, c: Cid, u: u16,
          a: seq<Q.Indexed>, h: nat, last: nat)
    requires Legible(st) && AllSound(evs) && AllowedRun(st, evs) && ClockRuns(evs, 0)
    requires Entry(TableOf(st, kind), c, u) == Some(Stamp(h % 0x100, last))
    requires Q.Project(RunOps(st, evs, kind), c, u) == Q.Received(a) && Q.InWindow(a, h, last)
    ensures
      var v := Verdicts(st, evs, kind, c, u);
      |v| == |a| && forall i | 0 <= i < |a| :: v[i].Ok? <==> Q.NewMaximum(a, h, i)
  {
    RunsTable(st, evs, kind, c, u);
    OpsKeepClock(st, evs, 0, kind);
    Q.AcceptedAreRunningMaxima(TableOf(st, kind), st.config.limit, st.config.announceTimeout,
                               RunOps(st, evs, kind), 0, c, u, a, h, last);
  }

  /** The same of a stream that is not tracked yet, from the first packet that a full table does not turn away. */
  lemma MaximaFromTheFirst(st: State, evs: seq<Timed<Event>>, kind: Kind, c: Cid, u: u16, a: seq<Q.Indexed>)
    returns (n: nat)
    requires Legible(st) && AllSound(evs) && AllowedRun(st, evs) && ClockRuns(evs, 0)
    requires Entry(TableOf(st, kind), c, u).None? && Q.Project(RunOps(st, evs, kind), c, u) == Q.Received(a)
    ensures Q.PassesFrom(Verdicts(st, evs, kind, c, u), a, n) && (st.config.limit.None? ==> n == 0)
  {
    RunsTable(st, evs, kind, c, u);
    OpsKeepClock(st, evs, 0, kind);
    n := Q.FromTheFirst(TableOf(st, kind), st.config.limit, st.config.announceTimeout, RunOps(st, evs, kind), 0,
                        c, u, a);
  }

  // -------------------------------------------------------- the waiting buffer

  /** What an event does to the waiting buffer. */
  function BufferOps(st: State, e: Timed<Event>): seq<Timed<W.Op>> {
    match e.event
    case BeginRound(data, sync) => if SweepAll(st, e.now, data, sync).1.Err? then [] else [At(e.now, W.Expire)]
    case Recv(input, pick) => InputOps(st, e.now, input, pick)
    case ClearAllWaiting => [At(e.now, W.DropAll)]
    case ClearWaiting(u) => [At(e.now, W.Drop(u))]
    case _ => []
  }

  function InputOps(st: State, now: nat, input: Parsed<P.Packet>, pick: Pick): seq<Timed<W.Op>> {
    if !input.Done? then []
    else match WaitingOp(st, input.value, now, pick)
      case None => []
      case Some(op) => [At(now, op)]
  }

  function RunBufferOps(st: State, evs: seq<Timed<Event>>): (r: seq<Timed<W.Op>>)
    requires Ascending(st.universes)
  {
    if evs == [] then []
    else RunBufferOps(st, evs[..|evs| - 1]) + BufferOps(After(st, evs[..|evs| - 1]), evs[|evs| - 1])
  }

  lemma {:induction false} AfterOneMore(st: State, evs: seq<Timed<Event>>, e: Timed<Event>)
    requires Ascending(st.universes)
    ensures After(st, evs + [e]) == Step(After(st, evs), e).0
    decreases |evs|
  {
    if evs == [] {
      StepKeepsConfig(st, e);
      assert evs + [e] == [e];
      assert [e][1..] == [];
    } else {
      assert (evs + [e])[1..] == evs[1..] + [e];
      StepKeepsConfig(st, evs[0]);
      AfterOneMore(Step(st, evs[0]).0, evs[1..], e);
    }
  }

  lemma InputRunsBuffer(st: State, now: nat, input: Parsed<P.Packet>, pick: Pick)
    requires Ascending(st.universes) && (input.Done? ==> Valid(input.value))
    ensures
      HandleInput(st, input, now, pick).0.waiting
      == W.BufferAfter(st.waiting, InputOps(st, now, input, pick), st.config.merge)
  {
    if input.Done? {
      HandleRunsWaitingOp(st, input.value, now, pick);
      var op := WaitingOp(st, input.value, now, pick);
      if op.Some? { W.BufferAfterOne(st.waiting, At(now, op.value), st.config.merge); }
    }
  }

  /** One event is its operations on the waiting buffer. */
  lemma StepRunsBuffer(st: State, e: Timed<Event>)
    requires Ascending(st.universes) && Sound(e.event)
    ensures Step(st, e).0.waiting == W.BufferAfter(st.waiting, BufferOps(st, e), st.config.merge)
  {
    match e.event
    case BeginRound(_, _) => W.BufferAfterOne(st.waiting, At(e.now, W.Expire), st.config.merge);
    case Recv(input, pick) => InputRunsBuffer(st, e.now, input, pick);
    case ClearAllWaiting => W.BufferAfterOne(st.waiting, At(e.now, W.DropAll), st.config.merge);
    case ClearWaiting(u) => W.BufferAfterOne(st.waiting, At(e.now, W.Drop(u)), st.config.merge);
    case _ =>
  }

  lemma SoundBefore(evs: seq<Timed<Event>>, n: nat)
    requires AllSound(evs) && n <= |evs|
    ensures AllSound(evs[..n])
  {
    forall i | 0 <= i < n ensures Sound(evs[..n][i].event) {
      assert evs[..n][i] == evs[i];
    }
  }

  /** Over a whole run the receiver's waiting buffer is the run of those operations. */
  lemma {:induction false} RunsBuffer(st: State, evs: seq<Timed<Event>>)
    requires Ascending(st.universes) && AllSound(evs)
    ensures After(st, evs).waiting == W.BufferAfter(st.waiting, RunBufferOps(st, evs), st.config.merge)
  {
    if evs != [] {
      var init, e := evs[..|evs| - 1], evs[|evs| - 1];
      SoundBefore(evs, |evs| - 1);
      RunsBuffer(st, init);
      var st1 := After(st, init);
      assert After(st, evs) == Step(st1, e).0 by {
        assert evs == init + [e];
        AfterOneMore(st, init, e);
      }
      StepRunsBuffer(st1, e);
      assert RunBufferOps(st, evs) == RunBufferOps(st, init) + BufferOps(st1, e);
      W.BufferAfterJoin(st.waiting, RunBufferOps(st, init), BufferOps(st1, e), st.config.merge);
    }
  }

  /** The event is a live synchronised data packet, taken in and kept as `d`. */
  ghost predicate Stores(st: State, e: Timed<Event>, d: DmxData) {
    && e.event.Recv? && e.event.input.Done?
    && var p := e.event.input.value;
       && p.data.DataPacket? && p.data.data.syncAddr != E131_NO_SYNC_ADDR && Checked(st, p).Some?
       && IsItem(d, p.cid, p.data.data, e.now)
  }

  lemma PutIsStored(st: State, e: Timed<Event>, now: nat, d: DmxData)
    requires At(now, W.Put(d)) in BufferOps(st, e)
    ensures Stores(st, e, d)
  {
  }

  /** The event that an operation of a run comes from. */
  lemma OpOrigin(st: State, evs: seq<Timed<Event>>, i: nat) returns (m: nat)
    requires Ascending(st.universes) && i < |RunBufferOps(st, evs)|
    ensures m < |evs| && RunBufferOps(st, evs)[i] in BufferOps(After(st, evs[..m]), evs[m])
  {
    var n := |evs| - 1;
    var init := evs[..n];
    if i < |RunBufferOps(st, init)| {
      m := OpOrigin(st, init, i);
      assert init[..m] == evs[..m];
    } else {
      m := n;
    }
  }

  lemma {:induction false} RunOpsExtend(st: State, evs: seq<Timed<Event>>, n: nat)
    requires Ascending(st.universes) && n <= |evs|
    ensures RunBufferOps(st, evs[..n]) <= RunBufferOps(st, evs)
  {
    if n < |evs| {
      RunOpsExtend(st, evs[..|evs| - 1], n);
      assert evs[..|evs| - 1][..n] == evs[..n];
    } else {
      assert evs[..n] == evs;
    }
  }

  /** A synchronisation packet that hands out data is the run's operation that releases it. */
  lemma ReleaseIsTake(st: State, e: Timed<Event>, p: P.Packet, s: SyncFraming)
    requires Ascending(st.universes) && p.data == SyncPacket(s) && InDataRange(s.syncAddr)
    requires e.event.Recv? && e.event.input == Done(p) && Step(st, e).1.Data?
    ensures BufferOps(st, e) == [At(e.now, W.Take(s.syncAddr))]
    ensures Step(st, e).1.items == W.Released(st.waiting, s.syncAddr, e.now)
  {
    HandleRunsWaitingOp(st, p, e.now, e.event.pick);
  }

  /** The operations `before`, then the one that takes `items`, which wait for the address. */
  ghost predicate Takes(ops: seq<Timed<W.Op>>, before: seq<Timed<W.Op>>, now: nat, sync: u16, items: set<DmxData>,
                        w0: W.Buffer, merge: MergeFn) {
    && StandsAfter(ops, before, At(now, W.Take(sync)))
    && items == W.Released(W.BufferAfter(w0, before, merge), sync, now)
  }

  /** The operation stands right behind `before`. */
  ghost predicate StandsAfter(ops: seq<Timed<W.Op>>, before: seq<Timed<W.Op>>, op: Timed<W.Op>) {
    |before| < |ops| && ops[..|before|] == before && ops[|before|] == op
  }

  lemma {:induction false} OpStands(st0: State, evs: seq<Timed<Event>>, n: nat, op: Timed<W.Op>)
    requires Ascending(st0.universes) && n < |evs| && BufferOps(After(st0, evs[..n]), evs[n]) == [op]
    ensures StandsAfter(RunBufferOps(st0, evs), RunBufferOps(st0, evs[..n]), op)
  {
    RunOpsExtend(st0, evs, n + 1);
    var (upto, before) := (RunBufferOps(st0, evs[..n + 1]), RunBufferOps(st0, evs[..n]));
    assert evs[..n + 1][..n] == evs[..n] && evs[..n + 1][n] == evs[n];
    assert upto == before + [op];
    assert RunBufferOps(st0, evs)[..|before| + 1] == upto;
  }

  /** Where a synchronisation packet's release stands among the run's operations. */
  lemma {:induction false} TakeStands(st0: State, evs: seq<Timed<Event>>, n: nat, p: P.Packet, s: SyncFraming)
    requires Ascending(st0.universes) && AllSound(evs) && n < |evs|
    requires evs[n].event.Recv? && evs[n].event.input == Done(p) && p.data == SyncPacket(s)
    requires Step(After(st0, evs[..n]), evs[n]).1.Data?
    ensures Takes(RunBufferOps(st0, evs), RunBufferOps(st0, evs[..n]), evs[n].now, s.syncAddr,
                  Step(After(st0, evs[..n]), evs[n]).1.items, st0.waiting, st0.config.merge)
  {
    var st, e := After(st0, evs[..n]), evs[n];
    assert Sound(e.event);
    ReleaseIsTake(st, e, p, s);
    OpStands(st0, evs, n, At(e.now, W.Take(s.syncAddr)));
    SoundBefore(evs, n);
    RunsBuffer(st0, evs[..n]);
  }

  /** The packet that the operation stored came with an earlier event. */
  lemma StoredEarlier(st0: State, evs: seq<Timed<Event>>, n: nat, i: nat, d: DmxData) returns (m: nat)
    requires Ascending(st0.universes) && n <= |evs|
    requires i < |RunBufferOps(st0, evs[..n])| && RunBufferOps(st0, evs[..n])[i].event == W.Put(d)
    ensures m < n && Stores(After(st0, evs[..m]), evs[m], d)
  {
    m := OpOrigin(st0, evs[..n], i);
    assert evs[..n][..m] == evs[..m];
    PutIsStored(After(st0, evs[..m]), evs[m], RunBufferOps(st0, evs[..n])[i].now, d);
  }

  /** The packet came with an earlier event of the run, less than 2.5 s before event `n`. */
  ghost predicate CameIn(st0: State, evs: seq<Timed<Event>>, n: nat, d: DmxData)
    requires Ascending(st0.universes) && n < |evs|
  {
    exists m | 0 <= m < n :: Stores(After(st0, evs[..m]), evs[m], d) && evs[n].now - evs[m].now < DATA_LOSS_TIMEOUT
  }

  lemma {:induction false} ReleaseIsOwed(st0: State, evs: seq<Timed<Event>>, n: nat, sync: u16,
          ops: seq<Timed<W.Op>>, before: seq<Timed<W.Op>>, x: W.Item)
    requires Ascending(st0.universes) && n < |evs| && before == RunBufferOps(st0, evs[..n])
    requires StandsAfter(ops, before, At(evs[n].now, W.Take(sync))) && x in W.ReleasedAt(ops, |before|)
    ensures W.Conserved(ops, |before|, x) && x.data.syncUni == sync && CameIn(st0, evs, n, x.data)
  {
    W.SyncReleaseIsConserved(ops, |before|, x);
    assert before[x.id] == ops[..|before|][x.id];
    var m := StoredEarlier(st0, evs, n, x.id, x.data);
  }

  lemma TakesReleases(ops: seq<Timed<W.Op>>, before: seq<Timed<W.Op>>, now: nat, sync: u16, items: set<DmxData>)
    requires Takes(ops, before, now, sync, items, map[], DiscardLowestPriorityThenPrevious)
    ensures items == W.EraseItems(W.ReleasedAt(ops, |before|))
  {
    W.TaggedReleasesAreReleases(ops, |before|);
  }

  /**
   * In any run of a receiver with the default merge: whatever a synchronisation packet hands out was brought in by an
   * earlier live data packet that asked for its address, less than 2.5 s before, has waited in between without being
   * replaced, cleared or expired, and is handed out this once.
   */
  lemma ReleasesAreConserved(config: Config, evs: seq<Timed<Event>>, n: nat, p: P.Packet,
          s: SyncFraming) returns (j: nat)
    requires config.merge == DiscardLowestPriorityThenPrevious && AllSound(evs)
    requires n < |evs| && evs[n].event.Recv? && evs[n].event.input == Done(p) && p.data == SyncPacket(s)
    requires Step(After(Initial(config), evs[..n]), evs[n]).1.Data?
    ensures
      var (ops, out) := (RunBufferOps(Initial(config), evs), Step(After(Initial(config), evs[..n]), evs[n]).1);
      && j < |ops| && ops[j] == At(evs[n].now, W.Take(s.syncAddr)) && out.items == W.EraseItems(W.ReleasedAt(ops, j))
      && forall x | x in W.ReleasedAt(ops, j) ::
           W.Conserved(ops, j, x) && x.data.syncUni == s.syncAddr && CameIn(Initial(config), evs, n, x.data)
  {
    var st0 := Initial(config);
    var before, ops := RunBufferOps(st0, evs[..n]), RunBufferOps(st0, evs);
    j := |before|;
    TakeStands(st0, evs, n, p, s);
    TakesReleases(ops, before, evs[n].now, s.syncAddr, Step(After(st0, evs[..n]), evs[n]).1.items);
    forall x | x in W.ReleasedAt(ops, j)
      ensures W.Conserved(ops, j, x) && x.data.syncUni == s.syncAddr && CameIn(st0, evs, n, x.data)
    {
      ReleaseIsOwed(st0, evs, n, s.syncAddr, ops, before, x);
    }
  }
}
