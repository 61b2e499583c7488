/** What the sequence tables accept over whole runs. */
module SequenceRuns {
  import opened Types
  import opened Sequencing

  // ------------------------------------------- the table as one state machine

  datatype TableEvent =
    | Arrive(cid: Cid, universe: u16, seqNo: byte)
    | SweepOnly(pick: Pick)
    | Terminate(cid: Cid, universe: u16)
    | Forget

  /**
   * One event on a table. An arrival is a packet whose check reports no timeout; a check that does report one is a
   * sweep, since it never comes to judge its packet.
   */
  function TableStep(t: Table, limit: Option<nat>, announce: bool, e: Timed<TableEvent>): (Table, Result<Unit>) {
    match e.event
    case Arrive(c, u, n) => CheckSeq(t, limit, c, n, u, e.now, announce, None)
    case SweepOnly(pick) => (Sweep(t, e.now, announce, pick).0, Ok(Unit))
    case Terminate(c, u) => (RemoveEntry(t, c, u), Ok(Unit))
    case Forget => (map[], Ok(Unit))
  }

  ghost predicate AllowedOp(t: Table, announce: bool, e: Timed<TableEvent>) {
    announce && e.event.SweepOnly? ==> AllowedPick(t, e.now, e.event.pick)
  }

  /** What the sweeps of a run report is something they can. */
  ghost predicate AllowedOps(t: Table, limit: Option<nat>, announce: bool, evs: seq<Timed<TableEvent>>)
    decreases |evs|
  {
    evs == [] ||
    (&& AllowedOp(t, announce, evs[0])
     && AllowedOps(TableStep(t, limit, announce, evs[0]).0, limit, announce, evs[1..]))
  }

  predicate Concerns(e: TableEvent, c: Cid, u: u16) {
    e.Forget? || (!e.SweepOnly? && e.cid == c && e.universe == u)
  }

  /** The verdicts on one stream's packets while everything else goes on around them. */
  function StreamVerdicts(t: Table, limit: Option<nat>, announce: bool, evs: seq<Timed<TableEvent>>, c: Cid, u: u16)
    : seq<Result<Unit>>
    decreases |evs|
  {
    if evs == [] then []
    else
      var (t', r) := TableStep(t, limit, announce, evs[0]);
      (if evs[0].event.Arrive? && Concerns(evs[0].event, c, u) then [r] else [])
      + StreamVerdicts(t', limit, announce, evs[1..], c, u)
  }

  // ------------------------------------------------- one stream on its own

  datatype StreamEvent = Packet(now: nat, seqNo: byte) | Ended

  /** One stream's events out of a run. */
  function Project(evs: seq<Timed<TableEvent>>, c: Cid, u: u16): seq<StreamEvent>
    decreases |evs|
  {
    if evs == [] then []
    else if !Concerns(evs[0].event, c, u) then Project(evs[1..], c, u)
    else [if evs[0].event.Arrive? then Packet(evs[0].now, evs[0].event.seqNo) else Ended] + Project(evs[1..], c, u)
  }

  /** Expiry looked at only when the stream's own next packet arrives. */
  function LazyStep(e: Option<Stamp>, now: nat, seqNo: byte): (Option<Stamp>, Result<Unit>) {
    if e.None? || Expired(e.value, now) then (Some(Stamp(seqNo, now)), Ok(Unit))
    else
      var diff := SeqDiff(seqNo, e.value.seqNo);
      if Discard(diff) then (e, Err(OutOfSequence(seqNo, e.value.seqNo, diff)))
      else (Some(Stamp(seqNo, now)), Ok(Unit))
  }

  function LazyVerdicts(e: Option<Stamp>, evs: seq<StreamEvent>): seq<Result<Unit>>
    decreases |evs|
  {
    if evs == [] then []
    else match evs[0]
      case Ended => LazyVerdicts(None, evs[1..])
      case Packet(now, n) =>
        var (e', r) := LazyStep(e, now, n);
        [r] + LazyVerdicts(e', evs[1..])
  }

  /** What the swept table still knows of a stream, against what a table that never sweeps knows. */
  ghost predicate Agree(eager: Option<Stamp>, lazy: Option<Stamp>, now: nat) {
    eager == lazy || (eager.None? && lazy.Some? && Expired(lazy.value, now))
  }

  lemma StepKeepsAgreement(t: Table, e: Timed<TableEvent>, c: Cid, u: u16, lazy: Option<Stamp>, before: nat)
    requires before <= e.now && Agree(Entry(t, c, u), lazy, before)
    ensures
      var (t', r) := TableStep(t, None, false, e);
      if !Concerns(e.event, c, u) then Agree(Entry(t', c, u), lazy, e.now)
      else if e.event.Arrive? then LazyStep(lazy, e.now, e.event.seqNo) == (Entry(t', c, u), r)
      else Entry(t', c, u) == None
  {
    EntryOfPurge(t, e.now, c, u);
    match e.event
    case SweepOnly(_) =>
    case Forget =>
    case Terminate(c', u') => EntryOfRemove(t, c', u', c, u);
    case Arrive(c', u', n) =>
      EntryOfJudge(Purge(t, e.now), None, c', n, u', e.now, c, u);
      FirstPacketPasses(n);
  }

  /**
   * Without a source limit and without announcements, sweeping every stream at every packet decides nothing: the
   * verdicts on a stream depend on that stream's own timed packets and terminations alone.
   */
  lemma {:induction false} EagerIsLazy(t: Table, evs: seq<Timed<TableEvent>>, c: Cid, u: u16, lazy: Option<Stamp>,
          from: nat)
    requires ClockRuns(evs, from) && Agree(Entry(t, c, u), lazy, from)
    ensures StreamVerdicts(t, None, false, evs, c, u) == LazyVerdicts(lazy, Project(evs, c, u))
    decreases |evs|
  {
    if evs != [] {
      var e := evs[0];
      var t' := TableStep(t, None, false, e).0;
      StepKeepsAgreement(t, e, c, u, lazy, from);
      var lazy' := if !Concerns(e.event, c, u) then lazy
                   else if e.event.Arrive? then LazyStep(lazy, e.now, e.event.seqNo).0 else None;
      EagerIsLazy(t', evs[1..], c, u, lazy', e.now);
      if Concerns(e.event, c, u) {
        assert Project(evs, c, u)[1..] == Project(evs[1..], c, u);
      }
    }
  }

  /** Two runs that agree on a stream's own events agree on its verdicts, whatever else happens in either. */
  lemma {:induction false} StreamsDoNotInterfere(t: Table, evs: seq<Timed<TableEvent>>, t': Table,
          evs': seq<Timed<TableEvent>>, c: Cid, u: u16)
    requires ClockRuns(evs, 0) && ClockRuns(evs', 0)
    requires Entry(t, c, u) == Entry(t', c, u) && Project(evs, c, u) == Project(evs', c, u)
    ensures StreamVerdicts(t, None, false, evs, c, u) == StreamVerdicts(t', None, false, evs', c, u)
  {
    EagerIsLazy(t, evs, c, u, Entry(t, c, u), 0);
    EagerIsLazy(t', evs', c, u, Entry(t', c, u), 0);
  }

  // ------------------------------ 8-bit numbers against an unbounded counter

  /** A packet whose true index is `m` passes an entry that holds `h` exactly when it is 1 to 236 ahead modulo 256. */
  lemma AcceptedIffAhead(m: int, h: int)
    ensures !Discard(SeqDiff(m % 0x100, h % 0x100)) <==> 1 <= (m - h) % 0x100 <= 236
  {
    assert (m % 0x100 - h % 0x100) % 0x100 == (m - h) % 0x100;
  }

  /**
   * Within 19 behind and 236 ahead the window orders packets as the unbounded counter does; one step beyond it errs.
   */
  lemma WindowRefinesCounter(m: int, h: int)
    ensures h - 19 <= m <= h + 236 ==> (!Discard(SeqDiff(m % 0x100, h % 0x100)) <==> m > h)
    ensures m == h + 237 ==> Discard(SeqDiff(m % 0x100, h % 0x100))
    ensures m == h - 20 ==> !Discard(SeqDiff(m % 0x100, h % 0x100))
  {
    AcceptedIffAhead(m, h);
  }

  /** A packet of a stream with its true index. */
  datatype Indexed = Indexed(now: nat, index: nat)

  function Received(a: seq<Indexed>): (r: seq<StreamEvent>)
    ensures |r| == |a|
  {
    seq(|a|, i requires 0 <= i < |a| => Packet(a[i].now, a[i].index % 0x100))
  }

  /** Every packet comes within the window of the highest index so far and before that index expires. */
  ghost predicate InWindow(a: seq<Indexed>, h: nat, last: nat) {
    a == [] ||
    (&& a[0].now - last < DATA_LOSS_TIMEOUT && h - 19 <= a[0].index <= h + 236
     && if a[0].index > h then InWindow(a[1..], a[0].index, a[0].now) else InWindow(a[1..], h, last))
  }

  /** The `i`-th packet exceeds `h` and every packet before it. */
  ghost predicate NewMaximum(a: seq<Indexed>, h: nat, i: nat)
    requires i < |a|
  {
    a[i].index > h && forall j | 0 <= j < i :: a[j].index < a[i].index
  }

  lemma {:induction false} LazyAcceptsMaxima(a: seq<Indexed>, h: nat, last: nat)
    requires InWindow(a, h, last)
    ensures
      var v := LazyVerdicts(Some(Stamp(h % 0x100, last)), Received(a));
      |v| == |a| && forall i | 0 <= i < |a| :: v[i].Ok? <==> NewMaximum(a, h, i)
  {
    if a != [] {
      var v := LazyVerdicts(Some(Stamp(h % 0x100, last)), Received(a));
      var (m, now) := (a[0].index, a[0].now);
      var h', last' := if m > h then m else h, if m > h then now else last;
      WindowRefinesCounter(m, h);
      assert Received(a)[1..] == Received(a[1..]);
      LazyAcceptsMaxima(a[1..], h', last');
      var rest := LazyVerdicts(Some(Stamp(h' % 0x100, last')), Received(a[1..]));
      assert v[1..] == rest;
      forall i | 0 <= i < |a| ensures v[i].Ok? <==> NewMaximum(a, h, i) {
        if i > 0 {
          assert v[i] == rest[i - 1];
          assert a[1..][i - 1] == a[i];
          if NewMaximum(a, h, i) {
            assert forall j | 0 <= j < i - 1 :: a[1..][j] == a[j + 1];
            assert a[0].index < a[i].index;
          }
          if NewMaximum(a[1..], h', i - 1) {
            assert forall j | 0 < j < i :: a[j] == a[1..][j - 1];
          }
        }
      }
    }
  }

  // ------------------------------------------------------------- running maxima

  /**
   * While its entry stands, no source limit and no report of a timeout reaches a stream, and what is judged of it is
   * judged by its own packets alone.
   */
  lemma TrackedStep(t: Table, limit: Option<nat>, announce: bool, e: Timed<TableEvent>, c: Cid, u: u16, s: Stamp)
    requires Entry(t, c, u) == Some(s) && !Expired(s, e.now)
    requires AllowedOp(t, announce, e)
    ensures
      var (t', r) := TableStep(t, limit, announce, e);
      if !Concerns(e.event, c, u) then Entry(t', c, u) == Some(s)
      else e.event.Arrive? ==> (Entry(t', c, u), r) == LazyStep(Some(s), e.now, e.event.seqNo)
  {
    EntryOfPurge(t, e.now, c, u);
    match e.event
    case SweepOnly(pick) => if pick.Some? { EntryOfRemove(t, pick.value.0, pick.value.1, c, u); }
    case Forget =>
    case Terminate(c', u') => EntryOfRemove(t, c', u', c, u);
    case Arrive(c', u', n) => EntryOfJudge(Sweep(t, e.now, announce, None).0, limit, c', n, u', e.now, c, u);
  }

  /** The first of a stream's packets still to come does so no earlier than the run's next event. */
  lemma {:induction false} NextIsLater(evs: seq<Timed<TableEvent>>, from: nat, c: Cid, u: u16, a: seq<Indexed>)
    requires ClockRuns(evs, from) && Project(evs, c, u) == Received(a) && a != []
    ensures evs != [] && from <= evs[0].now <= a[0].now
    decreases |evs|
  {
    var e := evs[0];
    if Concerns(e.event, c, u) {
      assert Project(evs, c, u)[0] == Received(a)[0];
    } else {
      NextIsLater(evs[1..], e.now, c, u, a);
    }
  }

  lemma {:induction false} NoMoreVerdicts(t: Table, limit: Option<nat>, announce: bool, evs: seq<Timed<TableEvent>>,
                        c: Cid, u: u16)
    requires Project(evs, c, u) == []
    ensures StreamVerdicts(t, limit, announce, evs, c, u) == []
    decreases |evs|
  {
    if evs != [] { NoMoreVerdicts(TableStep(t, limit, announce, evs[0]).0, limit, announce, evs[1..], c, u); }
  }

  lemma {:induction false} TrackedIsLazy(t: Table, limit: Option<nat>, announce: bool, evs: seq<Timed<TableEvent>>,
                        from: nat, c: Cid, u: u16, a: seq<Indexed>, h: nat, last: nat)
    requires ClockRuns(evs, from) && AllowedOps(t, limit, announce, evs)
    requires Project(evs, c, u) == Received(a) && InWindow(a, h, last)
    requires Entry(t, c, u) == Some(Stamp(h % 0x100, last))
    ensures StreamVerdicts(t, limit, announce, evs, c, u) == LazyVerdicts(Some(Stamp(h % 0x100, last)), Received(a))
    decreases |evs|
  {
    if a == [] {
      NoMoreVerdicts(t, limit, announce, evs, c, u);
    } else {
      NextIsLater(evs, from, c, u, a);
      var e := evs[0];
      var (t', r) := TableStep(t, limit, announce, e);
      TrackedStep(t, limit, announce, e, c, u, Stamp(h % 0x100, last));
      if Concerns(e.event, c, u) {
        var m := a[0].index;
        TailOfProject(evs, c, u, a);
        WindowRefinesCounter(m, h);
        TrackedIsLazy(t', limit, announce, evs[1..], e.now, c, u, a[1..], if m > h then m else h,
                      if m > h then e.now else last);
      } else {
        TrackedIsLazy(t', limit, announce, evs[1..], e.now, c, u, a, h, last);
      }
    }
  }

  lemma {:induction false} TailOfProject(evs: seq<Timed<TableEvent>>, c: Cid, u: u16, a: seq<Indexed>)
    requires evs != [] && Concerns(evs[0].event, c, u) && Project(evs, c, u) == Received(a)
    ensures a != [] && evs[0].event.Arrive? && evs[0].now == a[0].now && evs[0].event.seqNo == a[0].index % 0x100
    ensures Project(evs[1..], c, u) == Received(a[1..]) == Received(a)[1..]
  {
    assert Project(evs, c, u)[0] == Received(a)[0] && Project(evs, c, u)[1..] == Project(evs[1..], c, u);
    assert Received(a)[1..] == Received(a[1..]);
  }

  /**
   * In the midst of any other traffic, sweeps and terminations, whatever the source limit and whether timeouts are
   * announced or not, the judged packets that a tracked stream gets through are exactly the strict running maxima of
   * its unbounded counter.
   */
  lemma {:induction false} AcceptedAreRunningMaxima(t: Table, limit: Option<nat>, announce: bool,
                        evs: seq<Timed<TableEvent>>, from: nat, c: Cid, u: u16, a: seq<Indexed>, h: nat, last: nat)
    requires ClockRuns(evs, from) && AllowedOps(t, limit, announce, evs)
    requires Project(evs, c, u) == Received(a) && InWindow(a, h, last)
    requires Entry(t, c, u) == Some(Stamp(h % 0x100, last))
    ensures
      var v := StreamVerdicts(t, limit, announce, evs, c, u);
      |v| == |a| && forall i | 0 <= i < |a| :: v[i].Ok? <==> NewMaximum(a, h, i)
  {
    TrackedIsLazy(t, limit, announce, evs, from, c, u, a, h, last);
    LazyAcceptsMaxima(a, h, last);
  }

  /** From the `n`-th packet on, exactly the running maxima pass. */
  ghost predicate MaximaFrom(v: seq<Result<Unit>>, a: seq<Indexed>, n: nat)
    requires |v| == |a|
  {
    forall i | n < i < |a| :: v[i].Ok? <==> forall j | n <= j < i :: a[j].index < a[i].index
  }

  /** The first `n` packets are turned away by a full table; the next is let in, and then the running maxima pass. */
  ghost predicate PassesFrom(v: seq<Result<Unit>>, a: seq<Indexed>, n: nat) {
    && |v| == |a| >= n && (forall i | 0 <= i < n :: v[i].Err? && v[i].error.SourcesExceeded?)
    && (n < |a| ==> v[n].Ok?)
    && (n < |a| && InWindow(a[n + 1..], a[n].index, a[n].now) ==> MaximaFrom(v, a, n))
  }

  /** A stream that is not tracked stays so until its next packet, which passes unless the table is full. */
  lemma UntrackedStep(t: Table, limit: Option<nat>, announce: bool, e: Timed<TableEvent>, c: Cid, u: u16)
    requires Entry(t, c, u).None?
    ensures
      var (t', r) := TableStep(t, limit, announce, e);
      if e.event.Arrive? && Concerns(e.event, c, u) then
        if r.Ok? then Entry(t', c, u) == Some(Stamp(e.event.seqNo, e.now))
        else Entry(t', c, u).None? && limit.Some? && r.error.SourcesExceeded?
      else Entry(t', c, u).None?
  {
    EntryOfPurge(t, e.now, c, u);
    match e.event
    case SweepOnly(pick) => if pick.Some? { EntryOfRemove(t, pick.value.0, pick.value.1, c, u); }
    case Forget =>
    case Terminate(c', u') => EntryOfRemove(t, c', u', c, u);
    case Arrive(c', u', n) => FirstIsJudged(Sweep(t, e.now, announce, None).0, limit, c', n, u', e.now, c, u);
  }

  lemma FirstIsJudged(t: Table, limit: Option<nat>, c: Cid, n: byte, u: u16, now: nat, c': Cid, u': u16)
    requires Entry(t, c', u').None?
    ensures
      var (t', r) := Judge(t, limit, c, n, u, now);
      if c == c' && u == u' && r.Ok? then Entry(t', c', u') == Some(Stamp(n, now)) else Entry(t', c', u').None?
    ensures
      var r := Judge(t, limit, c, n, u, now).1;
      c == c' && u == u' && r.Err? ==> limit.Some? && r.error.SourcesExceeded?
  {
    EntryOfJudge(t, limit, c, n, u, now, c', u');
    if c == c' && u == u' { FirstPacketPasses(n); }
  }

  /**
   * The same of a stream that is not tracked yet: a full table may turn its packets away at first; from the first one
   * let in, exactly the running maxima pass.
   */
  lemma FromTheFirst(t: Table, limit: Option<nat>, announce: bool, evs: seq<Timed<TableEvent>>, from: nat, c: Cid,
                     u: u16, a: seq<Indexed>) returns (n: nat)
    requires ClockRuns(evs, from) && AllowedOps(t, limit, announce, evs)
    requires Project(evs, c, u) == Received(a) && Entry(t, c, u).None?
    ensures PassesFrom(StreamVerdicts(t, limit, announce, evs, c, u), a, n) && (limit.None? ==> n == 0)
    decreases |evs|
  {
    if a == [] {
      NoMoreVerdicts(t, limit, announce, evs, c, u);
      n := 0;
    } else {
      NextIsLater(evs, from, c, u, a);
      var e := evs[0];
      var (t', r) := TableStep(t, limit, announce, e);
      UntrackedStep(t, limit, announce, e, c, u);
      var v, rest := StreamVerdicts(t, limit, announce, evs, c, u),
        StreamVerdicts(t', limit, announce, evs[1..], c, u);
      assert v == (if Concerns(e.event, c, u) && e.event.Arrive? then [r] else []) + rest;
      if !Concerns(e.event, c, u) {
        assert v == rest;
        n := FromTheFirst(t', limit, announce, evs[1..], e.now, c, u, a);
      } else {
        TailOfProject(evs, c, u, a);
        if r.Ok? {
          n := 0;
          MaximaFromFirst(t, limit, announce, evs, c, u, a);
        } else {
          var m := FromTheFirst(t', limit, announce, evs[1..], e.now, c, u, a[1..]);
          n := m + 1;
          OneMoreTurnedAway(r, StreamVerdicts(t', limit, announce, evs[1..], c, u), a, m);
        }
      }
    }
  }

  /** The run's first event brings the stream's first packet, which is let in. */
  lemma {:induction false} MaximaFromFirst(t: Table, limit: Option<nat>, announce: bool, evs: seq<Timed<TableEvent>>,
                        c: Cid, u: u16, a: seq<Indexed>)
    requires evs != [] && ClockRuns(evs, evs[0].now) && AllowedOps(t, limit, announce, evs)
    requires Project(evs, c, u) == Received(a) && Entry(t, c, u).None? && Concerns(evs[0].event, c, u)
    requires evs[0].event.Arrive? && TableStep(t, limit, announce, evs[0]).1.Ok?
    ensures
      var v := StreamVerdicts(t, limit, announce, evs, c, u);
      |v| == |a| > 0 && v[0].Ok? && (InWindow(a[1..], a[0].index, a[0].now) ==> MaximaFrom(v, a, 0))
  {
    var e := evs[0];
    var (t', r) := TableStep(t, limit, announce, e);
    var v, rest := StreamVerdicts(t, limit, announce, evs, c, u),
      StreamVerdicts(t', limit, announce, evs[1..], c, u);
    UntrackedStep(t, limit, announce, e, c, u);
    TailOfProject(evs, c, u, a);
    assert v == [r] + rest;
    CountVerdicts(t', limit, announce, evs[1..], c, u, a[1..]);
    if InWindow(a[1..], a[0].index, e.now) {
      AcceptedAreRunningMaxima(t', limit, announce, evs[1..], e.now, c, u, a[1..], a[0].index, e.now);
      ShiftMaxima(v, rest, a);
    }
  }

  lemma {:induction false} CountVerdicts(t: Table, limit: Option<nat>, announce: bool, evs: seq<Timed<TableEvent>>,
                        c: Cid, u: u16, a: seq<Indexed>)
    requires Project(evs, c, u) == Received(a)
    ensures |StreamVerdicts(t, limit, announce, evs, c, u)| == |a|
    decreases |evs|
  {
    if evs != [] {
      if Concerns(evs[0].event, c, u) { TailOfProject(evs, c, u, a); }
      CountVerdicts(TableStep(t, limit, announce, evs[0]).0, limit, announce, evs[1..], c, u,
                    if Concerns(evs[0].event, c, u) then a[1..] else a);
    }
  }

  lemma ShiftMaxima(v: seq<Result<Unit>>, rest: seq<Result<Unit>>, a: seq<Indexed>)
    requires |v| == |a| > 0 && v[1..] == rest
    requires forall i | 0 <= i < |rest| :: rest[i].Ok? <==> NewMaximum(a[1..], a[0].index, i)
    ensures MaximaFrom(v, a, 0)
  {
    forall i | 0 < i < |a| ensures v[i].Ok? <==> forall j | 0 <= j < i :: a[j].index < a[i].index {
      assert v[i] == rest[i - 1] && a[i] == a[1..][i - 1];
      if NewMaximum(a[1..], a[0].index, i - 1) {
        forall j | 0 <= j < i ensures a[j].index < a[i].index { assert j > 0 ==> a[j] == a[1..][j - 1]; }
      }
    }
  }

  lemma OneMoreTurnedAway(r: Result<Unit>, rest: seq<Result<Unit>>, a: seq<Indexed>, m: nat)
    requires a != [] && PassesFrom(rest, a[1..], m) && r.Err? && r.error.SourcesExceeded?
    ensures PassesFrom([r] + rest, a, m + 1)
  {
    if m + 1 < |a| {
      assert a[1..][m] == a[m + 1] && a[1..][m + 1..] == a[m + 2..];
      if MaximaFrom(rest, a[1..], m) { ShiftFrom([r] + rest, rest, a, m); }
    }
  }

  lemma ShiftFrom(v: seq<Result<Unit>>, rest: seq<Result<Unit>>, a: seq<Indexed>, m: nat)
    requires |v| == |a| > 0 && v[1..] == rest && MaximaFrom(rest, a[1..], m)
    ensures MaximaFrom(v, a, m + 1)
  {
    var b := a[1..];
    forall i | m + 1 < i < |a| ensures v[i].Ok? <==> forall j | m + 1 <= j < i :: a[j].index < a[i].index {
      assert v[i] == rest[i - 1] && a[i] == b[i - 1];
      if forall j | m <= j < i - 1 :: b[j].index < b[i - 1].index {
        forall j | m + 1 <= j < i ensures a[j].index < a[i].index { assert a[j] == b[j - 1]; }
      } else {
        var j :| m <= j < i - 1 && b[j].index >= b[i - 1].index;
        assert a[j + 1] == b[j];
      }
    }
  }
}
