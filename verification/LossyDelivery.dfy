/** Sender, wire and receiver together: a sender's packets delivered with losses, repetitions and out of order. */
module LossyDelivery {
  import opened Types
  import opened P = Packet
  import opened S = Sequencing
  import opened R = Receiver
  import opened RR = ReceiverRuns
  import opened SR = SenderRuns
  import opened WireValidity
  import opened Arrivals
  import opened Delivery
  import Q = SequenceRuns
  import Sender

  /**
   * The packets of a stream that arrive and are judged, in the order they arrive in, each with its true index: how many
   * the sender had sent on the stream before it.
   */
  function Heard(st: State, log: seq<P.Packet>, a: seq<Arrival>, kind: Kind, cid: Cid, u: u16): seq<Q.Indexed>
    requires Ascending(st.universes) && InLog(a, log)
    decreases |a|
  {
    if a == [] then []
    else
      StepKeepsConfig(st, EventOf(a[0], log));
      (if a[0].Own? && Judges(st, EventOf(a[0], log), kind, cid, u)
       then [Q.Indexed(a[0].now, Count(log[..a[0].index], kind, u))] else [])
      + Heard(Step(st, EventOf(a[0], log)).0, log, a[1..], kind, cid, u)
  }

  /** The source is not forgotten: none of its terminations of the stream arrives, and the receiver is not reset. */
  ghost predicate KeepsOn(x: Arrival, log: seq<P.Packet>, cid: Cid, u: u16)
    requires x.Own? ==> x.index < |log|
  {
    match x
    case Own(_, k, _) => !(OnData(log[k], u) && log[k].data.data.terminated)
    case Other(_, event) => Foreign(event, cid) && Sound(event) && !event.ResetSources?
  }

  ghost predicate AllKeepOn(a: seq<Arrival>, log: seq<P.Packet>, cid: Cid, u: u16)
    requires InLog(a, log)
  {
    forall i | 0 <= i < |a| :: KeepsOn(a[i], log, cid, u)
  }

  /** What one arrival is to the stream. */
  lemma {:induction false} ArrivalProjects(st: State, log: seq<P.Packet>, x: Arrival, kind: Kind, cid: Cid, u: u16)
    requires ValidLog(log, cid) && (x.Own? ==> x.index < |log|) && KeepsOn(x, log, cid, u)
    ensures
      Q.Project(TableOps(st, EventOf(x, log), kind), cid, u)
      == if x.Own? && Judges(st, EventOf(x, log), kind, cid, u)
         then [Q.Packet(x.now, Count(log[..x.index], kind, u) % 0x100)] else []
  {
    var ops := TableOps(st, EventOf(x, log), kind);
    if ops != [] { assert ops[1..] == []; }
    if x.Own? && Checked(st, log[x.index]).Some? {
      assert NumberedAfter(log[..x.index], log[x.index]);
      CheckedIsNumbered(st, log[..x.index], log[x.index]);
    }
  }

  lemma {:induction false} ProjectOfJoin(a: seq<Timed<Q.TableEvent>>, b: seq<Timed<Q.TableEvent>>, c: Cid, u: u16)
    ensures Q.Project(a + b, c, u) == Q.Project(a, c, u) + Q.Project(b, c, u)
    decreases |a|
  {
    if a == [] {
      assert a + b == b;
    } else {
      assert (a + b)[1..] == a[1..] + b && (a + b)[0] == a[0];
      ProjectOfJoin(a[1..], b, c, u);
    }
  }

  lemma ReceivedUnfolds(x: Q.Indexed, rest: seq<Q.Indexed>)
    ensures Q.Received([x] + rest) == [Q.Packet(x.now, x.index % 0x100)] + Q.Received(rest)
  {
  }

  lemma TailOfEvents(a: seq<Arrival>, log: seq<P.Packet>)
    requires a != [] && InLog(a, log)
    ensures InLog(a[1..], log) && EventsOf(a, log)[1..] == EventsOf(a[1..], log)
  {
  }

  /** Over a run, the stream's own events are the packets heard. */
  lemma {:induction false} RunProjects(st: State, log: seq<P.Packet>, a: seq<Arrival>, kind: Kind, cid: Cid, u: u16)
    requires Ascending(st.universes) && ValidLog(log, cid) && InLog(a, log) && AllKeepOn(a, log, cid, u)
    ensures Q.Project(RunOps(st, EventsOf(a, log), kind), cid, u) == Q.Received(Heard(st, log, a, kind, cid, u))
    decreases |a|
  {
    if a != [] {
      var e := EventOf(a[0], log);
      var st' := Step(st, e).0;
      StepKeepsConfig(st, e);
      TailOfEvents(a, log);
      assert EventsOf(a, log)[0] == e;
      ArrivalProjects(st, log, a[0], kind, cid, u);
      RunProjects(st', log, a[1..], kind, cid, u);
      ProjectOfJoin(TableOps(st, e, kind), RunOps(st', EventsOf(a[1..], log), kind), cid, u);
      if a[0].Own? && Judges(st, e, kind, cid, u) {
        ReceivedUnfolds(Q.Indexed(a[0].now, Count(log[..a[0].index], kind, u)), Heard(st', log, a[1..], kind, cid, u));
      }
    }
  }

  lemma EventsAreSound(a: seq<Arrival>, log: seq<P.Packet>, cid: Cid, u: u16)
    requires ValidLog(log, cid) && InLog(a, log) && AllKeepOn(a, log, cid, u)
    ensures AllSound(EventsOf(a, log))
  {
    forall i | 0 <= i < |a| ensures Sound(EventOf(a[i], log).event) {
      assert KeepsOn(a[i], log, cid, u);
    }
  }

  /**
   * Everything a sender has put on the wire in any run, delivered with any losses and repetitions and in any order,
   * among any other traffic, to a receiver with any source limit that announces timeouts or not: of a tracked stream,
   * of data or of synchronisation packets, exactly the running maxima of the sender's own count get through, as long
   * as each packet comes within the window and before the last one accepted expires. What getting through means for
   * the caller is stated in ReceiverRuns.JudgedComesOut, and what becomes of a packet that comes not to be judged in
   * Receiver.LostPacket.
   */
  lemma {:induction false} MaximaOfTheLog(cid: Cid, name: Bytes, script: seq<bool>, ops: seq<Sender.Op>, st: State,
                        a: seq<Arrival>, kind: Kind, u: u16, h: nat, last: nat)
    requires ValidName(name) && AllClean(Sender.Initial(cid, name, script), ops)
    requires forall i | 0 <= i < |ops| :: WireSafe(ops[i])
    requires Legible(st) && Entry(TableOf(st, kind), cid, u) == Some(Stamp(h % 0x100, last))
    requires
      var log := SR.After(Sender.Initial(cid, name, script), ops).sent;
      && InLog(a, log) && AllKeepOn(a, log, cid, u)
      && AllowedRun(st, EventsOf(a, log)) && ClockRuns(EventsOf(a, log), 0)
      && Q.InWindow(Heard(st, log, a, kind, cid, u), h, last)
    ensures
      var log := SR.After(Sender.Initial(cid, name, script), ops).sent;
      var (heard, v) := (Heard(st, log, a, kind, cid, u), Verdicts(st, EventsOf(a, log), kind, cid, u));
      && (forall i | 0 <= i < |log| :: Datagram(Encode(log[i])) == Done(log[i]))
      && |v| == |heard| && forall i | 0 <= i < |v| :: v[i].Ok? <==> Q.NewMaximum(heard, h, i)
  {
    SentLog(cid, name, script, ops);
    var log := SR.After(Sender.Initial(cid, name, script), ops).sent;
    forall i | 0 <= i < |log| ensures Datagram(Encode(log[i])) == Done(log[i]) { DatagramIsPacket(log[i]); }
    EventsAreSound(a, log, cid, u);
    RunProjects(st, log, a, kind, cid, u);
    RunningMaximaGetThrough(st, EventsOf(a, log), kind, cid, u, Heard(st, log, a, kind, cid, u), h, last);
  }

  /** The same of a stream that the receiver does not track yet, such as any stream of a new receiver. */
  lemma {:induction false} MaximaOfTheLogFromTheFirst(cid: Cid, name: Bytes, script: seq<bool>, ops: seq<Sender.Op>,
                        st: State, a: seq<Arrival>, kind: Kind, u: u16) returns (n: nat)
    requires ValidName(name) && AllClean(Sender.Initial(cid, name, script), ops)
    requires forall i | 0 <= i < |ops| :: WireSafe(ops[i])
    requires Legible(st) && Entry(TableOf(st, kind), cid, u).None?
    requires
      var log := SR.After(Sender.Initial(cid, name, script), ops).sent;
      && InLog(a, log) && AllKeepOn(a, log, cid, u)
      && AllowedRun(st, EventsOf(a, log)) && ClockRuns(EventsOf(a, log), 0)
    ensures
      var log := SR.After(Sender.Initial(cid, name, script), ops).sent;
      && Q.PassesFrom(Verdicts(st, EventsOf(a, log), kind, cid, u), Heard(st, log, a, kind, cid, u), n)
      && (st.config.limit.None? ==> n == 0)
  {
    SentLog(cid, name, script, ops);
    var log := SR.After(Sender.Initial(cid, name, script), ops).sent;
    EventsAreSound(a, log, cid, u);
    RunProjects(st, log, a, kind, cid, u);
    n := MaximaFromTheFirst(st, EventsOf(a, log), kind, cid, u, Heard(st, log, a, kind, cid, u));
  }
}
