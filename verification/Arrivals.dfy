/** What reaches a receiver from a sender, among everything else that reaches it. */
module Arrivals {
  import opened Types
  import opened P = Packet
  import opened S = Sequencing
  import opened R = Receiver
  import Codec

  lemma BufferedIsPadded(dgram: Bytes)
    requires |dgram| <= RCV_BUF_DEFAULT_SIZE
    ensures Buffered(dgram) == dgram + Zeros(RCV_BUF_DEFAULT_SIZE - |dgram|)
  {
  }

  lemma DatagramOfPadded(dgram: Bytes, r: Parsed<P.Packet>)
    requires |dgram| <= RCV_BUF_DEFAULT_SIZE
    requires Parse(dgram + Zeros(RCV_BUF_DEFAULT_SIZE - |dgram|)) == r
    ensures Datagram(dgram) == r
  {
    BufferedIsPadded(dgram);
  }

  /** A datagram that carries a valid packet is read as that packet. */
  lemma DatagramIsPacket(p: P.Packet)
    requires Valid(p)
    ensures Datagram(Encode(p)) == Done(p)
  {
    Codec.PackedFitsReceiveBuffer(p);
    Codec.RoundTrip(p, Zeros(RCV_BUF_DEFAULT_SIZE - Len(p)));
    DatagramOfPadded(Encode(p), Done(p));
  }

  /** A datagram out of a sender's log that a round of receiving reads, or anything else. */
  datatype Arrival = Own(now: nat, index: nat, pick: Pick) | Other(now: nat, event: Event)

  /** The numbers of the log's packets that arrive, in the order they arrive in. */
  function Indices(a: seq<Arrival>): (r: seq<nat>)
    ensures |r| <= |a|
    decreases |a|
  {
    if a == [] then [] else if a[0].Own? then [a[0].index] + Indices(a[1..]) else Indices(a[1..])
  }

  ghost predicate InLog(a: seq<Arrival>, log: seq<P.Packet>) {
    forall i | 0 <= i < |a| && a[i].Own? :: a[i].index < |log|
  }

  /** A datagram of the log is read as its packet (DatagramIsPacket). */
  function EventOf(a: Arrival, log: seq<P.Packet>): Timed<Event>
    requires a.Own? ==> a.index < |log|
  {
    match a
    case Own(now, k, pick) => At(now, Recv(Done(log[k]), pick))
    case Other(now, event) => At(now, event)
  }

  /** The run that the arrivals are. */
  function EventsOf(a: seq<Arrival>, log: seq<P.Packet>): (r: seq<Timed<Event>>)
    requires InLog(a, log)
    ensures |r| == |a| && forall i | 0 <= i < |a| :: r[i] == EventOf(a[i], log)
  {
    seq(|a|, i requires 0 <= i < |a| => EventOf(a[i], log))
  }

  /** The state once everything has arrived. */
  function Final(st: State, log: seq<P.Packet>, a: seq<Arrival>): (r: State)
    requires Ascending(st.universes) && InLog(a, log)
    ensures SameConfig(st, r)
    decreases |a|
  {
    if a == [] then st
    else
      StepKeepsConfig(st, EventOf(a[0], log));
      Final(Step(st, EventOf(a[0], log)).0, log, a[1..])
  }
}
