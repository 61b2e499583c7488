/** Sender, wire and receiver together: the pages of a registry, in any order, are read back as that registry. */
module DiscoveryDelivery {
  import opened Types
  import opened P = Packet
  import opened Sequencing
  import opened R = Receiver
  import opened Paging
  import opened Arrivals
  import D = Discovery
  import SR = SenderRuns
  import Sender

  /** Anything that leaves the source's half-collected pages alone: not one of its adverts, no reset, no expiry. */
  ghost predicate Quiet(e: Event, cid: Cid) {
    && Keeps(e)
    && (e.Recv? && e.input.Done? && e.input.value.data.DiscoveryPacket? ==> e.input.value.cid != cid)
  }

  /** No reset and no expiry. */
  ghost predicate Keeps(e: Event) { !e.ResetSources? && !e.RemoveExpired? && Sound(e) }

  ghost predicate AllQuiet(a: seq<Arrival>, cid: Cid) {
    forall i | 0 <= i < |a| && a[i].Other? :: Quiet(a[i].event, cid)
  }

  /** The source is neither added to the list of discovered sources nor taken off it. */
  ghost predicate SameListing(st: State, st': State, cid: Cid) {
    |D.View(st'.discovered, cid)| == |D.View(st.discovered, cid)|
  }

  /**
   * A page is taken in without a word: it completes no source, and nothing changes in what is listed for its own; what
   * is collected of it so far was last heard of now.
   */
  ghost predicate TakenInSilence(st: State, st': State, out: Outcome, cid: Cid, d: DiscoveryFraming, now: nat) {
    && out == Nothing && D.HandlePage(st.discovered, st.partial, cid, d, now).2 == None
    && D.View(st'.discovered, cid) == D.View(st.discovered, cid)
    && |D.View(st'.partial, cid)| == 1 && D.View(st'.partial, cid)[0].lastUpdated == now
  }

  /** Every advert is taken in without a word, and nothing else lists the source either. */
  ghost predicate Silent(st: State, log: seq<P.Packet>, a: seq<Arrival>, cid: Cid)
    requires Ascending(st.universes) && InLog(a, log)
    decreases |a|
  {
    a == [] ||
    (StepKeepsConfig(st, EventOf(a[0], log));
     var (st', out) := Step(st, EventOf(a[0], log));
     && (a[0].Own? && log[a[0].index].data.DiscoveryPacket? ==>
           TakenInSilence(st, st', out, cid, log[a[0].index].data.discovery, a[0].now))
     && SameListing(st, st', cid)
     && Silent(st', log, a[1..], cid))
  }

  // --------------------------------------------------------------- other events

  lemma DataSparesPartial(st: State, cid: Cid, d: DataFraming, now: nat, pick: Pick)
    requires Ascending(st.universes)
    ensures HandleData(st, cid, d, now, pick).0.partial == st.partial
    ensures HandleData(st, cid, d, now, pick).0.discovered
         == if d.terminated && (d.preview ==> st.config.processPreview)
            then D.TerminateDiscovered(st.discovered, cid, d.universe) else st.discovered
  {
    assert TerminateStream(st, cid, d.universe).partial == st.partial;
    var t := CheckSeq(st.data, st.config.limit, cid, d.seqNo, d.universe, now, st.config.announceTimeout, pick).0;
    var st1 := st.(data := t, universes := ListenTo(st.universes, [d.syncAddr]).0);
    var st2 := StoreWaiting(st1, ToDmx(cid, d, now)).0;
    assert st2.partial == st.partial && st2.discovered == st.discovered;
  }

  lemma {:induction false} TerminationKeepsListing(disc: seq<D.Source>, c: Cid, u: u16, cid: Cid)
    ensures |D.View(D.TerminateDiscovered(disc, c, u), cid)| == |D.View(disc, cid)|
  {
    match D.FindSource(disc, c)
    case None =>
    case Some(i) => D.ViewAround(disc, i, D.TerminateUniverse(disc[i], u), cid);
  }

  lemma {:induction false} QuietPacketKeeps(st: State, p: P.Packet, now: nat, pick: Pick, cid: Cid)
    requires Inv(st) && (p.data.DiscoveryPacket? ==> p.cid != cid)
    ensures
      var st' := Handle(st, p, now, pick).0;
      D.View(st'.partial, cid) == D.View(st.partial, cid) && SameListing(st, st', cid)
  {
    match p.data
    case DataPacket(d) =>
      DataSparesPartial(st, p.cid, d, now, pick);
      TerminationKeepsListing(st.discovered, p.cid, d.universe, cid);
    case SyncPacket(s) =>
    case DiscoveryPacket(d) => D.PageSparesOthers(st.discovered, st.partial, p.cid, d, now, cid);
  }

  lemma {:induction false} QuietKeeps(st: State, e: Timed<Event>, cid: Cid)
    requires Inv(st) && Quiet(e.event, cid)
    ensures
      var st' := Step(st, e).0;
      D.View(st'.partial, cid) == D.View(st.partial, cid) && SameListing(st, st', cid)
  {
    match e.event
    case BeginRound(data, sync) =>
      var st' := SweepAll(st, e.now, data, sync).0;
      assert st'.partial == st.partial && st'.discovered == st.discovered;
    case Recv(input, pick) => if input.Done? { QuietPacketKeeps(st, input.value, e.now, pick, cid); }
    case _ =>
  }

  // -------------------------------------------------------------------- adverts

  /** A round that reads a page of the source. */
  lemma {:induction false} AdvertStep(st: State, cid: Cid, name: Bytes, us: seq<u16>, got: set<nat>, k: nat, now: nat,
                        pick: Pick)
    requires Inv(st)
    requires k < PageCount(us) <= 0x100 && k !in got && got <= Upto(PageCount(us))
    requires Collecting(D.View(st.partial, cid), cid, name, us, got)
    ensures
      var (st', out) := Step(st, EventOf(Own(now, k, pick), SR.PagePackets(cid, name, us, 0)));
      if |got| + 1 < PageCount(us) then
        && TakenInSilence(st, st', out, cid, PageFraming(name, us, k), now)
        && Collecting(D.View(st'.partial, cid), cid, name, us, got + {k})
      else
        && out == (if st.config.announceDiscovery then Failed(SourceDiscovered(name)) else Nothing)
        && D.View(st'.partial, cid) == [] && Collected(D.View(st'.discovered, cid), cid, name, us, now)
  {
    var log, d := SR.PagePackets(cid, name, us, 0), PageFraming(name, us, k);
    assert log[k] == P.Packet(cid, DiscoveryPacket(d));
    assert Step(st, EventOf(Own(now, k, pick), log)) == HandleDiscovery(st, cid, d, now);
    D.PageIsLocal(st.discovered, st.partial, cid, d, now);
    D.PageStamps(st.discovered, st.partial, cid, d, now);
    OneMorePage(D.View(st.discovered, cid), D.View(st.partial, cid), cid, name, us, got, k, now);
  }

  /** The pages that arrive are distinct, and none of them is held yet. */
  ghost predicate NoneHeld(pages: seq<nat>, got: set<nat>) {
    (forall i | 0 <= i < |pages| :: pages[i] !in got) && (forall i, j | 0 <= i < j < |pages| :: pages[i] != pages[j])
  }

  lemma {:induction false} AdvertsValid(cid: Cid, name: Bytes, us: seq<u16>)
    requires ValidName(name) && Ascending(us) && PageCount(us) <= 0x100
    ensures
      var log := SR.PagePackets(cid, name, us, 0);
      forall k | 0 <= k < |log| :: Valid(log[k]) && Datagram(Encode(log[k])) == Done(log[k])
  {
    var log := SR.PagePackets(cid, name, us, 0);
    forall k | 0 <= k < |log| ensures Valid(log[k]) && Datagram(Encode(log[k])) == Done(log[k]) {
      PagesPack(cid, name, us, k);
      DatagramIsPacket(log[k]);
    }
  }

  lemma {:induction false} AdvertKeepsInv(st: State, cid: Cid, name: Bytes, us: seq<u16>, k: nat, now: nat,
          pick: Pick)
    requires Inv(st) && MergeKeeps(st.config.merge) && ValidName(name) && Ascending(us) && k < PageCount(us) <= 0x100
    ensures
      var st' := Step(st, EventOf(Own(now, k, pick), SR.PagePackets(cid, name, us, 0))).0;
      Inv(st') && SameConfig(st, st')
  {
    var e := EventOf(Own(now, k, pick), SR.PagePackets(cid, name, us, 0));
    PagesPack(cid, name, us, k);
    StepKeepsConfig(st, e);
    StepKeepsInv(st, e);
  }

  /** One arrival, with more pages to come after it. */
  lemma ArrivalGathers(st: State, cid: Cid, name: Bytes, us: seq<u16>, got: set<nat>, x: Arrival)
    returns (got': set<nat>)
    requires Inv(st) && MergeKeeps(st.config.merge) && ValidName(name) && Ascending(us) && PageCount(us) <= 0x100
    requires got <= Upto(PageCount(us)) && Collecting(D.View(st.partial, cid), cid, name, us, got)
    requires x.Own? ==> x.index < PageCount(us) && x.index !in got && |got| + 1 < PageCount(us)
    requires x.Other? ==> Quiet(x.event, cid)
    ensures
      var (st', out) := Step(st, EventOf(x, SR.PagePackets(cid, name, us, 0)));
      && Inv(st') && SameConfig(st, st') && Collecting(D.View(st'.partial, cid), cid, name, us, got')
      && (x.Own? ==> TakenInSilence(st, st', out, cid, PageFraming(name, us, x.index), x.now))
      && SameListing(st, st', cid) && got' == if x.Own? then got + {x.index} else got
  {
    var e := EventOf(x, SR.PagePackets(cid, name, us, 0));
    match x
    case Own(now, k, pick) =>
      AdvertKeepsInv(st, cid, name, us, k, now, pick);
      AdvertStep(st, cid, name, us, got, k, now, pick);
      got' := got + {k};
    case Other(now, event) =>
      StepKeepsConfig(st, e);
      StepKeepsInv(st, e);
      QuietKeeps(st, e, cid);
      got' := got;
  }

  lemma {:induction false} TailArrivals(a: seq<Arrival>, log: seq<P.Packet>, cid: Cid, got: set<nat>)
    requires a != [] && InLog(a, log) && AllQuiet(a, cid) && NoneHeld(Indices(a), got)
    ensures InLog(a[1..], log) && AllQuiet(a[1..], cid)
    ensures a[0].Own? ==> a[0].index !in got && NoneHeld(Indices(a[1..]), got + {a[0].index})
    ensures a[0].Other? ==> NoneHeld(Indices(a[1..]), got)
    ensures Indices(a) == (if a[0].Own? then [a[0].index] else []) + Indices(a[1..])
  {
    if a[0].Own? {
      var pages := Indices(a);
      assert pages[0] == a[0].index && pages[1..] == Indices(a[1..]);
      assert forall i | 0 <= i < |pages| - 1 :: pages[1..][i] == pages[i + 1];
    }
  }

  /** Short of the last one, pages only gather. */
  lemma PagesGather(st: State, cid: Cid, name: Bytes, us: seq<u16>, got: set<nat>, a: seq<Arrival>)
    returns (got': set<nat>)
    requires Inv(st) && MergeKeeps(st.config.merge) && ValidName(name) && Ascending(us) && PageCount(us) <= 0x100
    requires got <= Upto(PageCount(us)) && Collecting(D.View(st.partial, cid), cid, name, us, got)
    requires InLog(a, SR.PagePackets(cid, name, us, 0)) && AllQuiet(a, cid) && NoneHeld(Indices(a), got)
    requires |got| + |Indices(a)| < PageCount(us)
    ensures
      var log := SR.PagePackets(cid, name, us, 0);
      && Silent(st, log, a, cid) && Inv(Final(st, log, a)) && SameListing(st, Final(st, log, a), cid)
      && Collecting(D.View(Final(st, log, a).partial, cid), cid, name, us, got')
    ensures forall k | k in got' :: k in got || k in Indices(a)
    ensures |got'| == |got| + |Indices(a)| && got' <= Upto(PageCount(us))
    decreases |a|
  {
    if a == [] {
      got' := got;
    } else {
      var log := SR.PagePackets(cid, name, us, 0);
      TailArrivals(a, log, cid, got);
      var got1 := ArrivalGathers(st, cid, name, us, got, a[0]);
      var st1 := Step(st, EventOf(a[0], log)).0;
      assert |got1| + |Indices(a[1..])| == |got| + |Indices(a)| && got1 <= Upto(PageCount(us));
      got' := PagesGather(st1, cid, name, us, got1, a[1..]);
    }
  }

  lemma RepeatCounts(s: seq<nat>, i: nat, j: nat)
    requires i < j < |s| && s[i] == s[j]
    ensures multiset(s)[s[i]] >= 2
  {
    assert s == s[..j] + ([s[j]] + s[j + 1..]);
    assert s[i] in s[..j];
  }

  lemma {:induction false} PermutationIsNew(pages: seq<nat>, last: nat, n: nat)
    requires multiset(pages + [last]) == multiset(Upto(n))
    ensures NoneHeld(pages, {}) && last !in pages && last < n && |pages| + 1 == n
    ensures forall i | 0 <= i < |pages| :: pages[i] < n
  {
    var all := pages + [last];
    assert |multiset(all)| == |all|;
    forall i | 0 <= i < |all| ensures all[i] < n { assert all[i] in multiset(all); }
    forall i, j | 0 <= i < j < |all| ensures all[i] != all[j] {
      if all[i] == all[j] { RepeatCounts(all, i, j); }
    }
    assert forall i | 0 <= i < |pages| :: pages[i] == all[i];
    assert all[|pages|] == last;
  }

  /** The packets a sender advertises its registry in. */
  function Adverts(s: Sender.State): (r: seq<P.Packet>)
    requires Sender.Inv(s)
    ensures |r| == PageCount(s.universes) <= 126
  {
    RegistryBound(s.universes);
    SR.PagePackets(s.cid, s.name, s.universes, 0)
  }

  /**
   * A sender's adverts, each packed, sent and read once, in any order, among whatever else the receiver is doing.
   * Until the last page comes, whichever that is, no page completes the source and none lists it, whether the receiver
   * announces discoveries or not; with it, the source is discovered under its name, and the universes listed for it
   * are exactly the sender's registry. It stays listed for 2.5 s from that page on. A receiver that announces timeouts
   * reads no advert less: a round that a timeout ends leaves the datagram to a later one.
   */
  lemma {:induction false} DiscoveryEndToEnd(s: Sender.State, st: State, a: seq<Arrival>, last: Arrival)
    requires Sender.Inv(s) && SR.Reliable(s) && ValidName(s.name)
    requires Inv(st) && MergeKeeps(st.config.merge) && D.View(st.partial, s.cid) == []
    requires last.Own? && multiset(Indices(a) + [last.index]) == multiset(Upto(PageCount(s.universes)))
    requires InLog(a, Adverts(s)) && AllQuiet(a, s.cid)
    ensures
      var (log, st1) := (Adverts(s), Final(st, Adverts(s), a));
      && Sender.SendDiscovery(s).0.sent == s.sent + log
      && (forall k | 0 <= k < |log| :: Datagram(Encode(log[k])) == Done(log[k]))
      && last.index < |log| && Silent(st, log, a, s.cid) && SameListing(st, st1, s.cid)
      && var (st', out) := Step(st1, EventOf(last, log));
         && D.HandlePage(st1.discovered, st1.partial, s.cid, log[last.index].data.discovery, last.now).2 == Some(s.name)
         && out == (if st.config.announceDiscovery then Failed(SourceDiscovered(s.name)) else Nothing)
         && D.View(st'.partial, s.cid) == []
         && Collected(D.View(st'.discovered, s.cid), s.cid, s.name, s.universes, last.now)
         && Ascending(st'.universes) && ListedUntilExpiry(st', s.cid, last.now)
  {
    var (cid, name, us) := (s.cid, s.name, s.universes);
    SR.DiscoveryEmits(s);
    AdvertsValid(cid, name, us);
    PermutationIsNew(Indices(a), last.index, PageCount(us));
    var got := PagesGather(st, cid, name, us, {}, a);
    var (log, st1) := (Adverts(s), Final(st, Adverts(s), a));
    AdvertStep(st1, cid, name, us, got, last.index, last.now, last.pick);
    LastPageNames(st1, cid, name, us, got, last.index, last.now);
    StepKeepsConfig(st1, EventOf(last, log));
    ListedForAWhile(Step(st1, EventOf(last, log)).0, cid, last.now);
  }

  /** What is listed of the source now stays listed until 2.5 s after `heard`, if expiry is looked at then. */
  ghost predicate ListedUntilExpiry(st: State, cid: Cid, heard: nat)
    requires Ascending(st.universes)
  {
    forall t: nat :: ListedAt(st, cid, t) == if t - heard < 2500 then D.View(st.discovered, cid) else []
  }

  /** What is listed of the source once expiry has been looked at. */
  function ListedAt(st: State, cid: Cid, t: nat): seq<D.Source>
    requires Ascending(st.universes)
  {
    D.View(Step(st, At(t, RemoveExpired)).0.discovered, cid)
  }

  lemma {:induction false} ListedForAWhile(st: State, cid: Cid, heard: nat)
    requires Ascending(st.universes) && |D.View(st.discovered, cid)| == 1
    requires D.View(st.discovered, cid)[0].lastUpdated == heard
    ensures ListedUntilExpiry(st, cid, heard)
  {
    var s := D.View(st.discovered, cid)[0];
    assert D.View(st.discovered, cid) == [s];
    forall t: nat ensures ListedAt(st, cid, t) == if t - heard < 2500 then [s] else [] {
      ListedIsUnexpired(st, cid, t);
      D.DropExpiredOfOne(s, t);
    }
  }

  lemma {:induction false} ListedIsUnexpired(st: State, cid: Cid, t: nat)
    requires Ascending(st.universes)
    ensures ListedAt(st, cid, t) == D.DropExpired(D.View(st.discovered, cid), t)
  {
    assert Step(st, At(t, RemoveExpired)).0.discovered == D.DropExpired(st.discovered, t);
    D.ViewOfExpired(st.discovered, t, cid);
  }

  lemma {:induction false} LastPageNames(st: State, cid: Cid, name: Bytes, us: seq<u16>, got: set<nat>, k: nat,
          now: nat)
    requires Inv(st) && k < PageCount(us) <= 0x100 && k !in got && got <= Upto(PageCount(us))
    requires Collecting(D.View(st.partial, cid), cid, name, us, got) && |got| + 1 >= PageCount(us)
    ensures D.HandlePage(st.discovered, st.partial, cid, PageFraming(name, us, k), now).2 == Some(name)
  {
    D.PageIsLocal(st.discovered, st.partial, cid, PageFraming(name, us, k), now);
    OneMorePage(D.View(st.discovered, cid), D.View(st.partial, cid), cid, name, us, got, k, now);
  }

  // ------------------------------------------------------------- repeated pages

  /** Half-collected with a page before the last held twice. */
  ghost predicate Blocked(part: seq<D.Source>, lastPage: byte, n: nat) {
    n < lastPage && |part| == 1 && part[0].lastPage == lastPage && D.Copies(part[0].pages, n) >= 2
  }

  lemma PageLeavesBlocked(disc: seq<D.Source>, part: seq<D.Source>, cid: Cid, d: DiscoveryFraming,
                        now: nat, lastPage: byte, n: nat)
    requires Blocked(part, lastPage, n)
    ensures
      var (disc', part', name) := D.PageOnViews(disc, part, cid, d, now);
      disc' == disc && Blocked(part', lastPage, n) && name == None
  {
    var page := D.Page(d.page, d.universes);
    D.DuplicateBlocksForGood(part[0].pages, [page], lastPage, n);
    D.CopiesOfSort(part[0].pages + [page], n);
    D.CopiesOfJoin(part[0].pages, [page], n);
  }

  lemma {:induction false} EventLeavesBlocked(st: State, e: Timed<Event>, cid: Cid, lastPage: byte, n: nat)
    requires Inv(st) && Keeps(e.event) && Blocked(D.View(st.partial, cid), lastPage, n)
    ensures
      var st' := Step(st, e).0;
      Blocked(D.View(st'.partial, cid), lastPage, n) && SameListing(st, st', cid)
  {
    if Quiet(e.event, cid) {
      QuietKeeps(st, e, cid);
    } else {
      var d := e.event.input.value.data.discovery;
      D.PageIsLocal(st.discovered, st.partial, cid, d, e.now);
      PageLeavesBlocked(D.View(st.discovered, cid), D.View(st.partial, cid), cid, d, e.now, lastPage, n);
    }
  }

  /**
   * A source one of whose pages before the last came twice is never completed by anything that may still come, its own
   * adverts included, until the receiver resets or lets it expire.
   */
  lemma {:induction false} DuplicateBlocksRuns(st: State, evs: seq<Timed<Event>>, cid: Cid, lastPage: byte, n: nat)
    requires Inv(st) && MergeKeeps(st.config.merge) && Blocked(D.View(st.partial, cid), lastPage, n)
    requires forall i | 0 <= i < |evs| :: Keeps(evs[i].event)
    ensures Blocked(D.View(After(st, evs).partial, cid), lastPage, n) && SameListing(st, After(st, evs), cid)
    decreases |evs|
  {
    if evs != [] {
      StepKeepsInv(st, evs[0]);
      StepKeepsConfig(st, evs[0]);
      EventLeavesBlocked(st, evs[0], cid, lastPage, n);
      DuplicateBlocksRuns(Step(st, evs[0]).0, evs[1..], cid, lastPage, n);
    }
  }
}
