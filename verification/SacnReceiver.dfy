/** The receiver as an object updated in place, each method tied to the state machine's step. */
module SacnReceiver {
  import opened Types
  import opened P = Packet
  import opened Merge
  import opened S = Sequencing
  import opened R = Receiver
  import W = Waiting
  import D = Discovery

  /** What a call returns: the outcome with its data in some order. */
  datatype Reply = NoData | Got(data: seq<DmxData>) | Failure(error: SacnError) | Crash

  ghost predicate Matches(reply: Reply, out: Outcome) {
    match reply
    case NoData => out == Nothing
    case Got(s) => out == Data(Elements(s)) && |s| == |Elements(s)|
    case Failure(e) => out == Failed(e)
    case Crash => out == Crashed
  }

  class SacnReceiver {
    var config: Config
    var universes: seq<u16>
    var waitingData: map<u16, DmxData>
    var discovered: seq<D.Source>
    var partial: seq<D.Source>
    const sequences: SequenceNumbering

    ghost function Abs(): State
      reads this, sequences.data, sequences.sync
    {
      State(config, universes, waitingData, discovered, partial, sequences.data.entries, sequences.sync.entries)
    }

    ghost predicate Valid()
      reads this, sequences.data, sequences.sync
    {
      sequences.Valid() && Inv(Abs()) && MergeKeeps(config.merge)
    }

    constructor (config: Config)
      requires config.limit != Some(0) && MergeKeeps(config.merge)
      ensures Valid() && fresh(sequences.data) && fresh(sequences.sync)
      ensures Abs() == Initial(config)
    {
      this.config := config;
      universes := [E131_DISCOVERY_UNIVERSE];
      waitingData := map[];
      discovered, partial := [], [];
      sequences := new SequenceNumbering();
      new;
      InitialInv(config);
    }

    /** A new receiver, unless it is to hold no source at all. */
    static method Create(config: Config) returns (r: Result<SacnReceiver>)
      requires MergeKeeps(config.merge)
      ensures r.Err? <==> config.limit == Some(0)
      ensures r.Err? ==> r.error == SourceLimitZero
      ensures r.Ok? ==> fresh(r.value) && r.value.Valid() && r.value.Abs() == Initial(config)
    {
      if config.limit == Some(0) { return Err(SourceLimitZero); }
      var receiver := new SacnReceiver(config);
      return Ok(receiver);
    }

    method IsListening(u: u16) returns (r: bool)
      ensures r <==> u in universes
    {
      r := u in universes;
    }

    /** Looks for an illegal universe before anything is changed. */
    static method CheckUniverses(us: seq<u16>) returns (r: Result<Unit>)
      ensures r == match OutOfRange(us) case Some(u) => Err(IllegalUniverse(u)) case None => Ok(Unit)
    {
      var i := 0;
      while i < |us|
        invariant i <= |us| && OutOfRange(us) == OutOfRange(us[i..])
      {
        if !InRange(us[i]) { return Err(IllegalUniverse(us[i])); }
        assert us[i..][1..] == us[i + 1..];
        i := i + 1;
      }
      assert us[i..] == [];
      return Ok(Unit);
    }

    method InsertUniverse(u: u16)
      requires Ascending(universes)
      modifies this`universes
      ensures Ascending(universes) && universes == Insert(old(universes), u)
    {
      InsertKeepsOrder(universes, u);
      match BinarySearch(universes, u) {
        case Missing(at) => universes := universes[..at] + [u] + universes[at..];
        case Found(_) =>
      }
    }

    method ListenUniverses(us: seq<u16>) returns (r: Result<Unit>)
      requires Valid()
      modifies this`universes
      ensures Valid()
      ensures Abs() == old(Abs()).(universes := ListenTo(old(universes), us).0)
      ensures r == ListenTo(old(universes), us).1
    {
      r := CheckUniverses(us);
      if r.Err? { return r; }
      var i := 0;
      while i < |us|
        invariant i <= |us| && Ascending(universes)
        invariant InsertAll(old(universes), us) == InsertAll(universes, us[i..])
      {
        InsertUniverse(us[i]);
        assert us[i..][1..] == us[i + 1..];
        i := i + 1;
      }
      assert us[i..] == [];
      InsertAllInRange(old(universes), us);
    }

    method MuteUniverse(u: u16) returns (r: Result<Unit>)
      requires Valid()
      modifies this
      ensures Valid()
      ensures Abs() == Step(old(Abs()), At(0, Mute(u))).0
      ensures r == match Step(old(Abs()), At(0, Mute(u))).1 case Failed(e) => Err(e) case _ => Ok(Unit)
    {
      StepKeepsInv(Abs(), At(0, Mute(u)));
      if !InRange(u) { return Err(IllegalUniverse(u)); }
      match BinarySearch(universes, u) {
        case Missing(_) => return Err(UniverseNotFound(u));
        case Found(i) =>
          universes := universes[..i] + universes[i + 1..];
          return Ok(Unit);
      }
    }

    /** Wipes what is known of sources. */
    method ResetSources()
      requires Valid()
      modifies this, sequences.data, sequences.sync
      ensures Valid() && Abs() == Step(old(Abs()), At(0, R.ResetSources)).0
    {
      StepKeepsInv(Abs(), At(0, R.ResetSources));
      sequences.Clear();
      partial, discovered := [], [];
    }

    method ClearAllWaitingData()
      requires Valid()
      modifies this
      ensures Valid() && Abs() == Step(old(Abs()), At(0, ClearAllWaiting)).0
    {
      waitingData := map[];
    }

    method ClearWaitingData(u: u16) returns (removed: bool)
      requires Valid()
      modifies this
      ensures Valid() && Abs() == Step(old(Abs()), At(0, ClearWaiting(u))).0
      ensures removed <==> u in old(waitingData)
    {
      removed := u in waitingData;
      waitingData := waitingData - {u};
    }

    method TerminateStream(cid: Cid, u: u16)
      requires Valid()
      modifies this, sequences.data, sequences.sync
      ensures Valid() && Abs() == R.TerminateStream(old(Abs()), cid, u)
    {
      TerminateKeepsInv(Abs(), cid, u);
      var _ := sequences.RemoveSeqNumbers(cid, u);
      match D.FindSource(discovered, cid) {
        case Some(i) =>
          var source := D.RetainOtherUniverses(discovered[i], u);
          discovered := discovered[i := source];
        case None =>
      }
    }

    /** Takes the waiting packet out, and puts the merge of it and the new one back if the merge succeeds. */
    method StoreWaitingData(d: DmxData) returns (r: Result<Unit>)
      requires Valid() && d.syncUni != E131_NO_SYNC_ADDR
      modifies this
      ensures Valid()
      ensures Abs() == old(Abs()).(waiting := W.Store(old(waitingData), d, config.merge).0)
      ensures r == W.Store(old(waitingData), d, config.merge).1
    {
      StoreKeepsWaits(waitingData, d, config.merge);
      if d.universe in waitingData {
        var existing := waitingData[d.universe];
        waitingData := waitingData - {d.universe};
        match config.merge(existing, d) {
          case Err(e) => return Err(e);
          case Ok(m) => waitingData := waitingData[d.universe := m];
        }
      } else {
        waitingData := waitingData[d.universe := d];
      }
      return Ok(Unit);
    }

    /**
     * Takes out everything that waits for the address and returns, each once and in no particular order, what
     * of it has not expired.
     */
    method RtrvWaitingData(sync: u16, now: nat) returns (res: seq<DmxData>)
      requires Valid()
      modifies this
      ensures Valid()
      ensures Abs() == old(Abs()).(waiting := W.Unreleased(old(waitingData), sync))
      ensures Elements(res) == W.Released(old(waitingData), sync, now) && |res| == |Elements(res)|
    {
      var keys := KeysWaitingFor(sync);
      ghost var before := waitingData;
      res := TakeAll(keys, now);
      AllTaken(before, keys, sync, now);
    }

    /** Taking what waits at those universes is what a synchronisation packet releases and leaves behind. */
    static lemma AllTaken(w: map<u16, DmxData>, keys: seq<u16>, sync: u16, now: nat)
      requires forall k :: k in keys <==> k in w && w[k].syncUni == sync
      ensures w - (set k | k in keys) == W.Unreleased(w, sync)
      ensures FreshOf(w, keys, now) == W.Released(w, sync, now)
    {
    }

    /** The fresh packets among those that wait for the universes. */
    ghost static function FreshOf(w: map<u16, DmxData>, keys: seq<u16>, now: nat): set<DmxData> {
      set k | k in w && k in keys && W.Fresh(w[k], now) :: w[k]
    }

    method TakeAll(keys: seq<u16>, now: nat) returns (res: seq<DmxData>)
      requires WaitsWell(waitingData)
      requires forall k | k in keys :: k in waitingData
      requires forall i, j | 0 <= i < j < |keys| :: keys[i] != keys[j]
      modifies this`waitingData
      ensures waitingData == old(waitingData) - (set k | k in keys)
      ensures Elements(res) == FreshOf(old(waitingData), keys, now) && |res| == |Elements(res)|
    {
      ghost var before := waitingData;
      res := [];
      var i := 0;
      while i < |keys|
        invariant i <= |keys|
        invariant waitingData == before - (set k | k in keys[..i])
        invariant Elements(res) == FreshOf(before, keys[..i], now) && |res| == |Elements(res)|
      {
        assert keys[i] !in keys[..i] && keys[..i + 1] == keys[..i] + [keys[i]];
        TakingOne(before, keys[..i], keys[i], now, res);
        var data := waitingData[keys[i]];
        waitingData := waitingData - {keys[i]};
        if W.Fresh(data, now) { res := res + [data]; }
        i := i + 1;
      }
      assert keys[..i] == keys;
    }

    static lemma TakingOne(w: map<u16, DmxData>, taken: seq<u16>, k: u16, now: nat, res: seq<DmxData>)
      requires WaitsWell(w) && k in w && k !in taken
      requires Elements(res) == FreshOf(w, taken, now) && |res| == |Elements(res)|
      ensures w - (set x | x in taken + [k]) == w - (set x | x in taken) - {k} && k in w - (set x | x in taken)
      ensures
        var res' := if W.Fresh(w[k], now) then res + [w[k]] else res;
        Elements(res') == FreshOf(w, taken + [k], now) && |res'| == |Elements(res')|
    {
      assert FreshOf(w, taken + [k], now) == FreshOf(w, taken, now) + if W.Fresh(w[k], now) then {w[k]} else {};
      assert w[k] !in FreshOf(w, taken, now);
      assert Elements(res + [w[k]]) == Elements(res) + {w[k]};
    }

    /** The universes whose data waits for the address, in the order the map yields them. */
    method KeysWaitingFor(sync: u16) returns (keys: seq<u16>)
      ensures forall k :: k in keys <==> k in waitingData && waitingData[k].syncUni == sync
      ensures forall i, j | 0 <= i < j < |keys| :: keys[i] != keys[j]
    {
      keys := [];
      var todo := waitingData.Keys;
      while todo != {}
        invariant todo <= waitingData.Keys
        invariant forall k :: k in keys <==> k in waitingData.Keys - todo && waitingData[k].syncUni == sync
        invariant forall i, j | 0 <= i < j < |keys| :: keys[i] != keys[j]
        decreases |todo|
      {
        var u :| u in todo;
        todo := todo - {u};
        if waitingData[u].syncUni == sync {
          assert u !in keys;
          keys := keys + [u];
        }
      }
    }

    method HandleDataPacket(cid: Cid, d: DataFraming, now: nat) returns (reply: Reply, ghost pick: Pick)
      requires Valid()
      modifies this, sequences.data, sequences.sync
      ensures Valid()
      ensures
        var (st, out) := HandleData(old(Abs()), cid, d, now, pick);
        Abs() == st && Matches(reply, out)
      ensures old(config).announceTimeout ==> AllowedPacketPick(old(Abs()), P.Packet(cid, DataPacket(d)), now, pick)
    {
      pick := None;
      if d.preview && !config.processPreview { return NoData, pick; }
      if d.terminated {
        TerminateStream(cid, d.universe);
        if config.announceTermination { return Failure(UniverseTerminated(cid, d.universe)), pick; }
        return NoData, pick;
      }
      if d.universe !in universes { return NoData, pick; }
      var r := sequences.data.CheckSeqNumber(config.limit, cid, d.seqNo, d.universe, now, config.announceTimeout);
      pick := PickOf(r);
      HandleDataKeepsInv(old(Abs()), cid, d, now, pick);
      if r.Err? { return Failure(r.error), pick; }
      if d.syncAddr == E131_NO_SYNC_ADDR {
        waitingData := waitingData - {d.universe};
        var item := ToDmx(cid, d, now);
        assert Elements([item]) == {item};
        return Got([item]), pick;
      }
      CheckSeqKeepsInv(old(sequences.data.entries), config.limit, cid, d.seqNo, d.universe, now,
                       config.announceTimeout, pick);
      r := ListenUniverses([d.syncAddr]);
      if r.Err? { return Failure(r.error), pick; }
      r := StoreWaitingData(ToDmx(cid, d, now));
      if r.Err? { return Failure(r.error), pick; }
      return NoData, pick;
    }

    method HandleSyncPacket(cid: Cid, s: SyncFraming, now: nat) returns (reply: Reply, ghost pick: Pick)
      requires Valid()
      modifies this, sequences.sync
      ensures Valid()
      ensures
        var (st, out) := HandleSync(old(Abs()), cid, s, now, pick);
        Abs() == st && Matches(reply, out)
      ensures old(config).announceTimeout ==> AllowedPacketPick(old(Abs()), P.Packet(cid, SyncPacket(s)), now, pick)
    {
      pick := None;
      if s.syncAddr !in universes { return NoData, pick; }
      var r := sequences.sync.CheckSeqNumber(config.limit, cid, s.seqNo, s.syncAddr, now, config.announceTimeout);
      pick := PickOf(r);
      CheckSeqKeepsInv(old(sequences.sync.entries), config.limit, cid, s.seqNo, s.syncAddr, now,
                       config.announceTimeout, pick);
      if r.Err? { return Failure(r.error), pick; }
      var res := RtrvWaitingData(s.syncAddr, now);
      if res == [] { return NoData, pick; }
      assert res[0] in Elements(res);
      return Got(res), pick;
    }

    method UpdateDiscoveredSrcs(s: D.Source)
      modifies this`discovered
      ensures discovered == D.UpdateDiscovered(old(discovered), s)
    {
      match D.FindSource(discovered, s.cid) {
        case Some(i) => discovered := discovered[..i] + discovered[i + 1..];
        case None =>
      }
      discovered := discovered + [s];
    }

    /** Adds a page to what is known of its source; the name comes back when that completes the source. */
    method HandleUniverseDiscoveryPacket(cid: Cid, d: DiscoveryFraming, now: nat) returns (name: Option<Bytes>)
      requires Valid() && d.page <= d.lastPage
      modifies this
      ensures Valid()
      ensures (discovered, partial, name) == D.HandlePage(old(discovered), old(partial), cid, d, now)
      ensures Abs() == old(Abs()).(discovered := discovered, partial := partial)
    {
      HandleDiscoveryKeepsInv(Abs(), cid, d, now);
      var page := D.Page(d.page, d.universes);
      match D.FindSource(partial, cid) {
        case Some(i) =>
          var all := AddToPartial(i, page, now);
          var s := partial[i];
          if all {
            partial := partial[..i] + partial[i + 1..];
            UpdateDiscoveredSrcs(s);
            return Some(d.name);
          }
        case None =>
          var s := D.Source(d.name, cid, now, [page], d.lastPage);
          if d.page == 0 && d.page == d.lastPage {
            UpdateDiscoveredSrcs(s);
            return Some(d.name);
          } else {
            partial := partial + [s];
          }
      }
      return None;
    }

    /** Adds a page to a partial source in place, sorts its pages and tells whether that was the last one missing. */
    method AddToPartial(i: nat, page: D.Page, now: nat) returns (all: bool)
      requires i < |partial|
      modifies this`partial
      ensures partial == old(partial)[i := D.AddPage(old(partial)[i], page, now)]
      ensures all == D.Complete(partial[i].pages, partial[i].lastPage)
    {
      partial := partial[i := partial[i].(pages := partial[i].pages + [page])];
      partial := partial[i := partial[i].(lastUpdated := now)];
      partial := partial[i := partial[i].(pages := D.SortPages(partial[i].pages))];
      all := D.HasAllPages(partial[i].pages, partial[i].lastPage);
    }

    method CheckWaitingDataTimeouts(now: nat)
      requires Valid()
      modifies this
      ensures Valid() && Abs() == old(Abs()).(waiting := W.DropStale(old(waitingData), now))
    {
      waitingData := map u | u in waitingData && W.Fresh(waitingData[u], now) :: waitingData[u];
    }

    method RemoveExpiredSources(now: nat)
      requires Valid()
      modifies this
      ensures Valid() && Abs() == Step(old(Abs()), At(now, RemoveExpired)).0
    {
      StepKeepsInv(Abs(), At(now, RemoveExpired));
      partial := D.DropExpired(partial, now);
      discovered := D.DropExpired(discovered, now);
    }

    /** One round in which a datagram comes. */
    method ReceiveDatagram(swept: nat, now: nat, dgram: Bytes) returns (reply: Reply, ghost picks: Picks)
      requires Valid()
      modifies this, sequences.data, sequences.sync
      ensures Valid()
      ensures AllowedPicks(old(Abs()), swept, now, Some(Datagram(dgram)), picks)
      ensures
        var (st, out) := Round(old(Abs()), swept, now, Some(Datagram(dgram)), picks);
        Abs() == st && Matches(reply, out)
    {
      var parsed := Datagram(dgram);
      DatagramsAreSound(dgram, None);
      reply, picks := Receive(swept, now, Some(parsed));
    }

    /**
     * One round: the sweeps at `swept`, then the wait on the socket, and the packet that it yields at `now`, if it
     * yields one, handled.
     */
    method Receive(swept: nat, now: nat, input: Option<Parsed<P.Packet>>) returns (reply: Reply, ghost picks: Picks)
      requires Valid() && (input.Some? ==> Sound(Recv(input.value, None)))
      modifies this, sequences.data, sequences.sync
      ensures Valid()
      ensures AllowedPicks(old(Abs()), swept, now, input, picks)
      ensures
        var (st, out) := Round(old(Abs()), swept, now, input, picks);
        Abs() == st && Matches(reply, out)
    {
      ghost var data, sync, pick;
      var r;
      r, data, sync := SweepAllTimeouts(swept);
      pick := None;
      if r.Err? {
        reply := Failure(r.error);
      } else if input.None? {
        reply := NoData;
      } else {
        if config.announceTimeout { SilentSweepsKeep(old(Abs()), swept, data, sync); }
        reply, pick := HandleInput(input.value, now);
      }
      picks := Picks(data, sync, pick);
    }

    method HandleInput(input: Parsed<P.Packet>, now: nat) returns (reply: Reply, ghost pick: Pick)
      requires Valid() && Sound(Recv(input, None))
      modifies this, sequences.data, sequences.sync
      ensures Valid()
      ensures
        var (st, out) := R.HandleInput(old(Abs()), input, now, pick);
        Abs() == st && Matches(reply, out)
      ensures old(config).announceTimeout && input.Done? ==> AllowedPacketPick(old(Abs()), input.value, now, pick)
    {
      pick := None;
      match input {
        case Fail(e) => reply := Failure(ParsePack(e));
        case Panic => reply := Crash;
        case Done(p) => reply, pick := HandlePacket(p, now);
      }
    }

    method SweepAllTimeouts(now: nat) returns (r: Result<Unit>, ghost data: Pick, ghost sync: Pick)
      requires Valid()
      modifies this, sequences.data, sequences.sync
      ensures Valid()
      ensures old(config).announceTimeout ==> AllowedSweeps(old(Abs()), now, data, sync)
      ensures (Abs(), r) == SweepAll(old(Abs()), now, data, sync)
    {
      ghost var st0 := Abs();
      ghost var onData;
      r, onData := sequences.CheckTimeouts(now, config.announceTimeout);
      data, sync := PickOf(onData), if onData.Err? then None else PickOf(r);
      SweepKeepsInv(st0.data, config.limit, now, config.announceTimeout, data);
      SweepKeepsInv(st0.sync, config.limit, now, config.announceTimeout, sync);
      if r.Ok? { CheckWaitingDataTimeouts(now); }
    }

    method HandlePacket(p: P.Packet, now: nat) returns (reply: Reply, ghost pick: Pick)
      requires Valid() && P.Valid(p)
      modifies this, sequences.data, sequences.sync
      ensures Valid()
      ensures
        var (st, out) := Handle(old(Abs()), p, now, pick);
        Abs() == st && Matches(reply, out)
      ensures old(config).announceTimeout ==> AllowedPacketPick(old(Abs()), p, now, pick)
    {
      match p.data {
        case DataPacket(d) => reply, pick := HandleDataPacket(p.cid, d, now);
        case SyncPacket(s) => reply, pick := HandleSyncPacket(p.cid, s, now);
        case DiscoveryPacket(u) =>
          pick := None;
          var name := HandleUniverseDiscoveryPacket(p.cid, u, now);
          if name.Some? && config.announceDiscovery { return Failure(SourceDiscovered(name.value)), pick; }
          return NoData, pick;
      }
    }
  }
}
