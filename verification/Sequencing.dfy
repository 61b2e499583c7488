/** Per-source, per-universe sequence numbers with timeouts and a source limit (section 6.7 of ANSI E1.31-2018). */
module Sequencing {
  import opened Types

  datatype Stamp = Stamp(seqNo: byte, lastRecv: nat)

  type Universes = map<u16, Stamp>
  type Table = map<Cid, Universes>

  /** The entry whose timeout an announcing sweep reports, if it reports one. */
  type Pick = Option<(Cid, u16)>

  predicate Expired(s: Stamp, now: nat) {
    now - s.lastRecv >= DATA_LOSS_TIMEOUT
  }

  function Live(us: Universes, now: nat): Universes {
    map u | u in us && !Expired(us[u], now) :: us[u]
  }

  /** Every expired entry gone, and every source that has none left. */
  function Purge(t: Table, now: nat): Table {
    map c | c in t && Live(t[c], now) != map[] :: Live(t[c], now)
  }

  function Entry(t: Table, c: Cid, u: u16): Option<Stamp> {
    if c in t && u in t[c] then Some(t[c][u]) else None
  }

  function RemoveEntry(t: Table, c: Cid, u: u16): Table {
    if c !in t || u !in t[c] then t
    else if t[c] - {u} == map[] then t - {c}
    else t[c := t[c] - {u}]
  }

  /** The (source, universe) pairs of a table. */
  ghost function Pairs(t: Table): set<(Cid, u16)> {
    set c, u | c in t && u in t[c] :: (c, u)
  }

  ghost predicate SomeExpired(us: Universes, now: nat) {
    exists u | u in us :: Expired(us[u], now)
  }

  ghost predicate NothingExpired(t: Table, now: nat) {
    forall c | c in t :: !SomeExpired(t[c], now)
  }

  /** What an announcing sweep can find, over all orders in which the hash maps may be walked. */
  ghost predicate AllowedPick(t: Table, now: nat, pick: Pick) {
    match pick
    case Some((c, u)) => c in t && u in t[c] && Expired(t[c][u], now)
    case None => t == map[] || exists c | c in t :: !SomeExpired(t[c], now)
  }

  function PickOf(r: Result<Unit>): Pick {
    if r.Err? && r.error.UniverseTimeout? then Some((r.error.cid, r.error.universe)) else None
  }

  /** A sweep: silent, it purges; announcing, it removes at most the one entry it reports. */
  function Sweep(t: Table, now: nat, announce: bool, pick: Pick): (Table, Result<Unit>) {
    if !announce then (Purge(t, now), Ok(Unit))
    else match pick
      case None => (t, Ok(Unit))
      case Some((c, u)) => (RemoveEntry(t, c, u), Err(UniverseTimeout(c, u)))
  }

  /** The difference of two sequence numbers as a signed byte. */
  function SeqDiff(received: byte, last: byte): int {
    var d := (received as int - last) % 0x100;
    if d >= 0x80 then d - 0x100 else d
  }

  predicate Discard(diff: int) {
    SEQ_DIFF_DISCARD_LOWER_BOUND < diff <= SEQ_DIFF_DISCARD_UPPER_BOUND
  }

  function SetStamp(t: Table, c: Cid, u: u16, s: Stamp): Table
    requires c in t
  {
    var us: Universes := t[c][u := s];
    t[c := us]
  }

  /** Judges a packet against a swept table. A source seen for the first time is entered before its packet is judged. */
  function Judge(t: Table, limit: Option<nat>, c: Cid, seqNo: byte, u: u16, now: nat): (Table, Result<Unit>) {
    if c !in t && limit.Some? && |t| >= limit.value then (t, Err(SourcesExceeded(|t|)))
    else
      var t': Table := if c in t then t else t[c := map[]];
      var last := if u in t'[c] then t'[c][u].seqNo else (seqNo + 0xFF) % 0x100;
      var diff := SeqDiff(seqNo, last);
      if Discard(diff) then (t', Err(OutOfSequence(seqNo, last, diff)))
      else (SetStamp(t', c, u, Stamp(seqNo, now)), Ok(Unit))
  }

  function CheckSeq(t: Table, limit: Option<nat>, c: Cid, seqNo: byte, u: u16, now: nat, announce: bool,
                    pick: Pick): (Table, Result<Unit>) {
    var (t', r) := Sweep(t, now, announce, pick);
    if r.Err? then (t', r) else Judge(t', limit, c, seqNo, u, now)
  }

  // ------------------------------------------------------------- properties

  /** The difference is the one signed byte that leads from the last number to the one received. */
  lemma SeqDiffIs(received: byte, last: byte)
    ensures -128 <= SeqDiff(received, last) <= 127
    ensures (last + SeqDiff(received, last)) % 0x100 == received
  {
  }

  /** A packet is turned away with what was received, what was last and their difference, or with how many there are. */
  lemma JudgedErrors(t: Table, limit: Option<nat>, c: Cid, seqNo: byte, u: u16, now: nat)
    ensures
      var r := Judge(t, limit, c, seqNo, u, now).1;
      && (r == Err(SourcesExceeded(|t|)) <==> c !in t && limit.Some? && |t| >= limit.value)
      && (r.Err? && !r.error.SourcesExceeded? ==>
            c in t && u in t[c] && r == Err(OutOfSequence(seqNo, t[c][u].seqNo, SeqDiff(seqNo, t[c][u].seqNo))))
  {
    FirstPacketPasses(seqNo);
  }

  /** No source without universes, and no more sources than the limit. */
  ghost predicate TableInv(t: Table, limit: Option<nat>) {
    && (forall c | c in t :: t[c] != map[])
    && (limit.Some? ==> |t| <= limit.value)
  }

  lemma FewerSources(t: Table, t': Table)
    requires t'.Keys <= t.Keys
    ensures |t'| <= |t|
  {
    KeysCount(t.Keys, t'.Keys);
  }

  lemma KeysCount(a: set<Cid>, b: set<Cid>)
    requires b <= a
    ensures |b| <= |a|
  {
    assert a == b + (a - b);
  }

  lemma PurgeKeepsInv(t: Table, limit: Option<nat>, now: nat)
    requires TableInv(t, limit)
    ensures TableInv(Purge(t, now), limit)
  {
    FewerSources(t, Purge(t, now));
  }

  lemma RemoveKeepsInv(t: Table, limit: Option<nat>, c: Cid, u: u16)
    requires TableInv(t, limit)
    ensures TableInv(RemoveEntry(t, c, u), limit)
  {
    FewerSources(t, RemoveEntry(t, c, u));
  }

  /** The first packet of a source on a universe passes whatever number it carries. */
  lemma FirstPacketPasses(seqNo: byte)
    ensures SeqDiff(seqNo, (seqNo + 0xFF) % 0x100) == 1
  {
  }

  /** Accepted, rejected or over the limit: the table keeps its invariant, even though a new source starts out empty. */
  lemma JudgeKeepsInv(t: Table, limit: Option<nat>, c: Cid, seqNo: byte, u: u16, now: nat)
    requires TableInv(t, limit)
    ensures TableInv(Judge(t, limit, c, seqNo, u, now).0, limit)
  {
    FirstPacketPasses(seqNo);
    var t' := Judge(t, limit, c, seqNo, u, now).0;
    assert t'.Keys == t.Keys || t'.Keys == t.Keys + {c};
    assert |t'.Keys| == |t'| && |t.Keys| == |t|;
  }

  lemma SweepKeepsInv(t: Table, limit: Option<nat>, now: nat, announce: bool, pick: Pick)
    requires TableInv(t, limit)
    ensures TableInv(Sweep(t, now, announce, pick).0, limit)
  {
    PurgeKeepsInv(t, limit, now);
    if pick.Some? { RemoveKeepsInv(t, limit, pick.value.0, pick.value.1); }
  }

  lemma CheckSeqKeepsInv(t: Table, limit: Option<nat>, c: Cid, seqNo: byte, u: u16, now: nat, announce: bool,
                         pick: Pick)
    requires TableInv(t, limit)
    ensures TableInv(CheckSeq(t, limit, c, seqNo, u, now, announce, pick).0, limit)
  {
    SweepKeepsInv(t, limit, now, announce, pick);
    JudgeKeepsInv(Sweep(t, now, announce, pick).0, limit, c, seqNo, u, now);
  }

  lemma EntryOfPurge(t: Table, now: nat, c: Cid, u: u16)
    ensures
      var e := Entry(t, c, u);
      Entry(Purge(t, now), c, u) == if e.Some? && !Expired(e.value, now) then e else None
  {
    if c in t && u in t[c] && !Expired(t[c][u], now) {
      assert u in Live(t[c], now);
    }
  }

  lemma EntryOfRemove(t: Table, c: Cid, u: u16, c': Cid, u': u16)
    ensures Entry(RemoveEntry(t, c, u), c', u') == if c == c' && u == u' then None else Entry(t, c', u')
  {
    if c in t && u in t[c] && t[c] - {u} == map[] {
      assert forall v | v in t[c] && v != u :: v in t[c] - {u};
    }
  }

  lemma EntryOfJudge(t: Table, limit: Option<nat>, c: Cid, seqNo: byte, u: u16, now: nat, c': Cid, u': u16)
    ensures
      var (t', r) := Judge(t, limit, c, seqNo, u, now);
      Entry(t', c', u') == if r.Ok? && c == c' && u == u' then Some(Stamp(seqNo, now)) else Entry(t, c', u')
  {
  }

  /**
   * An announcing sweep that reports a timeout removes an entry that had expired, its source only when that
   * leaves it empty, and nothing else; the table shrinks by exactly that entry.
   */
  lemma AnnouncedTimeoutIsSound(t: Table, limit: Option<nat>, now: nat, c: Cid, u: u16)
    requires TableInv(t, limit) && AllowedPick(t, now, Some((c, u)))
    ensures
      var t' := Sweep(t, now, true, Some((c, u))).0;
      && Expired(t[c][u], now)
      && Pairs(t') == Pairs(t) - {(c, u)} && |Pairs(t')| == |Pairs(t)| - 1
      && (forall c', u' | (c', u') in Pairs(t') :: t'[c'][u'] == t[c'][u'])
      && (c !in t' <==> t[c].Keys == {u})
  {
    var t' := RemoveEntry(t, c, u);
    forall c': Cid, u': u16 ensures (c', u') in Pairs(t') <==> (c', u') in Pairs(t) && (c', u') != (c, u) {
      EntryOfRemove(t, c, u, c', u');
    }
    assert (c, u) in Pairs(t);
    assert Pairs(t') == Pairs(t) - {(c, u)};
    var rest := t[c] - {u};
    assert rest.Keys == t[c].Keys - {u};
    assert rest == map[] <==> rest.Keys == {};
  }

  /**
   * An announcing sweep that reports nothing proves nothing expired exactly when no source is free of expired
   * entries.
   */
  lemma SilentAnnouncingSweep(t: Table, now: nat)
    ensures (AllowedPick(t, now, None) ==> NothingExpired(t, now))
       <==> (NothingExpired(t, now) || forall c | c in t :: SomeExpired(t[c], now))
    ensures |t| == 1 && AllowedPick(t, now, None) ==> NothingExpired(t, now)
  {
    if |t| == 1 && AllowedPick(t, now, None) {
      var c :| c in t && !SomeExpired(t[c], now);
      assert |t.Keys - {c}| == 0;
    }
  }

  /** With two sources the announcing sweep can stay silent about an entry that has expired. */
  lemma SilentSweepMissesExpired(c: Cid, d: Cid)
    requires c != d
    ensures
      var t: Table := map[c := map[1 := Stamp(0, 2500)], d := map[1 := Stamp(0, 0)]];
      AllowedPick(t, 2500, None) && Expired(t[d][1], 2500)
  {
    var t: Table := map[c := map[1 := Stamp(0, 2500)], d := map[1 := Stamp(0, 0)]];
    assert c in t && !SomeExpired(t[c], 2500);
  }

  // -------------------------------------------------------------- the tables

  /** One table of the receiver: the sequence numbers of one kind of packet. */
  class SequenceTable {
    var entries: Table

    constructor ()
      ensures entries == map[]
    {
      entries := map[];
    }

    /** Sweeps the table. The hash maps are walked in an arbitrary order. */
    method CheckTimeouts(now: nat, announce: bool) returns (r: Result<Unit>)
      modifies this
      ensures AllowedPick(old(entries), now, PickOf(r)) || !announce
      ensures (entries, r) == Sweep(old(entries), now, announce, PickOf(r))
    {
      if announce {
        r := AnnounceTimeout(now);
      } else {
        RetainLive(now);
        r := Ok(Unit);
      }
    }

    method RetainLive(now: nat)
      modifies this
      ensures entries == Purge(old(entries), now)
    {
      ghost var before := entries;
      var todo := entries.Keys;
      while todo != {}
        invariant todo <= entries.Keys == before.Keys
        invariant forall c | c in before && c in todo :: entries[c] == before[c]
        invariant forall c | c in before && c !in todo :: entries[c] == Live(before[c], now)
        decreases |todo|
      {
        var c :| c in todo;
        entries := entries[c := Live(entries[c], now)];
        todo := todo - {c};
      }
      PurgeInTwoSteps(before, entries, now);
      entries := map c | c in entries && entries[c] != map[] :: entries[c];
    }

    /** Expired entries first, emptied sources afterwards. */
    static lemma PurgeInTwoSteps(before: Table, swept: Table, now: nat)
      requires swept.Keys == before.Keys && forall c | c in before :: swept[c] == Live(before[c], now)
      ensures (map c | c in swept && swept[c] != map[] :: swept[c]) == Purge(before, now)
    {
    }

    method AnnounceTimeout(now: nat) returns (r: Result<Unit>)
      modifies this
      ensures AllowedPick(old(entries), now, PickOf(r))
      ensures (entries, r) == Sweep(old(entries), now, true, PickOf(r))
    {
      var timedOut: Pick := None;
      var todo := entries.Keys;
      while todo != {}
        invariant todo <= entries.Keys
        invariant timedOut.None? ==> todo == entries.Keys
        invariant timedOut.Some? ==> AllowedPick(entries, now, timedOut)
        decreases |todo|
      {
        var c :| c in todo;
        todo := todo - {c};
        var us := entries[c].Keys;
        var seen := timedOut;
        while us != {}
          invariant us <= entries[c].Keys
          invariant timedOut == seen
          invariant forall u | u in entries[c].Keys - us :: !Expired(entries[c][u], now)
          decreases |us|
        {
          var u :| u in us;
          us := us - {u};
          if Expired(entries[c][u], now) {
            timedOut := Some((c, u));
            break;
          }
        }
        if timedOut.None? {
          assert !SomeExpired(entries[c], now);
          break;
        }
      }
      match timedOut {
        case None => return Ok(Unit);
        case Some((c, u)) =>
          entries := entries[c := entries[c] - {u}];
          if entries[c] == map[] {
            entries := entries - {c};
          }
          assert entries == RemoveEntry(old(entries), c, u);
          return Err(UniverseTimeout(c, u));
      }
    }

    /** Sweeps, then accepts or rejects the packet numbered `seqNo`. */
    method CheckSeqNumber(limit: Option<nat>, c: Cid, seqNo: byte, u: u16, now: nat, announce: bool)
      returns (r: Result<Unit>)
      modifies this
      ensures AllowedPick(old(entries), now, PickOf(r)) || !announce
      ensures (entries, r) == CheckSeq(old(entries), limit, c, seqNo, u, now, announce, PickOf(r))
    {
      r := CheckTimeouts(now, announce);
      if r.Err? { return; }
      if c !in entries {
        if limit.None? || |entries| < limit.value {
          entries := entries[c := map[]];
        } else {
          return Err(SourcesExceeded(|entries|));
        }
      }
      var last := if u in entries[c] then entries[c][u].seqNo else (seqNo + 0xFF) % 0x100;
      var diff := SeqDiff(seqNo, last);
      if diff <= SEQ_DIFF_DISCARD_UPPER_BOUND && diff > SEQ_DIFF_DISCARD_LOWER_BOUND {
        return Err(OutOfSequence(seqNo, last, diff));
      }
      entries := SetStamp(entries, c, u, Stamp(seqNo, now));
      return Ok(Unit);
    }

    /** Forgets one universe of a source, and the source with its last universe. */
    method RemoveSourceUniverse(c: Cid, u: u16) returns (r: Result<Unit>)
      modifies this
      ensures entries == RemoveEntry(old(entries), c, u)
      ensures r == if c !in old(entries) then Err(SourceNotFound(c))
                   else if u !in old(entries)[c] then Err(UniverseNotFound(u)) else Ok(Unit)
    {
      if c !in entries { return Err(SourceNotFound(c)); }
      if u !in entries[c] { return Err(UniverseNotFound(u)); }
      entries := entries[c := entries[c] - {u}];
      if entries[c] == map[] {
        entries := entries - {c};
      }
      assert entries == RemoveEntry(old(entries), c, u);
      return Ok(Unit);
    }
  }

  /** What a termination forgets: the sync table is only reached when the data table knew the stream. */
  function ForgetStream(data: Table, sync: Table, c: Cid, u: u16): (Table, Table) {
    if Entry(data, c, u).None? then (data, sync) else (RemoveEntry(data, c, u), RemoveEntry(sync, c, u))
  }

  /**
   * A termination removes the tracking of both kinds of packet exactly when data was tracked or no sync numbers
   * were.
   */
  lemma RemovesBothIff(data: Table, sync: Table, c: Cid, u: u16)
    ensures
      var (data', sync') := ForgetStream(data, sync, c, u);
      && Entry(data', c, u).None?
      && (Entry(sync', c, u).None? <==> Entry(data, c, u).Some? || Entry(sync, c, u).None?)
  {
    EntryOfRemove(data, c, u, c, u);
    EntryOfRemove(sync, c, u, c, u);
  }

  /** Both tables of a receiver. */
  class SequenceNumbering {
    const data: SequenceTable
    const sync: SequenceTable

    ghost predicate Valid() { data != sync }

    constructor ()
      ensures Valid() && fresh(data) && fresh(sync)
      ensures data.entries == map[] && sync.entries == map[]
    {
      data := new SequenceTable();
      sync := new SequenceTable();
    }

    method Clear()
      requires Valid()
      modifies data, sync
      ensures data.entries == map[] && sync.entries == map[]
    {
      data.entries := map[];
      sync.entries := map[];
    }

    /** Sweeps the data table and then, unless that reported a timeout, the sync table. */
    method CheckTimeouts(now: nat, announce: bool) returns (r: Result<Unit>, ghost onData: Result<Unit>)
      requires Valid()
      modifies data, sync
      ensures announce ==> AllowedPick(old(data.entries), now, PickOf(onData))
      ensures (data.entries, onData) == Sweep(old(data.entries), now, announce, PickOf(onData))
      ensures onData.Err? ==> r == onData && sync.entries == old(sync.entries)
      ensures onData.Ok? ==> (announce ==> AllowedPick(old(sync.entries), now, PickOf(r)))
      ensures onData.Ok? ==> (sync.entries, r) == Sweep(old(sync.entries), now, announce, PickOf(r))
    {
      r := data.CheckTimeouts(now, announce);
      onData := r;
      if r.Ok? {
        r := sync.CheckTimeouts(now, announce);
      }
    }

    method RemoveSeqNumbers(c: Cid, u: u16) returns (r: Result<Unit>)
      requires Valid()
      modifies data, sync
      ensures (data.entries, sync.entries) == ForgetStream(old(data.entries), old(sync.entries), c, u)
      ensures r == if c !in old(data.entries) then Err(SourceNotFound(c))
                   else if u !in old(data.entries)[c] then Err(UniverseNotFound(u))
                   else if c !in old(sync.entries) then Err(SourceNotFound(c))
                   else if u !in old(sync.entries)[c] then Err(UniverseNotFound(u)) else Ok(Unit)
    {
      r := data.RemoveSourceUniverse(c, u);
      if r.Ok? {
        r := sync.RemoveSourceUniverse(c, u);
      }
    }
  }
}
