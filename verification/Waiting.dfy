/** Data held back until a synchronisation packet releases it (sections 6.2.4.1 and 11.1 of ANSI E1.31-2018). */
module Waiting {
  import opened Types
  import opened Merge

  /** At most one packet per universe. */
  type Buffer = map<u16, DmxData>

  predicate Fresh(d: DmxData, now: nat) {
    now - d.recvTime < DATA_LOSS_TIMEOUT
  }

  /** Stores a packet, merged with the one that waits for its universe; a failed merge loses both. */
  function Store(w: Buffer, d: DmxData, merge: MergeFn): (Buffer, Result<Unit>) {
    if d.universe !in w then (w[d.universe := d], Ok(Unit))
    else match merge(w[d.universe], d)
      case Ok(m) => (w[d.universe := m], Ok(Unit))
      case Err(e) => (w - {d.universe}, Err(e))
  }

  /** The packets a synchronisation packet releases. */
  function Released(w: Buffer, sync: u16, now: nat): set<DmxData> {
    set u | u in w && w[u].syncUni == sync && Fresh(w[u], now) :: w[u]
  }

  /** What is left behind: everything that waits for another address. */
  function Unreleased(w: Buffer, sync: u16): Buffer {
    map u | u in w && w[u].syncUni != sync :: w[u]
  }

  function DropStale(w: Buffer, now: nat): Buffer {
    map u | u in w && Fresh(w[u], now) :: w[u]
  }

  // ------------------------------------------------------- the buffer's runs

  datatype Op = Put(data: DmxData) | Take(sync: u16) | Drop(universe: u16) | DropAll | Expire

  function Step(w: Buffer, o: Timed<Op>, merge: MergeFn): (Buffer, set<DmxData>) {
    match o.event
    case Put(d) => (Store(w, d, merge).0, {})
    case Take(s) => (Unreleased(w, s), Released(w, s, o.now))
    case Drop(u) => (w - {u}, {})
    case DropAll => (map[], {})
    case Expire => (DropStale(w, o.now), {})
  }

  function BufferAfter(w: Buffer, ops: seq<Timed<Op>>, merge: MergeFn): Buffer {
    if ops == [] then w else Step(BufferAfter(w, ops[..|ops| - 1], merge), ops[|ops| - 1], merge).0
  }

  lemma {:induction false} BufferAfterJoin(w: Buffer, a: seq<Timed<Op>>, b: seq<Timed<Op>>, merge: MergeFn)
    ensures BufferAfter(w, a + b, merge) == BufferAfter(BufferAfter(w, a, merge), b, merge)
    decreases |b|
  {
    if b == [] {
      assert a + b == a;
    } else {
      assert (a + b)[..|a + b| - 1] == a + b[..|b| - 1];
      BufferAfterJoin(w, a, b[..|b| - 1], merge);
    }
  }

  lemma {:induction false} BufferAfterOne(w: Buffer, op: Timed<Op>, merge: MergeFn)
    ensures BufferAfter(w, [op], merge) == Step(w, op, merge).0
  {
    assert [op][..0] == [];
  }

  /** The operations store the packets, all for universe `u`, one after the other. */
  ghost predicate StoresEach(ops: seq<Timed<Op>>, u: u16, xs: seq<DmxData>) {
    |ops| == |xs| && forall i | 0 <= i < |xs| :: ops[i].event == Put(xs[i]) && xs[i].universe == u
  }

  /** Packets stored one after the other for one universe wait there as their fold. */
  lemma {:induction false} StoredIsFolded(w: Buffer, u: u16, xs: seq<DmxData>, ops: seq<Timed<Op>>, merge: MergeFn)
    requires u in w && StoresEach(ops, u, xs) && Fold(merge, w[u], xs).Ok?
    ensures
      var w' := BufferAfter(w, ops, merge);
      u in w' && Ok(w'[u]) == Fold(merge, w[u], xs) && w' - {u} == w - {u}
  {
    if xs != [] {
      var n := |xs| - 1;
      FoldLast(merge, w[u], xs);
      StoredIsFolded(w, u, xs[..n], ops[..n], merge);
    }
  }

  lemma {:induction false} FoldLast(merge: MergeFn, acc: DmxData, xs: seq<DmxData>)
    requires xs != []
    ensures
      var r := Fold(merge, acc, xs[..|xs| - 1]);
      Fold(merge, acc, xs) == if r.Err? then r else merge(r.value, xs[|xs| - 1])
    decreases |xs|
  {
    var r := merge(acc, xs[0]);
    if |xs| > 1 && r.Ok? {
      FoldLast(merge, r.value, xs[1..]);
      assert xs[1..][..|xs| - 2] == xs[..|xs| - 1][1..];
    }
  }

  lemma {:induction false} FirstIsStored(w: Buffer, u: u16, xs: seq<DmxData>, ops: seq<Timed<Op>>, merge: MergeFn)
    requires u !in w && xs != [] && StoresEach(ops, u, xs) && Fold(merge, xs[0], xs[1..]).Ok?
    ensures
      var w' := BufferAfter(w, ops, merge);
      u in w' && Ok(w'[u]) == Fold(merge, xs[0], xs[1..]) && w' - {u} == w
  {
    var w1: Buffer := w[u := xs[0]];
    assert ops == [ops[0]] + ops[1..];
    BufferAfterJoin(w, [ops[0]], ops[1..], merge);
    BufferAfterOne(w, ops[0], merge);
    StoredIsFolded(w1, u, xs[1..], ops[1..], merge);
    assert w1 - {u} == w;
  }

  /** Under the default merge the latest of the packets of highest priority waits for its universe. */
  lemma LatestOfHighestWaits(w: Buffer, u: u16, xs: seq<DmxData>, ops: seq<Timed<Op>>) returns (last: nat)
    requires u !in w && xs != [] && StoresEach(ops, u, xs)
    ensures LatestOfHighest(xs, last)
    ensures BufferAfter(w, ops, DiscardLowestPriorityThenPrevious) == w[u := xs[last]]
  {
    last := DefaultMergeKeepsLatestOfHighest(xs);
    FirstIsStored(w, u, xs, ops, DiscardLowestPriorityThenPrevious);
    var w' := BufferAfter(w, ops, DiscardLowestPriorityThenPrevious);
    assert w' == (w' - {u})[u := xs[last]];
  }

  /** Under the HTP merge it is their HTP merge that waits, whatever the order they came in. */
  lemma {:induction false} HtpWaits(w: Buffer, u: u16, xs: seq<DmxData>, ops: seq<Timed<Op>>)
    requires u !in w && xs != [] && StoresEach(ops, u, xs) && AllCompatible(Elements(xs))
    ensures
      var w' := BufferAfter(w, ops, HtpMerge);
      u in w' && IsHtpOf(w'[u], Elements(xs)) && w' - {u} == w
  {
    HtpFold(xs);
    FirstIsStored(w, u, xs, ops, HtpMerge);
  }

  /**
   * Packets stored in turn under the HTP merge are released as one, and only if their synchronisation packet comes less
   * than 2.5 s after the first of those of highest priority.
   */
  lemma HtpReleasedIff(w: Buffer, u: u16, xs: seq<DmxData>, ops: seq<Timed<Op>>, now: nat) returns (first: nat)
    requires u !in w && xs != [] && StoresEach(ops, u, xs) && AllCompatible(Elements(xs))
    requires forall v | v in w :: w[v].syncUni != xs[0].syncUni
    ensures FirstOfHighest(xs, first)
    ensures
      var w' := BufferAfter(w, ops, HtpMerge);
      && u in w' && IsHtpOf(w'[u], Elements(xs))
      && Released(w', xs[0].syncUni, now) == if now - xs[first].recvTime < 2500 then {w'[u]} else {}
  {
    HtpWaits(w, u, xs, ops);
    first := HtpStamp(xs);
    FirstIsStored(w, u, xs, ops, HtpMerge);
    var w' := BufferAfter(w, ops, HtpMerge);
    assert xs[0] in Elements(xs) && Compatible(w'[u], xs[0]);
    forall v | v in w' && v != u ensures w'[v].syncUni != xs[0].syncUni { assert v in w' - {u}; }
  }

  /**
   * Storing under the HTP merge leaves the universe with nothing at all exactly when the two packets do not fit
   * together: one is empty, or they differ in start code, address or universe.
   */
  lemma HtpStoreLosesBothIff(w: Buffer, d: DmxData)
    ensures
      var (w', r) := Store(w, d, HtpMerge);
      && (d.universe !in w' <==>
            d.universe in w
            && var i := w[d.universe];
               || i.values == [] || d.values == [] || i.values[0] != d.values[0]
               || i.syncUni != d.syncUni || i.universe != d.universe)
      && (r == Err(DmxMergeError) <==> d.universe !in w') && (r == Ok(Unit) <==> d.universe in w')
      && w' - {d.universe} == w - {d.universe}
  {
  }

  /** Whatever the merge function: a packet waits as it came, or merged, or its failed merge loses both. */
  lemma StoreOutcomes(w: Buffer, d: DmxData, merge: MergeFn)
    ensures
      var ((w', r), u) := (Store(w, d, merge), d.universe);
      && (u !in w ==> r == Ok(Unit) && u in w' && w'[u] == d)
      && (u in w && merge(w[u], d).Ok? ==> r == Ok(Unit) && u in w' && w'[u] == merge(w[u], d).value)
      && (u in w && merge(w[u], d).Err? ==> r == Err(merge(w[u], d).error) && u !in w')
      && forall v | v != u :: (v in w' <==> v in w) && (v in w ==> w'[v] == w[v])
  {
  }

  /**
   * Under the default merge a store never fails, and a packet of no lower priority replaces what waits for its
   * universe, whatever address that waits for.
   */
  lemma DefaultStoreNeverFails(w: Buffer, d: DmxData)
    ensures
      var (w', r) := Store(w, d, DiscardLowestPriorityThenPrevious);
      && r.Ok? && d.universe in w' && w' - {d.universe} == w - {d.universe}
      && (d.universe in w && w[d.universe].priority > d.priority ==> w' == w)
      && (d.universe in w && w[d.universe].priority <= d.priority ==> w'[d.universe] == d)
  {
    if d.universe in w && w[d.universe].priority > d.priority { assert w[d.universe := w[d.universe]] == w; }
  }

  // ----------------------------------------------------------- conservation

  /** A waiting packet with the position of the event that stored it. */
  datatype Item = Item(id: nat, data: DmxData)

  type Tagged = map<u16, Item>

  function Erase(t: Tagged): Buffer {
    map u | u in t :: t[u].data
  }

  function EraseItems(s: set<Item>): set<DmxData> {
    set i | i in s :: i.data
  }

  function DefaultItem(i: Item, n: Item): Item {
    if i.data.priority > n.data.priority then i else n
  }

  /** The step under the default merge, carrying the tags along. */
  function TaggedStep(t: Tagged, o: Timed<Op>, at: nat): (Tagged, set<Item>) {
    match o.event
    case Put(d) =>
      (t[d.universe := if d.universe in t then DefaultItem(t[d.universe], Item(at, d)) else Item(at, d)], {})
    case Take(s) =>
      (map u | u in t && t[u].data.syncUni != s :: t[u],
       set u | u in t && t[u].data.syncUni == s && Fresh(t[u].data, o.now) :: t[u])
    case Drop(u) => (t - {u}, {})
    case DropAll => (map[], {})
    case Expire => (map u | u in t && Fresh(t[u].data, o.now) :: t[u], {})
  }

  /** The buffer before event `n` of a run that starts empty. */
  function StateAt(ops: seq<Timed<Op>>, n: nat): Tagged
    requires n <= |ops|
  {
    if n == 0 then map[] else TaggedStep(StateAt(ops, n - 1), ops[n - 1], n - 1).0
  }

  function ReleasedAt(ops: seq<Timed<Op>>, n: nat): set<Item>
    requires n < |ops|
  {
    TaggedStep(StateAt(ops, n), ops[n], n).1
  }

  /** The tags change nothing: without them the run is the receiver's own. */
  lemma TagsAreInert(t: Tagged, o: Timed<Op>, at: nat)
    ensures
      var (t', out) := TaggedStep(t, o, at);
      Step(Erase(t), o, DiscardLowestPriorityThenPrevious) == (Erase(t'), EraseItems(out))
  {
    var (t', out) := TaggedStep(t, o, at);
    var (w', rel) := Step(Erase(t), o, DiscardLowestPriorityThenPrevious);
    assert Erase(t') == w';
    if o.event.Take? {
      var s := o.event.sync;
      forall d ensures d in rel <==> d in EraseItems(out) {
        if d in rel {
          var u :| u in Erase(t) && Erase(t)[u].syncUni == s && Fresh(Erase(t)[u], o.now) && Erase(t)[u] == d;
          assert t[u] in out;
        }
        if d in EraseItems(out) {
          var i :| i in out && i.data == d;
          var u :| u in t && t[u] == i;
          assert Erase(t)[u] == d;
        }
      }
    } else {
      assert out == {};
    }
    assert rel == EraseItems(out);
  }

  lemma {:induction false} TaggedRunIsRun(ops: seq<Timed<Op>>, n: nat)
    requires n <= |ops|
    ensures Erase(StateAt(ops, n)) == BufferAfter(map[], ops[..n], DiscardLowestPriorityThenPrevious)
  {
    if n > 0 {
      TaggedRunIsRun(ops, n - 1);
      TagsAreInert(StateAt(ops, n - 1), ops[n - 1], n - 1);
      assert ops[..n][..n - 1] == ops[..n - 1] && ops[..n][n - 1] == ops[n - 1];
    } else {
      assert ops[..n] == [];
    }
  }

  /** What a run releases under the default merge is what its tagged form releases, tags taken off. */
  lemma TaggedReleasesAreReleases(ops: seq<Timed<Op>>, n: nat)
    requires n < |ops|
    ensures EraseItems(ReleasedAt(ops, n))
         == Step(BufferAfter(map[], ops[..n], DiscardLowestPriorityThenPrevious), ops[n],
                 DiscardLowestPriorityThenPrevious).1
  {
    TaggedRunIsRun(ops, n);
    TagsAreInert(StateAt(ops, n), ops[n], n);
  }

  /** The packet that event `i` stored waits at universe `u` before event `m`. */
  ghost predicate Held(ops: seq<Timed<Op>>, i: nat, u: u16, d: DmxData, m: nat)
    requires m <= |ops|
  {
    u in StateAt(ops, m) && StateAt(ops, m)[u] == Item(i, d)
  }

  /** Whatever waits was stored by an earlier event and has waited, untouched, ever since. */
  lemma {:induction false} WaitingSinceStored(ops: seq<Timed<Op>>, n: nat, u: u16)
    requires n <= |ops| && u in StateAt(ops, n)
    ensures
      var i := StateAt(ops, n)[u];
      && i.id < n && ops[i.id].event == Put(i.data) && i.data.universe == u
      && forall m | i.id < m <= n :: Held(ops, i.id, u, i.data, m)
  {
    var i := StateAt(ops, n)[u];
    if u in StateAt(ops, n - 1) && StateAt(ops, n - 1)[u] == i {
      WaitingSinceStored(ops, n - 1, u);
    } else {
      assert i.id == n - 1;
    }
  }

  /**
   * What is owed to a packet released by event `j`: an earlier event stored it, it is released by a synchronisation
   * packet for its own address less than 2.5 s after it arrived, it waited undisturbed in between, and no other
   * event of the run releases it.
   */
  ghost predicate Conserved(ops: seq<Timed<Op>>, j: nat, x: Item)
    requires j < |ops|
  {
    && x.id < j && ops[x.id].event == Put(x.data) && ops[j].event == Take(x.data.syncUni)
    && ops[j].now - x.data.recvTime < DATA_LOSS_TIMEOUT
    && (forall m | x.id < m <= j :: Held(ops, x.id, x.data.universe, x.data, m))
    && (forall k | 0 <= k < |ops| && k != j :: x !in ReleasedAt(ops, k))
  }

  /** Nothing is released out of thin air, late, for the wrong address, or twice. */
  lemma SyncReleaseIsConserved(ops: seq<Timed<Op>>, j: nat, x: Item)
    requires j < |ops| && x in ReleasedAt(ops, j)
    ensures Conserved(ops, j, x)
  {
    ReleasedWasHeld(ops, j, x);
    forall k | 0 <= k < |ops| && k != j ensures x !in ReleasedAt(ops, k) {
      if j < k { ReleasedOnce(ops, j, k, x); }
      if k < j && x in ReleasedAt(ops, k) { ReleasedOnce(ops, k, j, x); }
    }
  }

  lemma ReleasedOnce(ops: seq<Timed<Op>>, j: nat, k: nat, x: Item)
    requires j < k < |ops| && x in ReleasedAt(ops, j)
    ensures x !in ReleasedAt(ops, k)
  {
    ReleasedWasHeld(ops, j, x);
    assert !Held(ops, x.id, x.data.universe, x.data, j + 1);
    if x in ReleasedAt(ops, k) {
      ReleasedWasHeld(ops, k, x);
    }
  }

  lemma {:induction false} ReleasedWasHeld(ops: seq<Timed<Op>>, j: nat, x: Item)
    requires j < |ops| && x in ReleasedAt(ops, j)
    ensures
      && x.id < j && ops[x.id].event == Put(x.data) && ops[j].event == Take(x.data.syncUni)
      && Fresh(x.data, ops[j].now) && Held(ops, x.id, x.data.universe, x.data, j)
      && x.data.universe !in StateAt(ops, j + 1)
      && (forall m | x.id < m <= j :: Held(ops, x.id, x.data.universe, x.data, m))
  {
    var t := StateAt(ops, j);
    var u :| u in t && t[u] == x;
    WaitingSinceStored(ops, j, u);
  }

  /** What waits for a synchronisation packet's address, and is fresh, is released by it. */
  lemma HeldIsReleased(ops: seq<Timed<Op>>, j: nat, i: nat, d: DmxData)
    requires j < |ops| && ops[j].event == Take(d.syncUni) && Fresh(d, ops[j].now)
    ensures Item(i, d) in ReleasedAt(ops, j) <==> Held(ops, i, d.universe, d, j)
  {
    if Item(i, d) in ReleasedAt(ops, j) {
      ReleasedWasHeld(ops, j, Item(i, d));
    }
  }
}
