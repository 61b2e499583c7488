/** Arbitration between packets that wait for the same universe (section 6.2.3 of ANSI E1.31-2018). */
module Merge {
  import opened Types

  /** One universe's data as the receiver hands it out. */
  datatype DmxData = DmxData(
    universe: u16, values: Bytes, syncUni: u16, priority: byte, srcCid: Option<Cid>, preview: bool, recvTime: nat)

  type MergeFn = (DmxData, DmxData) -> Result<DmxData>

  // ------------------------------------------------------------ default merge

  function DiscardLowestPriorityThenPrevious(i: DmxData, n: DmxData): Result<DmxData> {
    if i.priority > n.priority then Ok(i) else Ok(n)
  }

  /** Merging `xs` one after the other into what waits. */
  function Fold(merge: MergeFn, acc: DmxData, xs: seq<DmxData>): Result<DmxData>
    decreases |xs|
  {
    if xs == [] then Ok(acc)
    else
      var r := merge(acc, xs[0]);
      if r.Err? then r else Fold(merge, r.value, xs[1..])
  }

  /** `k` is the last of the packets of highest priority. */
  ghost predicate LatestOfHighest(xs: seq<DmxData>, k: nat) {
    && k < |xs|
    && (forall j | 0 <= j < k :: xs[j].priority <= xs[k].priority)
    && (forall j | k < j < |xs| :: xs[j].priority < xs[k].priority)
  }

  lemma DefaultFoldFrom(done: seq<DmxData>, k: nat, rest: seq<DmxData>) returns (last: nat)
    requires LatestOfHighest(done, k)
    ensures LatestOfHighest(done + rest, last)
    ensures Fold(DiscardLowestPriorityThenPrevious, done[k], rest) == Ok((done + rest)[last])
    decreases |rest|
  {
    if rest == [] {
      assert done + rest == done;
      last := k;
    } else {
      var k' := if done[k].priority > rest[0].priority then k else |done|;
      last := DefaultFoldFrom(done + [rest[0]], k', rest[1..]);
      assert done + rest == done + [rest[0]] + rest[1..];
    }
  }

  /** The default merge leaves exactly the latest packet among those of highest priority. */
  lemma DefaultMergeKeepsLatestOfHighest(xs: seq<DmxData>) returns (last: nat)
    requires xs != []
    ensures LatestOfHighest(xs, last)
    ensures Fold(DiscardLowestPriorityThenPrevious, xs[0], xs[1..]) == Ok(xs[last])
  {
    last := DefaultFoldFrom([xs[0]], 0, xs[1..]);
    assert [xs[0]] + xs[1..] == xs;
  }

  // ---------------------------------------------------------------- HTP merge

  function Longer(a: Bytes, b: Bytes): nat {
    if |a| >= |b| then |a| else |b|
  }

  /** The byte-wise maximum; where one list has ended the other stands alone. */
  function HighestOf(a: Bytes, b: Bytes): (r: Bytes)
    ensures |r| == Longer(a, b)
  {
    seq(Longer(a, b), k requires 0 <= k < Longer(a, b) =>
      if k >= |a| then b[k] else if k >= |b| then a[k] else if a[k] > b[k] then a[k] else b[k])
  }

  predicate Compatible(i: DmxData, n: DmxData) {
    && i.values != [] && n.values != []
    && i.universe == n.universe && i.values[0] == n.values[0] && i.syncUni == n.syncUni
  }

  function HtpMerge(i: DmxData, n: DmxData): Result<DmxData> {
    if !Compatible(i, n) then Err(DmxMergeError)
    else if i.priority > n.priority then Ok(i)
    else if n.priority > i.priority then Ok(n)
    else Ok(DmxData(i.universe, HighestOf(i.values, n.values), i.syncUni, i.priority, None,
                    i.preview || n.preview, i.recvTime))
  }

  /** The merge as the source runs it: two iterators advanced together until both have ended. */
  method HtpDmxMerge(i: DmxData, n: DmxData) returns (r: Result<DmxData>)
    ensures r == HtpMerge(i, n)
  {
    if i.values == [] || n.values == [] || i.universe != n.universe || i.values[0] != n.values[0]
       || i.syncUni != n.syncUni {
      return Err(DmxMergeError);
    }
    if i.priority > n.priority { return Ok(i); }
    if n.priority > i.priority { return Ok(n); }
    var values: Bytes := [];
    var k := 0;
    var iVal, nVal := NextOf(i.values, 0), NextOf(n.values, 0);
    while iVal.Some? || nVal.Some?
      invariant k <= Longer(i.values, n.values)
      invariant iVal == NextOf(i.values, k) && nVal == NextOf(n.values, k)
      invariant values == HighestOf(i.values, n.values)[..k]
      decreases Longer(i.values, n.values) - k
    {
      match (iVal, nVal) {
        case (Some(a), Some(b)) => values := values + [if a > b then a else b];
        case (Some(a), None) => values := values + [a];
        case (None, Some(b)) => values := values + [b];
      }
      k := k + 1;
      iVal, nVal := NextOf(i.values, k), NextOf(n.values, k);
    }
    assert values == HighestOf(i.values, n.values);
    return Ok(DmxData(i.universe, values, i.syncUni, i.priority, None, i.preview || n.preview, i.recvTime));
  }

  function NextOf(v: Bytes, k: nat): Option<byte> {
    if k < |v| then Some(v[k]) else None
  }

  /** All pairwise mergeable: no empty list, one universe, one sync address, one start code. */
  ghost predicate AllCompatible(xs: set<DmxData>) {
    forall i, j | i in xs && j in xs :: Compatible(i, j)
  }

  ghost predicate Below(a: Bytes, b: Bytes) {
    |a| <= |b| && forall k | 0 <= k < |a| :: a[k] <= b[k]
  }

  /** Slot `k` of `r` comes from a packet of its priority. */
  ghost predicate Attained(r: DmxData, xs: set<DmxData>, k: int)
    requires 0 <= k < |r.values|
  {
    exists d | d in xs :: d.priority == r.priority && k < |d.values| && d.values[k] == r.values[k]
  }

  /**
   * What an HTP merge of `xs` is, without reference to any order: the highest priority present, and over the
   * packets of that priority the slot-wise maximum and whether one of them is a preview.
   */
  ghost predicate IsHtpOf(r: DmxData, xs: set<DmxData>) {
    && (forall d | d in xs :: Compatible(r, d) && d.priority <= r.priority)
    && (exists d | d in xs :: d.priority == r.priority)
    && (forall d | d in xs :: d.priority == r.priority ==> Below(d.values, r.values))
    && (forall k | 0 <= k < |r.values| :: Attained(r, xs, k))
    && (r.preview <==> exists d | d in xs :: d.priority == r.priority && d.preview)
  }

  lemma HtpStep(acc: DmxData, xs: set<DmxData>, x: DmxData)
    requires IsHtpOf(acc, xs) && Compatible(acc, x)
    ensures HtpMerge(acc, x).Ok? && IsHtpOf(HtpMerge(acc, x).value, xs + {x})
  {
    var ys := xs + {x};
    assert x in ys && forall d | d in xs :: d in ys;
    if acc.priority > x.priority {
      forall k | 0 <= k < |acc.values| ensures Attained(acc, ys, k) { assert Attained(acc, xs, k); }
    } else if x.priority > acc.priority {
      forall k | 0 <= k < |x.values| ensures Attained(x, ys, k) { assert x.values[k] == x.values[k]; }
    } else {
      HtpTie(acc, xs, x);
    }
  }

  lemma HtpTie(acc: DmxData, xs: set<DmxData>, x: DmxData)
    requires IsHtpOf(acc, xs) && Compatible(acc, x) && acc.priority == x.priority
    ensures IsHtpOf(HtpMerge(acc, x).value, xs + {x})
  {
    var r, ys := HtpMerge(acc, x).value, xs + {x};
    assert x in ys && forall d | d in xs :: d in ys;
    forall d | d in ys && d.priority == r.priority ensures Below(d.values, r.values) {
      assert d == x || Below(d.values, acc.values);
    }
    forall k | 0 <= k < |r.values| ensures Attained(r, ys, k) {
      if k < |acc.values| && acc.values[k] == r.values[k] {
        assert Attained(acc, xs, k);
      } else {
        assert x.values[k] == r.values[k];
      }
    }
  }

  function Elements(xs: seq<DmxData>): set<DmxData> {
    set d | d in xs
  }

  lemma {:induction false} HtpFoldFrom(acc: DmxData, done: set<DmxData>, rest: seq<DmxData>)
    requires AllCompatible(done + Elements(rest)) && IsHtpOf(acc, done)
    ensures
      var r := Fold(HtpMerge, acc, rest);
      r.Ok? && IsHtpOf(r.value, done + Elements(rest))
    decreases |rest|
  {
    if rest == [] {
      assert done + Elements(rest) == done;
    } else {
      var d :| d in done && d.priority == acc.priority;
      assert rest[0] in Elements(rest);
      assert Compatible(d, rest[0]);
      HtpStep(acc, done, rest[0]);
      assert done + Elements(rest) == done + {rest[0]} + Elements(rest[1..]);
      HtpFoldFrom(HtpMerge(acc, rest[0]).value, done + {rest[0]}, rest[1..]);
    }
  }

  /** Folding the HTP merge over compatible packets succeeds and yields their order-free merge. */
  lemma HtpFold(xs: seq<DmxData>)
    requires xs != [] && AllCompatible(Elements(xs))
    ensures
      var r := Fold(HtpMerge, xs[0], xs[1..]);
      r.Ok? && IsHtpOf(r.value, Elements(xs))
  {
    var x := xs[0];
    assert Elements(xs) == {x} + Elements(xs[1..]);
    assert Compatible(x, x);
    forall k | 0 <= k < |x.values| ensures Attained(x, {x}, k) { assert x in {x}; }
    assert IsHtpOf(x, {x}) by { assert x in {x}; }
    HtpFoldFrom(x, {x}, xs[1..]);
  }

  ghost predicate SameOutput(a: DmxData, b: DmxData) {
    && a.universe == b.universe && a.syncUni == b.syncUni
    && a.priority == b.priority && a.preview == b.preview && a.values == b.values
  }

  lemma HtpBelow(a: DmxData, b: DmxData, xs: set<DmxData>)
    requires IsHtpOf(a, xs) && IsHtpOf(b, xs) && a.priority == b.priority
    ensures Below(a.values, b.values)
  {
    forall k | 0 <= k < |a.values| ensures k < |b.values| && a.values[k] <= b.values[k] {
      assert Attained(a, xs, k);
      var d :| d in xs && d.priority == a.priority && k < |d.values| && d.values[k] == a.values[k];
      assert Below(d.values, b.values);
    }
    if a.values != [] {
      var top := a.values[|a.values| - 1];
      assert |a.values| - 1 < |b.values|;
    }
  }

  /** The order-free description leaves nothing open. */
  lemma HtpUnique(a: DmxData, b: DmxData, xs: set<DmxData>)
    requires IsHtpOf(a, xs) && IsHtpOf(b, xs)
    ensures SameOutput(a, b)
  {
    var d :| d in xs && d.priority == a.priority;
    var e :| e in xs && e.priority == b.priority;
    HtpBelow(a, b, xs);
    HtpBelow(b, a, xs);
  }

  /** However the same packets are ordered or repeated, the HTP merges of them put out the same. */
  lemma HtpOrderFree(xs: seq<DmxData>, ys: seq<DmxData>)
    requires xs != [] && ys != [] && Elements(xs) == Elements(ys) && AllCompatible(Elements(xs))
    ensures
      var a, b := Fold(HtpMerge, xs[0], xs[1..]), Fold(HtpMerge, ys[0], ys[1..]);
      a.Ok? && b.Ok? && SameOutput(a.value, b.value)
  {
    HtpFold(xs);
    HtpFold(ys);
    HtpUnique(Fold(HtpMerge, xs[0], xs[1..]).value, Fold(HtpMerge, ys[0], ys[1..]).value, Elements(xs));
  }

  // ------------------------------------------------------- whose it is, how old

  /** `k` is the first of the packets of highest priority. */
  ghost predicate FirstOfHighest(xs: seq<DmxData>, k: nat) {
    && k < |xs|
    && (forall j | 0 <= j < k :: xs[j].priority < xs[k].priority)
    && (forall j | k < j < |xs| :: xs[j].priority <= xs[k].priority)
  }

  /** Another of the packets has the priority of the `k`-th. */
  ghost predicate Rivalled(xs: seq<DmxData>, k: nat)
    requires k < |xs|
  {
    exists j | 0 <= j < |xs| :: j != k && xs[j].priority == xs[k].priority
  }

  /** What is left of `xs` is as old as their `k`-th, and has its source unless it had to share. */
  ghost predicate StandsFor(r: DmxData, xs: seq<DmxData>, k: nat) {
    && FirstOfHighest(xs, k) && r.priority == xs[k].priority && r.recvTime == xs[k].recvTime
    && r.srcCid == if Rivalled(xs, k) then None else xs[k].srcCid
  }

  lemma StandsForMore(acc: DmxData, done: seq<DmxData>, k: nat, x: DmxData)
    requires StandsFor(acc, done, k) && Compatible(acc, x)
    ensures StandsFor(HtpMerge(acc, x).value, done + [x], if x.priority > acc.priority then |done| else k)
  {
    var all := done + [x];
    assert forall j | 0 <= j < |done| :: all[j] == done[j];
    assert all[|done|] == x;
    if x.priority > acc.priority {
      assert forall j | 0 <= j < |done| :: done[j].priority <= acc.priority;
    } else if Rivalled(done, k) {
      var j :| 0 <= j < |done| && j != k && done[j].priority == done[k].priority;
      assert all[j].priority == all[k].priority;
    }
  }

  lemma {:induction false} HtpStampFrom(acc: DmxData, done: seq<DmxData>, k: nat, rest: seq<DmxData>)
    returns (first: nat)
    requires AllCompatible(Elements(done + rest)) && StandsFor(acc, done, k) && IsHtpOf(acc, Elements(done))
    ensures Fold(HtpMerge, acc, rest).Ok? && StandsFor(Fold(HtpMerge, acc, rest).value, done + rest, first)
    decreases |rest|
  {
    if rest == [] {
      assert done + rest == done;
      first := k;
    } else {
      var x := rest[0];
      assert done[k] in Elements(done + rest) && (done + rest)[|done|] == x && x in Elements(done + rest);
      assert done[k] in Elements(done) && Compatible(acc, done[k]) && Compatible(done[k], x);
      StandsForMore(acc, done, k, x);
      HtpStep(acc, Elements(done), x);
      assert Elements(done + [x]) == Elements(done) + {x};
      assert done + rest == done + [x] + rest[1..];
      var k' := if x.priority > acc.priority then |done| else k;
      first := HtpStampFrom(HtpMerge(acc, x).value, done + [x], k', rest[1..]);
    }
  }

  /** The HTP merge of packets is as old as the first of those of highest priority. */
  lemma HtpStamp(xs: seq<DmxData>) returns (first: nat)
    requires xs != [] && AllCompatible(Elements(xs))
    ensures Fold(HtpMerge, xs[0], xs[1..]).Ok? && StandsFor(Fold(HtpMerge, xs[0], xs[1..]).value, xs, first)
  {
    var x := xs[0];
    assert [x] + xs[1..] == xs && Elements([x]) == {x};
    assert x in Elements(xs) && Compatible(x, x);
    assert IsHtpOf(x, {x}) by {
      assert x in {x};
      forall k | 0 <= k < |x.values| ensures Attained(x, {x}, k) { assert x in {x}; }
    }
    first := HtpStampFrom(x, [x], 0, xs[1..]);
  }
}
