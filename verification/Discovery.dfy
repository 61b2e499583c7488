/** Reassembly of paged universe discovery (section 8 of ANSI E1.31-2018) at the receiver. */
module Discovery {
  import opened Types
  import opened Packet

  datatype Page = Page(page: byte, universes: seq<u16>)

  datatype Source = Source(name: Bytes, cid: Cid, lastUpdated: nat, pages: seq<Page>, lastPage: byte)

  // ------------------------------------------------------------ page sorting

  ghost predicate SortedPages(s: seq<Page>) {
    forall i, j | 0 <= i < j < |s| :: s[i].page <= s[j].page
  }

  function InsertPage(s: seq<Page>, p: Page): (r: seq<Page>)
    ensures |r| == |s| + 1
  {
    if s == [] || s[|s| - 1].page <= p.page then s + [p]
    else InsertPage(s[..|s| - 1], p) + [s[|s| - 1]]
  }

  /** The stable sort by page number. */
  function SortPages(s: seq<Page>): (r: seq<Page>)
    ensures |r| == |s|
  {
    if s == [] then [] else InsertPage(SortPages(s[..|s| - 1]), s[|s| - 1])
  }

  lemma {:induction false} InsertKeeps(s: seq<Page>, p: Page)
    ensures multiset(InsertPage(s, p)) == multiset(s) + multiset{p}
  {
    if s != [] && s[|s| - 1].page > p.page {
      assert s == s[..|s| - 1] + [s[|s| - 1]];
      InsertKeeps(s[..|s| - 1], p);
    }
  }

  lemma {:induction false} InsertSorts(s: seq<Page>, p: Page)
    requires SortedPages(s)
    ensures SortedPages(InsertPage(s, p))
  {
    if s != [] && s[|s| - 1].page > p.page {
      var init, last := s[..|s| - 1], s[|s| - 1];
      InsertSorts(init, p);
      InsertKeeps(init, p);
      var r := InsertPage(init, p);
      forall i | 0 <= i < |r| ensures r[i].page <= last.page {
        assert r[i] in multiset(r);
        assert r[i] == p || r[i] in init;
      }
    }
  }

  lemma {:induction false} SortSorts(s: seq<Page>)
    ensures SortedPages(SortPages(s)) && multiset(SortPages(s)) == multiset(s)
  {
    if s != [] {
      assert s == s[..|s| - 1] + [s[|s| - 1]];
      SortSorts(s[..|s| - 1]);
      InsertSorts(SortPages(s[..|s| - 1]), s[|s| - 1]);
      InsertKeeps(SortPages(s[..|s| - 1]), s[|s| - 1]);
    }
  }

  /** The pages with number `n`, in the order they stand in. */
  function WithNumber(s: seq<Page>, n: int): seq<Page> {
    if s == [] then []
    else WithNumber(s[..|s| - 1], n) + if s[|s| - 1].page == n then [s[|s| - 1]] else []
  }

  lemma {:induction false} InsertIsStable(s: seq<Page>, p: Page, n: int)
    requires SortedPages(s)
    ensures WithNumber(InsertPage(s, p), n) == WithNumber(s, n) + if p.page == n then [p] else []
  {
    if s != [] && s[|s| - 1].page > p.page {
      var init, last := s[..|s| - 1], s[|s| - 1];
      InsertIsStable(init, p, n);
      assert (InsertPage(init, p) + [last])[..|s|] == InsertPage(init, p);
    } else {
      assert (s + [p])[..|s|] == s;
    }
  }

  /** Pages with the same number keep the order they came in. */
  lemma {:induction false} SortIsStable(s: seq<Page>, n: int)
    ensures WithNumber(SortPages(s), n) == WithNumber(s, n)
  {
    if s != [] {
      SortIsStable(s[..|s| - 1], n);
      SortSorts(s[..|s| - 1]);
      InsertIsStable(SortPages(s[..|s| - 1]), s[|s| - 1], n);
    }
  }

  /** Page `i` at position `i`, up to the last. */
  predicate Complete(sorted: seq<Page>, lastPage: byte) {
    lastPage < |sorted| && forall i | 0 <= i <= lastPage :: sorted[i].page == i
  }

  /** The completeness test as the source runs it over pages it has just sorted. */
  method HasAllPages(sorted: seq<Page>, lastPage: byte) returns (r: bool)
    ensures r == Complete(sorted, lastPage)
  {
    var i := 0;
    while i <= lastPage
      invariant 0 <= i <= lastPage + 1
      invariant i <= |sorted| && forall k | 0 <= k < i :: sorted[k].page == k
    {
      if i >= |sorted| || sorted[i].page != i { return false; }
      i := i + 1;
    }
    return true;
  }

  // --------------------------------------------------- when pages are complete

  /** How many of the pages carry number `n`. */
  function Copies(s: seq<Page>, n: int): nat {
    if s == [] then 0 else Copies(s[..|s| - 1], n) + if s[|s| - 1].page == n then 1 else 0
  }

  lemma {:induction false} CopiesOfJoin(a: seq<Page>, b: seq<Page>, n: int)
    ensures Copies(a + b, n) == Copies(a, n) + Copies(b, n)
    decreases |b|
  {
    if b == [] {
      assert a + b == a;
    } else {
      assert (a + b)[..|a + b| - 1] == a + b[..|b| - 1];
      CopiesOfJoin(a, b[..|b| - 1], n);
    }
  }

  lemma {:induction false} CopiesOfInsert(s: seq<Page>, p: Page, n: int)
    ensures Copies(InsertPage(s, p), n) == Copies(s + [p], n)
  {
    assert (s + [p])[..|s|] == s;
    if s != [] && s[|s| - 1].page > p.page {
      var init, last := s[..|s| - 1], s[|s| - 1];
      CopiesOfInsert(init, p, n);
      assert (InsertPage(init, p) + [last])[..|s|] == InsertPage(init, p);
      assert (init + [p])[..|init|] == init;
    }
  }

  lemma {:induction false} CopiesOfSort(s: seq<Page>, n: int)
    ensures Copies(SortPages(s), n) == Copies(s, n)
  {
    if s != [] {
      var init, last := s[..|s| - 1], s[|s| - 1];
      CopiesOfSort(init, n);
      CopiesOfInsert(SortPages(init), last, n);
      assert (SortPages(init) + [last])[..|init|] == SortPages(init);
    }
  }

  lemma {:induction false} NoCopies(s: seq<Page>, n: int)
    requires forall i | 0 <= i < |s| :: s[i].page != n
    ensures Copies(s, n) == 0
  {
    if s != [] { NoCopies(s[..|s| - 1], n); }
  }

  lemma SomeCopy(s: seq<Page>, n: int) returns (m: nat)
    requires Copies(s, n) > 0
    ensures m < |s| && s[m].page == n
  {
    if s[|s| - 1].page == n { m := |s| - 1; } else { m := SomeCopy(s[..|s| - 1], n); }
  }

  /** The copies of `n`, counted around the place where one stands. */
  lemma {:induction false} CopiesAround(s: seq<Page>, k: nat)
    requires k < |s|
    ensures Copies(s, s[k].page) == Copies(s[..k], s[k].page) + 1 + Copies(s[k + 1..], s[k].page)
  {
    var n := s[k].page;
    assert s == s[..k] + ([s[k]] + s[k + 1..]);
    CopiesOfJoin(s[..k], [s[k]] + s[k + 1..], n);
    CopiesOfJoin([s[k]], s[k + 1..], n);
  }

  lemma {:induction false} CompleteHasOneEach(s: seq<Page>, lastPage: byte, n: nat)
    requires SortedPages(s) && Complete(s, lastPage) && n <= lastPage
    ensures if n < lastPage then Copies(s, n) == 1 else Copies(s, n) >= 1
  {
    CopiesAround(s, n);
    NoCopies(s[..n], n);
    if n < lastPage {
      assert s[n + 1].page == n + 1;
      assert forall k | n + 1 < k < |s| :: s[n + 1].page <= s[k].page;
      NoCopies(s[n + 1..], n);
    }
  }

  ghost predicate OneOfEach(s: seq<Page>, lastPage: byte) {
    (forall n: nat | n < lastPage :: Copies(s, n) == 1) && Copies(s, lastPage) >= 1
  }

  lemma NoNeighbour(s: seq<Page>, k: nat)
    requires k + 1 < |s| && Copies(s, s[k].page) == 1
    ensures s[k + 1].page != s[k].page
  {
    CopiesAround(s, k);
    if s[k + 1].page == s[k].page { CopiesAround(s[k + 1..], 0); }
  }

  lemma OneEachIsComplete(s: seq<Page>, lastPage: byte, k: nat)
    requires SortedPages(s) && k <= lastPage && OneOfEach(s, lastPage)
    ensures k < |s| && forall i | 0 <= i <= k :: s[i].page == i
  {
    if k > 0 { OneEachIsComplete(s, lastPage, k - 1); }
    assert Copies(s, k) >= 1;
    var m := SomeCopy(s, k);
    assert m >= k && s[k].page <= s[m].page;
    if k > 0 {
      assert s[k - 1].page <= s[k].page;
      assert Copies(s, k - 1) == 1;
      NoNeighbour(s, k - 1);
    }
  }

  /**
   * A source counts as complete exactly when every page before the last came once and the last at least once:
   * any order will do, but one duplicate of an earlier page blocks it.
   */
  lemma {:induction false} CompleteIffOneOfEach(pages: seq<Page>, lastPage: byte)
    ensures Complete(SortPages(pages), lastPage) <==> OneOfEach(pages, lastPage)
  {
    var s := SortPages(pages);
    SortSorts(pages);
    forall n ensures Copies(s, n) == Copies(pages, n) { CopiesOfSort(pages, n); }
    if Complete(s, lastPage) {
      forall n: nat | n <= lastPage ensures if n < lastPage then Copies(s, n) == 1 else Copies(s, n) >= 1 {
        CompleteHasOneEach(s, lastPage, n);
      }
    }
    if OneOfEach(pages, lastPage) {
      OneEachIsComplete(s, lastPage, lastPage);
    }
  }

  /** No page that may still come makes good a second copy of an earlier one. */
  lemma {:induction false} DuplicateBlocksForGood(pages: seq<Page>, more: seq<Page>, lastPage: byte, n: nat)
    requires n < lastPage && Copies(pages, n) >= 2
    ensures !Complete(SortPages(pages + more), lastPage)
  {
    CopiesOfJoin(pages, more, n);
    CompleteIffOneOfEach(pages + more, lastPage);
  }

  // ------------------------------------------------------- lists of sources

  /** The index of the first source with this identifier. */
  function FindSource(l: seq<Source>, cid: Cid): (r: Option<nat>)
    ensures r.Some? ==> r.value < |l| && l[r.value].cid == cid && forall i | 0 <= i < r.value :: l[i].cid != cid
    ensures r.None? ==> forall i | 0 <= i < |l| :: l[i].cid != cid
  {
    if l == [] then None
    else if l[0].cid == cid then Some(0)
    else match FindSource(l[1..], cid) case None => None case Some(i) => Some(i + 1)
  }

  function DropAt(l: seq<Source>, i: nat): seq<Source>
    requires i < |l|
  {
    l[..i] + l[i + 1..]
  }

  /** Replaces whatever was known of the source. */
  function UpdateDiscovered(l: seq<Source>, s: Source): seq<Source> {
    match FindSource(l, s.cid)
    case None => l + [s]
    case Some(i) => DropAt(l, i) + [s]
  }

  function AddPage(s: Source, p: Page, now: nat): Source {
    s.(pages := SortPages(s.pages + [p]), lastUpdated := now)
  }

  function NewSource(cid: Cid, d: DiscoveryFraming, now: nat): Source {
    Source(d.name, cid, now, [Page(d.page, d.universes)], d.lastPage)
  }

  /** One discovery page: the discovered sources, the partial ones, and the name of a source it completes. */
  function HandlePage(disc: seq<Source>, part: seq<Source>, cid: Cid, d: DiscoveryFraming, now: nat)
    : (seq<Source>, seq<Source>, Option<Bytes>)
  {
    match FindSource(part, cid)
    case Some(i) =>
      var s := AddPage(part[i], Page(d.page, d.universes), now);
      if Complete(s.pages, s.lastPage) then (UpdateDiscovered(disc, s), DropAt(part, i), Some(d.name))
      else (disc, part[i := s], None)
    case None =>
      var s := NewSource(cid, d, now);
      if d.page == 0 && d.page == d.lastPage then (UpdateDiscovered(disc, s), part, Some(d.name))
      else (disc, part + [s], None)
  }

  function Without(s: seq<u16>, u: u16): (r: seq<u16>)
    ensures forall x :: x in r <==> x in s && x != u
    ensures u !in s ==> r == s
  {
    if s == [] then []
    else if s[|s| - 1] == u then Without(s[..|s| - 1], u)
    else assert s == s[..|s| - 1] + [s[|s| - 1]]; Without(s[..|s| - 1], u) + [s[|s| - 1]]
  }

  function TerminatePages(pages: seq<Page>, u: u16): (r: seq<Page>)
    ensures |r| == |pages|
    ensures forall i | 0 <= i < |r| :: r[i] == Page(pages[i].page, Without(pages[i].universes, u))
  {
    if pages == [] then []
    else
      var p := pages[|pages| - 1];
      TerminatePages(pages[..|pages| - 1], u) + [Page(p.page, Without(p.universes, u))]
  }

  function TerminateUniverse(s: Source, u: u16): Source {
    s.(pages := TerminatePages(s.pages, u))
  }

  /** A terminated universe leaves the list of the discovered source that sent it. */
  function TerminateDiscovered(disc: seq<Source>, cid: Cid, u: u16): seq<Source> {
    match FindSource(disc, cid)
    case None => disc
    case Some(i) => disc[i := TerminateUniverse(disc[i], u)]
  }

  function PageUniverses(pages: seq<Page>): seq<u16> {
    if pages == [] then [] else PageUniverses(pages[..|pages| - 1]) + pages[|pages| - 1].universes
  }

  /** Everything a source sends, its pages joined. */
  function AllUniverses(s: Source): seq<u16> { PageUniverses(s.pages) }

  method GetAllUniverses(s: Source) returns (us: seq<u16>)
    ensures us == AllUniverses(s)
  {
    us := [];
    var i := 0;
    while i < |s.pages|
      invariant i <= |s.pages| && us == PageUniverses(s.pages[..i])
    {
      assert s.pages[..i + 1][..i] == s.pages[..i];
      us := us + s.pages[i].universes;
      i := i + 1;
    }
    assert s.pages[..i] == s.pages;
  }

  /** Takes the universe off every page, one page after the other. */
  method RetainOtherUniverses(s: Source, u: u16) returns (r: Source)
    ensures r == TerminateUniverse(s, u)
  {
    var pages := s.pages;
    var i := 0;
    while i < |pages|
      invariant i <= |pages| == |s.pages|
      invariant forall k | 0 <= k < i :: pages[k] == Page(s.pages[k].page, Without(s.pages[k].universes, u))
      invariant forall k | i <= k < |pages| :: pages[k] == s.pages[k]
    {
      pages := pages[i := Page(pages[i].page, Without(pages[i].universes, u))];
      i := i + 1;
    }
    assert pages == TerminatePages(s.pages, u);
    return s.(pages := pages);
  }

  lemma {:induction false} WithoutOfJoin(a: seq<u16>, b: seq<u16>, u: u16)
    ensures Without(a + b, u) == Without(a, u) + Without(b, u)
    decreases |b|
  {
    if b == [] {
      assert a + b == a;
    } else {
      assert (a + b)[..|a + b| - 1] == a + b[..|b| - 1];
      WithoutOfJoin(a, b[..|b| - 1], u);
    }
  }

  lemma {:induction false} UniversesOfTerminated(pages: seq<Page>, u: u16)
    ensures PageUniverses(TerminatePages(pages, u)) == Without(PageUniverses(pages), u)
  {
    if pages != [] {
      var init, last := pages[..|pages| - 1], pages[|pages| - 1];
      UniversesOfTerminated(init, u);
      WithoutOfJoin(PageUniverses(init), last.universes, u);
      assert TerminatePages(pages, u)[..|pages| - 1] == TerminatePages(init, u);
    }
  }

  lemma {:induction false} SameCidsSameFind(a: seq<Source>, b: seq<Source>, cid: Cid)
    requires |a| == |b| && forall i | 0 <= i < |a| :: a[i].cid == b[i].cid
    ensures FindSource(a, cid) == FindSource(b, cid)
  {
  }

  /** A termination takes the universe, and only it, off its source's list; a second one changes nothing. */
  lemma {:induction false} TerminateDiscoveredOnce(disc: seq<Source>, cid: Cid, u: u16)
    ensures
      var d1 := TerminateDiscovered(disc, cid, u);
      && TerminateDiscovered(d1, cid, u) == d1
      && |d1| == |disc| && FindSource(d1, cid) == FindSource(disc, cid)
      && forall i | 0 <= i < |disc| :: AllUniverses(d1[i]) ==
           if FindSource(disc, cid) == Some(i) then Without(AllUniverses(disc[i]), u) else AllUniverses(disc[i])
    ensures
      var d1 := TerminateDiscovered(disc, cid, u);
      forall i | 0 <= i < |disc| ::
        && d1[i] == disc[i].(pages := d1[i].pages) && |d1[i].pages| == |disc[i].pages|
        && forall k | 0 <= k < |disc[i].pages| :: d1[i].pages[k].page == disc[i].pages[k].page
  {
    var d1 := TerminateDiscovered(disc, cid, u);
    match FindSource(disc, cid)
    case None =>
    case Some(i) =>
      SameCidsSameFind(disc, d1, cid);
      UniversesOfTerminated(disc[i].pages, u);
      assert TerminateUniverse(d1[i], u).pages == d1[i].pages;
  }

  // ----------------------------------------------------- one source at a time

  /** The entries of a list that belong to one source. */
  function View(l: seq<Source>, cid: Cid): seq<Source> {
    if l == [] then []
    else if l[|l| - 1].cid == cid then View(l[..|l| - 1], cid) + [l[|l| - 1]]
    else View(l[..|l| - 1], cid)
  }

  lemma {:induction false} ViewOfJoin(a: seq<Source>, b: seq<Source>, cid: Cid)
    ensures View(a + b, cid) == View(a, cid) + View(b, cid)
    decreases |b|
  {
    if b == [] {
      assert a + b == a;
    } else {
      assert (a + b)[..|a + b| - 1] == a + b[..|b| - 1];
      ViewOfJoin(a, b[..|b| - 1], cid);
    }
  }

  lemma {:induction false} ViewOfStrangers(l: seq<Source>, cid: Cid)
    requires forall i | 0 <= i < |l| :: l[i].cid != cid
    ensures View(l, cid) == []
  {
    if l != [] { ViewOfStrangers(l[..|l| - 1], cid); }
  }

  lemma ViewAround(l: seq<Source>, i: nat, s: Source, cid: Cid)
    requires i < |l| && l[i].cid == s.cid
    ensures
      var a, b := View(l[..i], cid), View(l[i + 1..], cid);
      && View(l, cid) == (if s.cid == cid then a + [l[i]] + b else a + b)
      && View(l[i := s], cid) == (if s.cid == cid then a + [s] + b else a + b)
      && View(DropAt(l, i), cid) == a + b
  {
    var a, b := l[..i], l[i + 1..];
    forall x: Source | x.cid == s.cid
      ensures View(a + [x] + b, cid) == View(a, cid) + (if s.cid == cid then [x] else []) + View(b, cid)
    {
      ViewOfJoin(a + [x], b, cid);
      ViewOfJoin(a, [x], cid);
      assert View([x], cid) == if s.cid == cid then [x] else [];
    }
    ViewOfJoin(a, b, cid);
    assert l == a + [l[i]] + b && l[i := s] == a + [s] + b;
  }

  /** The first entry found heads the view. */
  lemma {:induction false} ViewOfFound(l: seq<Source>, cid: Cid)
    ensures
      var v := View(l, cid);
      match FindSource(l, cid)
      case None => v == []
      case Some(i) => v != [] && v[0] == l[i] && View(l[..i], cid) == [] && View(l[i + 1..], cid) == v[1..]
  {
    match FindSource(l, cid)
    case None => ViewOfStrangers(l, cid);
    case Some(i) =>
      ViewOfStrangers(l[..i], cid);
      ViewAround(l, i, l[i], cid);
      var tail := View(l[i + 1..], cid);
      assert View(l, cid) == [l[i]] + tail && ([l[i]] + tail)[1..] == tail;
  }

  lemma {:induction false} ViewOfUpdate(l: seq<Source>, s: Source, cid: Cid)
    requires |View(l, s.cid)| <= 1
    ensures View(UpdateDiscovered(l, s), cid) == if s.cid == cid then [s] else View(l, cid)
  {
    ViewOfFound(l, s.cid);
    assert View([s], cid) == if s.cid == cid then [s] else [];
    match FindSource(l, s.cid)
    case None => ViewOfJoin(l, [s], cid);
    case Some(i) =>
      ViewAround(l, i, l[i], cid);
      ViewOfJoin(DropAt(l, i), [s], cid);
  }

  /** At most one entry per source. */
  ghost predicate Unique(l: seq<Source>) {
    forall c :: |View(l, c)| <= 1
  }

  /** A page as the receiver sees it from the source's own entries: what they were, what they become. */
  function PageOnViews(disc: seq<Source>, part: seq<Source>, cid: Cid, d: DiscoveryFraming, now: nat)
    : (seq<Source>, seq<Source>, Option<Bytes>)
  {
    var page := Page(d.page, d.universes);
    if part == [] then
      var s := Source(d.name, cid, now, [page], d.lastPage);
      if d.page == 0 && d.page == d.lastPage then ([s], part, Some(d.name)) else (disc, [s], None)
    else
      var s := Source(part[0].name, part[0].cid, now, SortPages(part[0].pages + [page]), part[0].lastPage);
      if Complete(s.pages, s.lastPage) then ([s], [], Some(d.name)) else (disc, [s], None)
  }

  /** Replacing or dropping the entry found for a source, seen from that source. */
  lemma ChangeFound(l: seq<Source>, s: Source)
    requires FindSource(l, s.cid).Some? && |View(l, s.cid)| <= 1
    ensures
      var i := FindSource(l, s.cid).value;
      View(l, s.cid) == [l[i]] && View(l[i := s], s.cid) == [s] && View(DropAt(l, i), s.cid) == []
  {
    var i := FindSource(l, s.cid).value;
    ViewOfFound(l, s.cid);
    ViewAround(l, i, s, s.cid);
  }

  /** The same, seen from another source. */
  lemma ChangeSparesOthers(l: seq<Source>, i: nat, s: Source, c: Cid)
    requires i < |l| && l[i].cid == s.cid != c
    ensures View(l[i := s], c) == View(l, c) && View(DropAt(l, i), c) == View(l, c)
  {
    ViewAround(l, i, s, c);
  }

  lemma {:induction false} ViewOfPush(l: seq<Source>, s: Source, c: Cid)
    ensures View(l + [s], c) == if c == s.cid then View(l, c) + [s] else View(l, c)
  {
    assert (l + [s])[..|l|] == l;
  }

  /** A page leaves the entries of other sources alone. */
  lemma {:induction false} PageSparesOthers(disc: seq<Source>, part: seq<Source>, cid: Cid, d: DiscoveryFraming,
          now: nat, c: Cid)
    requires |View(disc, cid)| <= 1 && |View(part, cid)| <= 1 && c != cid
    ensures
      var (disc', part', out) := HandlePage(disc, part, cid, d, now);
      View(disc', c) == View(disc, c) && View(part', c) == View(part, c)
  {
    var (disc', part', out) := HandlePage(disc, part, cid, d, now);
    match FindSource(part, cid)
    case Some(i) =>
      var s := AddPage(part[i], Page(d.page, d.universes), now);
      assert || (disc' == disc && part' == part[i := s])
             || (disc' == UpdateDiscovered(disc, s) && part' == DropAt(part, i));
      ViewOfUpdate(disc, s, c);
      ChangeSparesOthers(part, i, s, c);
    case None =>
      var s := NewSource(cid, d, now);
      assert (disc' == disc && part' == part + [s]) || (disc' == UpdateDiscovered(disc, s) && part' == part);
      ViewOfUpdate(disc, s, c);
      ViewOfPush(part, s, c);
  }

  /** A page treats the entries of its own source as if they were alone. */
  lemma {:induction false} PageIsLocal(disc: seq<Source>, part: seq<Source>, cid: Cid, d: DiscoveryFraming, now: nat)
    requires |View(disc, cid)| <= 1 && |View(part, cid)| <= 1
    ensures
      var (disc', part', out) := HandlePage(disc, part, cid, d, now);
      (View(disc', cid), View(part', cid), out) == PageOnViews(View(disc, cid), View(part, cid), cid, d, now)
  {
    match FindSource(part, cid)
    case Some(i) =>
      var s := AddPage(part[i], Page(d.page, d.universes), now);
      ChangeFound(part, s);
      ViewOfUpdate(disc, s, cid);
    case None =>
      var s := NewSource(cid, d, now);
      ViewOfFound(part, cid);
      ViewOfUpdate(disc, s, cid);
      ViewOfPush(part, s, cid);
  }

  /** The entry that a page touches was last heard of now, and no other of its source is left. */
  lemma PageStamps(disc: seq<Source>, part: seq<Source>, cid: Cid, d: DiscoveryFraming, now: nat)
    requires |View(disc, cid)| <= 1 && |View(part, cid)| <= 1
    ensures
      var (disc', part', out) := HandlePage(disc, part, cid, d, now);
      if out.Some? then |View(disc', cid)| == 1 && View(disc', cid)[0].lastUpdated == now && View(part', cid) == []
      else |View(part', cid)| == 1 && View(part', cid)[0].lastUpdated == now && View(disc', cid) == View(disc, cid)
  {
    PageIsLocal(disc, part, cid, d, now);
  }

  lemma {:induction false} PageKeepsUniqueAt(disc: seq<Source>, part: seq<Source>, cid: Cid, d: DiscoveryFraming,
          now: nat, c: Cid)
    requires |View(disc, cid)| <= 1 && |View(part, cid)| <= 1
    requires |View(disc, c)| <= 1 && |View(part, c)| <= 1
    ensures
      var (disc', part', _) := HandlePage(disc, part, cid, d, now);
      |View(disc', c)| <= 1 && |View(part', c)| <= 1
  {
    if c == cid {
      PageIsLocal(disc, part, cid, d, now);
    } else {
      PageSparesOthers(disc, part, cid, d, now, c);
    }
  }

  lemma PageKeepsUnique(disc: seq<Source>, part: seq<Source>, cid: Cid, d: DiscoveryFraming, now: nat)
    requires Unique(disc) && Unique(part)
    ensures
      var (disc', part', _) := HandlePage(disc, part, cid, d, now);
      Unique(disc') && Unique(part')
  {
    var (disc', part', _) := HandlePage(disc, part, cid, d, now);
    forall c: Cid ensures |View(disc', c)| <= 1 && |View(part', c)| <= 1 {
      PageKeepsUniqueAt(disc, part, cid, d, now, c);
    }
  }

  /** The entries of all other sources, in order. */
  function Others(l: seq<Source>, cid: Cid): seq<Source> {
    if l == [] then []
    else Others(l[..|l| - 1], cid) + if l[|l| - 1].cid == cid then [] else [l[|l| - 1]]
  }

  lemma {:induction false} OthersOfJoin(a: seq<Source>, b: seq<Source>, cid: Cid)
    ensures Others(a + b, cid) == Others(a, cid) + Others(b, cid)
    decreases |b|
  {
    if b == [] {
      assert a + b == a;
    } else {
      assert (a + b)[..|a + b| - 1] == a + b[..|b| - 1];
      OthersOfJoin(a, b[..|b| - 1], cid);
    }
  }

  lemma {:induction false} OthersOfStrangers(l: seq<Source>, cid: Cid)
    requires forall i | 0 <= i < |l| :: l[i].cid != cid
    ensures Others(l, cid) == l
  {
    if l != [] {
      OthersOfStrangers(l[..|l| - 1], cid);
      assert l == l[..|l| - 1] + [l[|l| - 1]];
    }
  }

  /** A source that is updated goes to the end of the list; the others keep their order. */
  lemma {:induction false} UpdatedGoesLast(l: seq<Source>, s: Source)
    requires |View(l, s.cid)| <= 1
    ensures UpdateDiscovered(l, s) == Others(l, s.cid) + [s]
  {
    match FindSource(l, s.cid)
    case None => OthersOfStrangers(l, s.cid);
    case Some(i) =>
      ViewOfFound(l, s.cid);
      OthersAround(l, i);
  }

  lemma {:induction false} OthersOfThree(a: seq<Source>, x: Source, b: seq<Source>)
    ensures Others(a + [x] + b, x.cid) == Others(a, x.cid) + Others(b, x.cid)
  {
    OthersOfJoin(a + [x], b, x.cid);
    assert (a + [x])[..|a|] == a;
  }

  lemma {:induction false} OthersAround(l: seq<Source>, i: nat)
    requires i < |l| && (forall k | 0 <= k < i :: l[k].cid != l[i].cid) && View(l[i + 1..], l[i].cid) == []
    ensures Others(l, l[i].cid) == DropAt(l, i)
  {
    var a, b := l[..i], l[i + 1..];
    assert l == a + [l[i]] + b;
    OthersOfThree(a, l[i], b);
    OthersOfStrangers(a, l[i].cid);
    NoneInView(b, l[i].cid);
    OthersOfStrangers(b, l[i].cid);
  }

  lemma {:induction false} NoneInView(l: seq<Source>, cid: Cid)
    requires View(l, cid) == []
    ensures forall i | 0 <= i < |l| :: l[i].cid != cid
  {
    if l != [] { NoneInView(l[..|l| - 1], cid); }
  }

  // ------------------------------------------------------------------- expiry

  /** The sources heard of in time. */
  function DropExpired(l: seq<Source>, now: nat): seq<Source> {
    if l == [] then []
    else if now - l[|l| - 1].lastUpdated < DATA_LOSS_TIMEOUT then DropExpired(l[..|l| - 1], now) + [l[|l| - 1]]
    else DropExpired(l[..|l| - 1], now)
  }

  lemma {:induction false} DropExpiredOfOne(s: Source, now: nat)
    ensures DropExpired([s], now) == if now - s.lastUpdated < 2500 then [s] else []
  {
    assert [s][..0] == [];
  }

  /** Expiry keeps the sources it keeps (DropExpiredOfOne) in the order they stand in. */
  lemma {:induction false} DropExpiredOfJoin(a: seq<Source>, b: seq<Source>, now: nat)
    ensures DropExpired(a + b, now) == DropExpired(a, now) + DropExpired(b, now)
    decreases |b|
  {
    if b == [] {
      assert a + b == a;
    } else {
      assert (a + b)[..|a + b| - 1] == a + b[..|b| - 1];
      DropExpiredOfJoin(a, b[..|b| - 1], now);
    }
  }

  /** What a list shows of a source after expiry is what expiry leaves of what it showed. */
  lemma {:induction false} ViewOfExpired(l: seq<Source>, now: nat, c: Cid)
    ensures View(DropExpired(l, now), c) == DropExpired(View(l, c), now)
  {
    if l != [] {
      var init, last := l[..|l| - 1], l[|l| - 1];
      ViewOfExpired(init, now, c);
      ViewOfPush(DropExpired(init, now), last, c);
      DropExpiredOfJoin(View(init, c), [last], now);
    }
  }
}
