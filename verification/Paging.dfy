/** The pages a universe list is sent in, and what collecting them in any order yields. */
module Paging {
  import opened Types
  import opened Packet
  import opened Discovery

  function PageCount(us: seq<u16>): nat { |us| / DISCOVERY_UNI_PER_PAGE + 1 }

  function PageEnd(us: seq<u16>, p: nat): nat {
    if (p + 1) * DISCOVERY_UNI_PER_PAGE <= |us| then (p + 1) * DISCOVERY_UNI_PER_PAGE else |us|
  }

  function PageSlice(us: seq<u16>, p: nat): (r: seq<u16>)
    requires p < PageCount(us)
    ensures |r| <= DISCOVERY_UNI_PER_PAGE
  {
    us[p * DISCOVERY_UNI_PER_PAGE..PageEnd(us, p)]
  }

  function PageFraming(name: Bytes, us: seq<u16>, p: nat): DiscoveryFraming
    requires p < PageCount(us) <= 0x100
  {
    DiscoveryFraming(name, p, PageCount(us) - 1, PageSlice(us, p))
  }

  /** Every page but the last is full, and the last has what is left, which may be nothing. */
  lemma PagesAreFull(name: Bytes, us: seq<u16>, p: nat)
    requires p < PageCount(us) <= 0x100
    ensures (PageCount(us) - 1) * 512 <= |us| < PageCount(us) * 512
    ensures
      var d := PageFraming(name, us, p);
      && d.name == name && d.page == p && d.lastPage == PageCount(us) - 1
      && |d.universes| == (if p < d.lastPage then 512 else |us| - 512 * p)
      && forall i | 0 <= i < |d.universes| :: d.universes[i] == us[512 * p + i]
  {
  }

  /** All pages in order. */
  function AllPages(us: seq<u16>): (r: seq<Page>)
    requires PageCount(us) <= 0x100
    ensures |r| == PageCount(us)
  {
    seq(PageCount(us), p requires 0 <= p < PageCount(us) => Page(p, PageSlice(us, p)))
  }

  lemma AscendingSpread(us: seq<u16>, i: nat, j: nat)
    requires Ascending(us) && i <= j < |us|
    ensures us[j] >= us[i] + (j - i)
  {
    if i < j { AscendingSpread(us, i, j - 1); }
  }

  /** A registry holds at most the 64000 legal universes, so the page count fits its byte. */
  lemma RegistryBound(us: seq<u16>)
    requires Ascending(us) && forall u | u in us :: InRange(u)
    ensures |us| <= 64000 && PageCount(us) <= 126
  {
    var n := |us|;
    if n > 1 {
      assert us[0] in us && us[n - 2] in us && us[n - 1] in us && us[n - 2] < us[n - 1];
      AscendingSpread(us, 0, n - 2);
    }
  }

  /** Every page of a registry can be packed. */
  lemma PagesPack(cid: Cid, name: Bytes, us: seq<u16>, p: nat)
    requires Ascending(us) && p < PageCount(us) <= 0x100
    ensures
      var q := Packet(cid, DiscoveryPacket(PageFraming(name, us, p)));
      PackOk(q) && (ValidName(name) ==> Valid(q))
  {
  }

  lemma PrefixOfPages(us: seq<u16>, p: nat)
    requires p <= PageCount(us) <= 0x100
    ensures PageUniverses(AllPages(us)[..p]) == us[..if p == 0 then 0 else PageEnd(us, p - 1)]
  {
    if p > 0 {
      PrefixOfPages(us, p - 1);
      assert AllPages(us)[..p][..p - 1] == AllPages(us)[..p - 1];
      var from := if p == 1 then 0 else PageEnd(us, p - 2);
      assert us[..PageEnd(us, p - 1)] == us[..from] + us[from..PageEnd(us, p - 1)];
    }
  }

  /** The pages joined in order are the registry. */
  lemma PagesJoinToRegistry(us: seq<u16>)
    requires PageCount(us) <= 0x100
    ensures PageUniverses(AllPages(us)) == us
  {
    PrefixOfPages(us, PageCount(us));
    assert AllPages(us)[..PageCount(us)] == AllPages(us);
    assert PageEnd(us, PageCount(us) - 1) == |us|;
  }

  // ------------------------------------------------------ collecting the pages

  /** The pages numbered in `got`, one of each, with their slices of the registry. */
  ghost predicate Holds(pages: seq<Page>, us: seq<u16>, got: set<nat>) {
    && |pages| == |got|
    && Slices(pages, us)
    && (forall n: nat :: Copies(pages, n) == if n in got then 1 else 0)
  }

  /** What a receiver holds of a source once the pages in `got` have come in, in whatever order. */
  ghost predicate Collecting(part: seq<Source>, cid: Cid, name: Bytes, us: seq<u16>, got: set<nat>) {
    if got == {} then part == []
    else |part| == 1 && part[0].cid == cid && part[0].name == name && part[0].lastPage == PageCount(us) - 1
         && Holds(part[0].pages, us, got)
  }

  /** The source a receiver reports once it has every page, last heard of when the last of them came. */
  ghost predicate Collected(disc: seq<Source>, cid: Cid, name: Bytes, us: seq<u16>, heard: nat)
    requires PageCount(us) <= 0x100
  {
    |disc| == 1 && disc[0].cid == cid && disc[0].name == name && disc[0].pages == AllPages(us)
    && AllUniverses(disc[0]) == us && disc[0].lastUpdated == heard
  }

  function Upto(n: nat): (r: set<nat>)
    ensures |r| == n && forall k: nat :: k in r <==> k < n
  {
    if n == 0 then {} else Upto(n - 1) + {n - 1}
  }

  lemma SubsetSize(a: set<nat>, b: set<nat>)
    requires a <= b
    ensures |a| <= |b| && (|a| == |b| ==> a == b)
  {
    assert b == a + (b - a);
    assert |b| == |a| + |b - a|;
  }

  ghost predicate Slices(pages: seq<Page>, us: seq<u16>) {
    forall i | 0 <= i < |pages| ::
      pages[i].page < PageCount(us) && pages[i].universes == PageSlice(us, pages[i].page)
  }

  lemma {:induction false} SortKeepsSlices(pages: seq<Page>, us: seq<u16>)
    requires Slices(pages, us)
    ensures Slices(SortPages(pages), us)
  {
    var sorted := SortPages(pages);
    SortSorts(pages);
    forall i | 0 <= i < |sorted|
      ensures sorted[i].page < PageCount(us) && sorted[i].universes == PageSlice(us, sorted[i].page)
    {
      assert sorted[i] in multiset(sorted);
      assert sorted[i] in pages;
    }
  }

  lemma {:induction false} AddingHolds(pages: seq<Page>, us: seq<u16>, got: set<nat>, p: nat)
    requires Holds(pages, us, got) && p !in got && p < PageCount(us) <= 0x100
    ensures Holds(SortPages(pages + [Page(p, PageSlice(us, p))]), us, got + {p})
  {
    var more := pages + [Page(p, PageSlice(us, p))];
    assert Slices(more, us);
    SortKeepsSlices(more, us);
    forall n: nat ensures Copies(SortPages(more), n) == if n in got + {p} then 1 else 0 {
      CopiesOfAdded(pages, Page(p, PageSlice(us, p)), n);
      assert Copies(pages, n) == if n in got then 1 else 0;
    }
  }

  lemma {:induction false} CopiesOfAdded(pages: seq<Page>, page: Page, n: int)
    ensures Copies(SortPages(pages + [page]), n) == Copies(pages, n) + if page.page == n then 1 else 0
  {
    CopiesOfSort(pages + [page], n);
    assert (pages + [page])[..|pages|] == pages;
  }

  lemma {:induction false} SortedAgainIsSorted(s: seq<Page>)
    requires SortedPages(s)
    ensures SortPages(s) == s
  {
    if s != [] {
      SortedAgainIsSorted(s[..|s| - 1]);
      assert s == s[..|s| - 1] + [s[|s| - 1]];
    }
  }

  /** Holding every page, sorted, is having the registry's pages. */
  lemma FullIsAllPages(pages: seq<Page>, us: seq<u16>)
    requires SortedPages(pages) && PageCount(us) <= 0x100 && Holds(pages, us, Upto(PageCount(us)))
    ensures Complete(pages, PageCount(us) - 1) && pages == AllPages(us)
  {
    SortedAgainIsSorted(pages);
    assert OneOfEach(pages, PageCount(us) - 1);
    CompleteIffOneOfEach(pages, PageCount(us) - 1);
    forall i | 0 <= i < |pages| ensures pages[i] == AllPages(us)[i] {
      assert pages[i].page == i;
    }
  }

  /**
   * One more page of a source: short of the last one outstanding it completes nothing, and with it the source
   * is discovered with exactly its registry, whichever page it is.
   */
  lemma OneMorePage(disc: seq<Source>, part: seq<Source>, cid: Cid, name: Bytes, us: seq<u16>, got: set<nat>, p: nat,
                    now: nat)
    requires p < PageCount(us) <= 0x100 && p !in got && got <= Upto(PageCount(us))
    requires Collecting(part, cid, name, us, got)
    ensures
      var (disc', part', out) := PageOnViews(disc, part, cid, PageFraming(name, us, p), now);
      if |got| + 1 < PageCount(us) then
        out == None && disc' == disc && Collecting(part', cid, name, us, got + {p})
      else
        out == Some(name) && part' == [] && Collected(disc', cid, name, us, now)
  {
    var d := PageFraming(name, us, p);
    var page := Page(p, PageSlice(us, p));
    SubsetSize(got + {p}, Upto(PageCount(us)));
    PagesJoinToRegistry(us);
    if got == {} {
      var s := NewSource(cid, d, now);
      assert forall n: nat :: Copies(s.pages, n) == if n == p then 1 else 0;
      assert Holds(s.pages, us, {p});
    } else {
      var s := AddPage(part[0], page, now);
      AddingHolds(part[0].pages, us, got, p);
      SortSorts(part[0].pages + [page]);
      if |got| + 1 >= PageCount(us) { FullIsAllPages(s.pages, us); }
    }
  }
}
