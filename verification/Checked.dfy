/** What it means that the checks of a flash find nothing to repair (spiffs_check.c), for any flash, in order or not. */
module Checked {
  import opened Layout
  import opened Lookup
  import opened Volumes
  import opened Flash
  import opened Offsets
  import opened Checker

  /** A live page whose header says that it is used. */
  predicate Written(v: Volume, p: nat) { p in v && !v[p].page.flags.used }

  /** Entry e of the live index page x names page r. */
  predicate Names(g: Geometry, v: Volume, x: nat, e: nat, r: nat)
    requires g.Wf()
  {
    && Written(v, x) && IsIx(v[x].id)
    && e < g.Cap(v[x].page.span) && e < |v[x].page.ix| && v[x].page.ix[e] == r
  }

  /** Page r is the live data page of object o at span s. */
  predicate DataPage(v: Volume, r: nat, o: nat, s: nat) {
    && Written(v, r) && v[r].id == o == v[r].page.id && v[r].page.span == s
    && v[r].page.flags.(ixdele := true) == DATA_FLAGS
  }

  /** The ranges of the page check end exactly with the last page. A reference to the page after it is not looked at
      then. */
  predicate EndsEven(g: Geometry)
    requires g.Wf()
  {
    PagesPerScan(g) > 0 && Times(Passes(g), PagesPerScan(g)) == g.Pages()
  }

  /** An entry that is not empty names the data page of its own object and span, in 16 bits. */
  ghost predicate EntriesLead(g: Geometry, v: Volume)
    requires g.Wf()
  {
    forall x, e, r :: Names(g, v, x, e, r) && r != FREE && !(EndsEven(g) && r == g.Pages()) ==>
      DataPage(v, r, Base(v[x].id), g.FirstSpan(v[x].page.span) % 0x1_0000 + e)
  }

  /** No page is named twice. */
  ghost predicate NamedOnce(g: Geometry, v: Volume)
    requires g.Wf()
  {
    forall x1, e1, x2, e2, r: nat :: r < g.Pages() && Names(g, v, x1, e1, r) && Names(g, v, x2, e2, r) ==>
      (x1, e1) == (x2, e2)
  }

  /** Every data page is named, and no index page is marked as being removed. */
  ghost predicate AllNamed(g: Geometry, v: Volume)
    requires g.Wf()
  {
    forall p :: Written(v, p) ==>
      if IsIx(v[p].id) then v[p].page.flags.ixdele else exists x, e :: Names(g, v, x, e, p)
  }

  // ---------- headers and volumes ----------

  ghost predicate Examined(g: Geometry, lu: seq<nat>, pages: seq<Page>) {
    && g.Wf() && LuShape(g, lu) && Shaped(g, pages) && |pages| == |lu| && AllAgree(g, lu, pages)
  }

  /** If all lookup entries agree with their pages, a page is used by its header exactly if it is live and written. */
  lemma UsedIsWritten(g: Geometry, lu: seq<nat>, pages: seq<Page>, p: nat)
    requires Examined(g, lu, pages) && p < g.Pages()
    ensures var v := VolumeOf(lu, pages);
            && (Written(v, p) <==> !g.IsLookupPage(p) && InUse(pages[p]))
            && (Written(v, p) ==>
                  && v[p] == Cell(lu[p], pages[p]) && Base(pages[p].id) == Base(lu[p]) && !pages[p].flags.final
                  && IsIx(lu[p]) == !pages[p].flags.index && pages[p].flags.delet)
  {
    assert lu[p] == NO_ENTRY <==> g.IsLookupPage(p);
    if lu[p] != NO_ENTRY {
      assert Agrees(lu[p], pages[p]);
    }
  }

  /** Nothing outside the flash is live. */
  lemma WrittenWithin(lu: seq<nat>, pages: seq<Page>, p: nat)
    ensures Written(VolumeOf(lu, pages), p) ==> p < |lu|
  {}

  /** What the page check takes for an entry is one, unless its page is marked as being removed. */
  lemma EntryNames(g: Geometry, lu: seq<nat>, pages: seq<Page>, x: nat, e: nat, r: nat)
    requires Examined(g, lu, pages)
    ensures var v := VolumeOf(lu, pages);
            RefersTo(g, pages, x, e, r) <==> Names(g, v, x, e, r) && v[x].page.flags.ixdele
  {
    hide Agrees, AllAgree;
    WrittenWithin(lu, pages, x);
    if x < g.Pages() {
      UsedIsWritten(g, lu, pages, x);
    }
  }

  // ---------- all pages are covered ----------

  /** The pass whose range page p is in. */
  lemma CoveredBy(g: Geometry, pages: seq<Page>, p: nat) returns (off: nat)
    requires g.Wf() && Comes(g, pages, AllClean) && (p < g.Pages() || (p == g.Pages() && !EndsEven(g)))
    ensures PassClean(g, pages, off, PagesPerScan(g)) && InRangeOf(off, PagesPerScan(g), p)
  {
    hide PassClean, Offset;
    var n := PagesPerScan(g);
    var k: nat :| CleanFor(g, pages, k) && RangeStart(g, k) >= g.Pages();
    TimesAtLeast(g.blocks, g.pagesPerBlock);
    if n == 0 {
      ZeroStep(k);
      assert false;
    }
    QuotRem(p, n);
    RangesCover(g);
    var j := Quot(p, n);
    if j >= Passes(g) {
      TimesMono(Passes(g), j, n);
      assert false;
    }
    EarlyRange(g, j);
    if k <= j {
      EarlyRange(g, k);
      assert false;
    }
    off := RangeStart(g, j);
  }

  lemma GoodAt(g: Geometry, pages: seq<Page>, off: nat, n: nat, x: nat, e: nat)
    requires g.Wf() && PassClean(g, pages, off, n) && IsEntry(g, pages, x, e)
    ensures EntryGood(g, pages, off, n, x, e)
  {
    assert Before(x, e, g.Pages(), 0);
  }

  // ---------- from clean to right ----------

  /** An entry that the page check has found good leads to its data page. */
  lemma GoodLeads(g: Geometry, lu: seq<nat>, pages: seq<Page>, x: nat, e: nat, r: nat)
    requires Examined(g, lu, pages) && Comes(g, pages, AllClean) && RefersTo(g, pages, x, e, r)
    requires r != FREE && !(EndsEven(g) && r == g.Pages())
    ensures var v := VolumeOf(lu, pages);
            x in v && DataPage(v, r, Base(v[x].id), g.FirstSpan(v[x].page.span) % 0x1_0000 + e)
  {
    hide Comes, PassClean, Agrees, AllAgree, EndsEven;
    EntryNames(g, lu, pages, x, e, r);
    UsedIsWritten(g, lu, pages, x);
    if r > g.Pages() {
      var off := CoveredBy(g, pages, 0);
      GoodAt(g, pages, off, PagesPerScan(g), x, e);
      assert false;
    }
    var off := CoveredBy(g, pages, r);
    GoodAt(g, pages, off, PagesPerScan(g), x, e);
    UsedIsWritten(g, lu, pages, r);
  }

  /** A used page is either a live index page in use, or some entry refers to it. */
  lemma NoOrphan(g: Geometry, pages: seq<Page>, p: nat)
    requires g.Wf() && Comes(g, pages, AllClean) && p < g.Pages()
    ensures !Orphan(g, pages, p)
  {
    hide Comes, Orphan, GoodBefore;
    var off := CoveredBy(g, pages, p);
  }

  lemma NoneTwice(g: Geometry, pages: seq<Page>, x1: nat, e1: nat, x2: nat, e2: nat, r: nat)
    requires g.Wf() && Comes(g, pages, AllClean) && r < g.Pages()
    requires RefersTo(g, pages, x1, e1, r) && RefersTo(g, pages, x2, e2, r)
    ensures (x1, e1) == (x2, e2)
  {
    hide Comes, Orphan;
    var off := CoveredBy(g, pages, r);
    assert RefersBefore(g, pages, g.Pages(), 0, x1, e1, r) && RefersBefore(g, pages, g.Pages(), 0, x2, e2, r);
  }

  /** No index page is marked as being removed: nothing could refer to it. */
  lemma NotMarked(g: Geometry, lu: seq<nat>, pages: seq<Page>, p: nat)
    requires Examined(g, lu, pages) && Comes(g, pages, AllClean)
    requires var v := VolumeOf(lu, pages); Written(v, p) && IsIx(v[p].id)
    ensures p < |pages| && pages[p].flags.ixdele
  {
    hide Comes, Agrees, AllAgree, EndsEven, EntryGood;
    WrittenWithin(lu, pages, p);
    UsedIsWritten(g, lu, pages, p);
    if !pages[p].flags.ixdele {
      NoOrphan(g, pages, p);
      var x, e :| RefersBefore(g, pages, g.Pages(), 0, x, e, p);
      GoodLeads(g, lu, pages, x, e, p);
    }
  }

  /** If neither check finds anything to repair, every entry that is not empty names the data page of its own object and
      span, no page is named twice, every data page is named, and no index page is marked as being removed. */
  lemma CleanMeans(g: Geometry, lu: seq<nat>, pages: seq<Page>)
    requires g.Wf() && Examined(g, lu, pages) && Comes(g, pages, AllClean)
    ensures var v := VolumeOf(lu, pages); EntriesLead(g, v) && NamedOnce(g, v) && AllNamed(g, v)
  {
    hide Comes, Agrees, AllAgree, EndsEven, Examined, DataPage;
    var v := VolumeOf(lu, pages);
    forall x, e, r | Names(g, v, x, e, r)
      ensures RefersTo(g, pages, x, e, r)
    {
      NotMarked(g, lu, pages, x);
      EntryNames(g, lu, pages, x, e, r);
    }
    forall x, e, r | Names(g, v, x, e, r) && r != FREE && !(EndsEven(g) && r == g.Pages())
      ensures DataPage(v, r, Base(v[x].id), g.FirstSpan(v[x].page.span) % 0x1_0000 + e)
    {
      GoodLeads(g, lu, pages, x, e, r);
    }
    forall x1, e1, x2, e2, r: nat | r < g.Pages() && Names(g, v, x1, e1, r) && Names(g, v, x2, e2, r)
      ensures (x1, e1) == (x2, e2)
    {
      NoneTwice(g, pages, x1, e1, x2, e2, r);
    }
    forall p | Written(v, p)
      ensures if IsIx(v[p].id) then v[p].page.flags.ixdele else exists x, e :: Names(g, v, x, e, p)
    {
      PageNamed(g, lu, pages, p);
    }
  }

  lemma PageNamed(g: Geometry, lu: seq<nat>, pages: seq<Page>, p: nat)
    requires Examined(g, lu, pages) && Comes(g, pages, AllClean) && Written(VolumeOf(lu, pages), p)
    ensures var v := VolumeOf(lu, pages);
            if IsIx(v[p].id) then v[p].page.flags.ixdele else exists x, e :: Names(g, v, x, e, p)
  {
    hide Comes, Agrees, AllAgree, EndsEven, EntryGood;
    var v := VolumeOf(lu, pages);
    WrittenWithin(lu, pages, p);
    UsedIsWritten(g, lu, pages, p);
    if IsIx(v[p].id) {
      NotMarked(g, lu, pages, p);
    } else {
      NoOrphan(g, pages, p);
      var x, e :| RefersBefore(g, pages, g.Pages(), 0, x, e, p);
      EntryNames(g, lu, pages, x, e, p);
    }
  }

  // ---------- and back ----------

  /** Entries that lead where they should are good to every range that ends below page 0xffff. */
  lemma LeadsIsGood(g: Geometry, lu: seq<nat>, pages: seq<Page>, off: nat, n: nat, x: nat, e: nat)
    requires Examined(g, lu, pages) && EntriesLead(g, VolumeOf(lu, pages)) && IsEntry(g, pages, x, e)
    requires off + n <= FREE && (EndsEven(g) ==> off + n <= g.Pages())
    ensures EntryGood(g, pages, off, n, x, e)
    ensures InRangeOf(off, n, pages[x].ix[e]) ==> pages[x].ix[e] < g.Pages()
  {
    hide Agrees, AllAgree, EndsEven;
    var v, r := VolumeOf(lu, pages), pages[x].ix[e];
    assert RefersTo(g, pages, x, e, r);
    EntryNames(g, lu, pages, x, e, r);
    UsedIsWritten(g, lu, pages, x);
    if r != FREE && !(EndsEven(g) && r == g.Pages()) {
      WrittenWithin(lu, pages, r);
      UsedIsWritten(g, lu, pages, r);
    }
  }

  lemma RightIsClean(g: Geometry, lu: seq<nat>, pages: seq<Page>, off: nat, n: nat)
    requires g.Wf() && Examined(g, lu, pages)
    requires var v := VolumeOf(lu, pages); EntriesLead(g, v) && NamedOnce(g, v) && AllNamed(g, v)
    requires off + n <= FREE && (EndsEven(g) ==> off + n <= g.Pages())
    ensures PassClean(g, pages, off, n)
  {
    hide Agrees, AllAgree, EndsEven, EntryGood, EntriesLead, Names;
    var v := VolumeOf(lu, pages);
    forall x: nat, e: nat | IsEntry(g, pages, x, e)
      ensures EntryGood(g, pages, off, n, x, e)
    {
      LeadsIsGood(g, lu, pages, off, n, x, e);
    }
    forall x1: nat, e1: nat, x2: nat, e2: nat, r: nat | InRangeOf(off, n, r)
        && RefersBefore(g, pages, g.Pages(), 0, x1, e1, r) && RefersBefore(g, pages, g.Pages(), 0, x2, e2, r)
      ensures (x1, e1) == (x2, e2)
    {
      LeadsIsGood(g, lu, pages, off, n, x1, e1);
      EntryNames(g, lu, pages, x1, e1, r);
      EntryNames(g, lu, pages, x2, e2, r);
    }
    forall p: nat
      ensures !Orphan(g, pages, p)
    {
      NamedNoOrphan(g, lu, pages, p);
    }
  }

  lemma NamedNoOrphan(g: Geometry, lu: seq<nat>, pages: seq<Page>, p: nat)
    requires g.Wf() && Examined(g, lu, pages) && AllNamed(g, VolumeOf(lu, pages))
    ensures !Orphan(g, pages, p)
  {
    hide Agrees, AllAgree;
    if p < |pages| && p < g.Pages() && !g.IsLookupPage(p) && InUse(pages[p]) && !IsIndex(pages[p]) {
      NamedIsReferred(g, lu, pages, p);
    }
  }

  lemma NamedIsReferred(g: Geometry, lu: seq<nat>, pages: seq<Page>, p: nat)
    requires g.Wf() && Examined(g, lu, pages) && AllNamed(g, VolumeOf(lu, pages))
    requires p < g.Pages() && !g.IsLookupPage(p) && InUse(pages[p]) && !IsIndex(pages[p])
    ensures RefBefore(g, pages, g.Pages(), 0, p)
  {
    hide Agrees, AllAgree;
    var v := VolumeOf(lu, pages);
    UsedIsWritten(g, lu, pages, p);
    var x, e :| Names(g, v, x, e, p);
    WrittenWithin(lu, pages, x);
    assert v[x].page.flags.ixdele;
    EntryNames(g, lu, pages, x, e, p);
    assert RefersBefore(g, pages, g.Pages(), 0, x, e, p);
  }

  /** On a flash on which the lookup check finds nothing, and the ranges of the page check end below page 0xffff, the
      page check finds nothing exactly if entries and data pages match. */
  lemma CleanExactly(g: Geometry, lu: seq<nat>, pages: seq<Page>)
    requires g.Wf() && Examined(g, lu, pages) && PagesPerScan(g) > 0 && Times(Passes(g), PagesPerScan(g)) <= FREE
    ensures var v := VolumeOf(lu, pages);
            Comes(g, pages, AllClean) <==> EntriesLead(g, v) && NamedOnce(g, v) && AllNamed(g, v)
  {
    hide Examined, EntriesLead, NamedOnce, AllNamed, PassClean, Offset;
    var v, n := VolumeOf(lu, pages), PagesPerScan(g);
    if EntriesLead(g, v) && NamedOnce(g, v) && AllNamed(g, v) {
      forall j: nat | j < Passes(g)
        ensures RangeStart(g, j) < g.Pages() && PassClean(g, pages, RangeStart(g, j), n)
      {
        EarlyRange(g, j);
        TimesMono(j + 1, Passes(g), n);
        RightIsClean(g, lu, pages, RangeStart(g, j), n);
      }
      RangesCover(g);
      OffsetExact(Passes(g), n);
      assert CleanFor(g, pages, Passes(g));
    }
    if Comes(g, pages, AllClean) {
      CleanMeans(g, lu, pages);
    }
  }

  // ---------- the page after the last ----------

  /** A formatted flash with one page on it: the header of a file whose first entry names the page after the last. */
  function StrayHeader(g: Geometry): Page
    requires g.Wf()
  {
    EmptyHeader(g).(ix := EmptyHeader(g).ix[0 := g.Pages()])
  }

  lemma OnePage(g: Geometry, lu: seq<nat>, pages: seq<Page>, q: nat)
    requires g.Wf() && q < g.Pages() && !g.IsLookupPage(q)
    requires lu == FormattedLu(g)[q := 1 + IX_FLAG] && pages == FormattedPages(g)[q := StrayHeader(g)]
    ensures Examined(g, lu, pages) && VolumeOf(lu, pages) == map[q := Cell(1 + IX_FLAG, StrayHeader(g))]
  {
    FormattedInOrder(g);
    LookupOnOrder(g, FormattedLu(g), FormattedPages(g), map[]);
    assert Shaped(g, pages);
  }

  /** Where the ranges end with the last page, a reference to the page after it goes unnoticed. */
  lemma PastEndOverlooked(g: Geometry) returns (lu: seq<nat>, pages: seq<Page>, q: nat)
    requires g.Wf() && EndsEven(g)
    ensures Examined(g, lu, pages) && Comes(g, pages, AllClean) && Names(g, VolumeOf(lu, pages), q, 0, g.Pages())
  {
    hide Comes, FormattedLu, FormattedPages, Examined, Passes;
    q := g.Pix(0, 0);
    PixRoundTrip(g, 0, 0);
    Sizes(g);
    lu, pages := FormattedLu(g)[q := 1 + IX_FLAG], FormattedPages(g)[q := StrayHeader(g)];
    OnePage(g, lu, pages, q);
    CleanExactly(g, lu, pages);
  }

  /** Two blocks of 64 KiB in pages of 256 bytes are such a geometry. */
  lemma EvenGeometry()
    ensures var c := Config(0, 0x2_0000, 0x1_0000, 256); c.Wf() && c.Derive().Wf() && EndsEven(c.Derive())
  {
    var c := Config(0, 0x2_0000, 0x1_0000, 256);
    DeriveWf(c);
    TimesIs(2, 256);
    QuotIs(511, 512);
    TimesIs(1, 512);
  }
}
