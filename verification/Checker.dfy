/** The consistency checks (spiffs_lookup_check_validate, spiffs_page_consistency_check_i) up to the
    point where they would start to repair something. */
module Checker {
  import opened Nor
  import opened Layout
  import opened Lookup
  import opened Volumes
  import opened Flash
  import opened Nucleus
  import opened Gc
  import opened Editing
  import opened Offsets

  // ---------- lookup entries ----------

  /** The branches of the lookup check that write to the flash. */
  predicate NeedsRepair(luId: nat, hdr: Page) {
    // the entry says deleted or free, the header says used
    || (luId == DELETED && hdr.flags.delet)
    || (luId == FREE && !hdr.flags.used)
    // the entry names an object, the header does not agree
    || (luId != FREE && luId != DELETED &&
        (IxId(hdr.id) != IxId(luId)
         || (if (IsIx(luId) && hdr.flags.index) || (!IsIx(luId) && !hdr.flags.index) then true
             else if !hdr.flags.delet then true
             else hdr.flags.final)))
  }

  /** A lookup entry says of a page what its header says. */
  predicate Agrees(luId: nat, hdr: Page) {
    if luId == FREE then hdr.flags.used
    else if luId == DELETED then !hdr.flags.delet
    else Base(hdr.id) == Base(luId) && IsIx(luId) == !hdr.flags.index && hdr.flags.delet && !hdr.flags.final
  }

  ghost predicate AllAgree(g: Geometry, lu: seq<nat>, pages: seq<Page>)
    requires LuShape(g, lu) && |pages| == |lu|
  {
    forall p :: 0 <= p < |lu| && lu[p] != NO_ENTRY ==> Agrees(lu[p], pages[p])
  }

  /** spiffs_lookup_consistency_check: has nothing to repair exactly if all entries agree. */
  method LookupCheck(g: Geometry, lu: seq<nat>, pages: seq<Page>) returns (clean: bool)
    requires LuShape(g, lu) && |pages| == |lu|
    ensures clean <==> AllAgree(g, lu, pages)
  {
    var visit := (id: nat, p: nat) => p < |pages| && NeedsRepair(id, pages[p]);
    var r, _ := FindEntry(g, lu, 0, 0, false, false, 0, visit);
    clean := r == NotFound;
    if clean {
      forall p | 0 <= p < |lu| && lu[p] != NO_ENTRY
        ensures Agrees(lu[p], pages[p])
      {
        assert !g.IsLookupPage(p);
        EntryRoundTrip(g, p);
        assert !Stops(g, lu, false, 0, visit, g.BlockOf(p), g.EntryOf(p));
      }
    } else {
      PixRoundTrip(g, r.block, r.entry);
      assert !Agrees(lu[g.Pix(r.block, r.entry)], pages[g.Pix(r.block, r.entry)]);
    }
  }

  // ---------- the bitmap ----------

  // Four bits for each page: 0 used, 1 referenced, 2 index.

  datatype Mark = Used | Referenced | Index

  function Bit(m: Mark, high: bool): bv8 {
    match m
    case Used => if high then 0x10 else 0x1
    case Referenced => if high then 0x20 else 0x2
    case Index => if high then 0x40 else 0x4
  }

  function Nibble(b: bv8, high: bool): bv8 { if high then (b >> 4) & 0x7 else b & 0x7 }

  function Bits(used: bool, referenced: bool, index: bool): bv8 {
    (if used then 0x1 else 0) | (if referenced then 0x2 else 0) | (if index then 0x4 else 0)
  }

  lemma NibbleMarked(b: bv8, high: bool, high': bool, m: Mark)
    ensures Nibble(b | Bit(m, high), high') == if high == high' then Nibble(b, high) | Bit(m, false)
            else Nibble(b, high')
  {}

  lemma BitsMarked(u: bool, r: bool, i: bool, m: Mark)
    ensures Bits(u, r, i) | Bit(m, false) == Bits(u || m == Used, r || m == Referenced, i || m == Index)
  {}

  /** A byte of the bitmap with one bit of one of its pages set. */
  function SetBit(b: bv8, m: Mark, high: bool): bv8 { b | Bit(m, high) }

  lemma NibbleSet(b: bv8, high: bool, high': bool, m: Mark, u: bool, r: bool, i: bool)
    requires Nibble(b, high') == Bits(u, r, i)
    ensures Nibble(SetBit(b, m, high), high') ==
              if high == high' then Bits(u || m == Used, r || m == Referenced, i || m == Index) else Bits(u, r, i)
  {
    hide Nibble, Bits, Bit;
    NibbleMarked(b, high, high', m);
    BitsMarked(u, r, i, m);
  }

  lemma BitRead(u: bool, r: bool, i: bool)
    ensures Bits(u, r, i) & Bit(Referenced, false) != 0 <==> r
    ensures Bits(u, r, i) == 0x1 <==> u && !r && !i
  {}

  /** The byte of the bitmap for page p of a range, and the half of it. */
  function ByteIx(off: nat, p: nat): nat
    requires off <= p
  { (p - off) / 2 }

  predicate High(p: nat) { p % 2 == 1 }

  lemma NibblesApart(off: nat, n: nat, p: nat, q: nat)
    requires off % 2 == 0 && off <= p < off + 2 * n && off <= q < off + 2 * n
    ensures ByteIx(off, p) < n && ByteIx(off, q) < n
    ensures ByteIx(off, p) == ByteIx(off, q) && High(p) == High(q) ==> p == q
  {}

  /** The bitmap says of each page of the range which of the sets it is in. */
  ghost predicate MarksAre(w: seq<bv8>, off: nat, u: set<nat>, r: set<nat>, i: set<nat>) {
    forall p: nat {:trigger MarkIs(w, off, u, r, i, p)} :: off <= p < off + 2 * |w| ==> MarkIs(w, off, u, r, i, p)
  }

  ghost predicate MarkIs(w: seq<bv8>, off: nat, u: set<nat>, r: set<nat>, i: set<nat>, p: nat)
    requires off <= p
  {
    ByteIx(off, p) < |w| && Nibble(w[ByteIx(off, p)], High(p)) == Bits(p in u, p in r, p in i)
  }

  function With(s: set<nat>, p: nat, here: bool): set<nat> { if here then s + {p} else s }

  lemma Marked(w: seq<bv8>, off: nat, p: nat, m: Mark, u: set<nat>, r: set<nat>, i: set<nat>, q: nat)
    requires off % 2 == 0 && off <= p < off + 2 * |w| && off <= q < off + 2 * |w| && MarkIs(w, off, u, r, i, q)
    ensures ByteIx(off, p) < |w|
    ensures MarkIs(w[ByteIx(off, p) := SetBit(w[ByteIx(off, p)], m, High(p))], off,
                   With(u, p, m == Used), With(r, p, m == Referenced), With(i, p, m == Index), q)
  {
    hide Nibble, Bits, Bit, SetBit, ByteIx, High, With;
    NibblesApart(off, |w|, p, q);
    InWith(u, p, m == Used, q);
    InWith(r, p, m == Referenced, q);
    InWith(i, p, m == Index, q);
    if ByteIx(off, p) == ByteIx(off, q) {
      NibbleSet(w[ByteIx(off, p)], High(p), High(q), m, q in u, q in r, q in i);
    }
  }

  lemma InWith(s: set<nat>, p: nat, here: bool, q: nat)
    ensures q in With(s, p, here) <==> q in s || (q == p && here)
  {}

  /** Sets one bit of page p. */
  method SetMark(work: array<bv8>, off: nat, p: nat, m: Mark, ghost u: set<nat>, ghost r: set<nat>, ghost i: set<nat>)
    requires off % 2 == 0 && off <= p < off + 2 * work.Length && MarksAre(work[..], off, u, r, i)
    modifies work
    ensures MarksAre(work[..], off, With(u, p, m == Used), With(r, p, m == Referenced), With(i, p, m == Index))
  {
    hide Nibble, Bits, Bit, SetBit, MarkIs, ByteIx, High, With;
    NibblesApart(off, work.Length, p, p);
    ghost var w := work[..];
    work[ByteIx(off, p)] := SetBit(work[ByteIx(off, p)], m, High(p));
    ghost var w' := w[ByteIx(off, p) := SetBit(w[ByteIx(off, p)], m, High(p))];
    ghost var u', r', i' := With(u, p, m == Used), With(r, p, m == Referenced), With(i, p, m == Index);
    assert work[..] == w';
    forall q: nat | off <= q < off + 2 * work.Length
      ensures MarkIs(w', off, u', r', i', q)
    {
      assert MarkIs(w, off, u, r, i, q);
      Marked(w, off, p, m, u, r, i, q);
    }
  }

  // ---------- what a pass over the pages finds ----------

  /** A header that the page check takes for that of a used page, or of an index page. */
  predicate InUse(page: Page) { page.flags.delet && !page.flags.used }
  predicate IsIndex(page: Page) { page.flags.delet && page.flags.ixdele && !page.flags.index && !page.flags.used }

  predicate InRangeOf(off: nat, n: nat, p: nat) { off <= p < off + n }

  /** The data span that entry 0 of an index page stands for, in 16 bits. */
  function SpanOffset(g: Geometry, span: Half): nat
    requires g.Wf()
  {
    g.FirstSpan(span) % 0x1_0000
  }

  predicate IsEntry(g: Geometry, pages: seq<Page>, x: nat, e: nat)
    requires g.Wf()
  {
    && x < |pages| && x < g.Pages() && !g.IsLookupPage(x) && IsIndex(pages[x])
    && e < g.Cap(pages[x].span) && e < |pages[x].ix|
  }

  /** An entry of an index page is as the pass over the range expects it. */
  predicate EntryGood(g: Geometry, pages: seq<Page>, off: nat, n: nat, x: nat, e: nat)
    requires g.Wf() && x < |pages| && e < |pages[x].ix|
  {
    var r := pages[x].ix[e];
    if (r != FREE && r > g.Pages()) || (InRangeOf(off, n, r) && g.IsLookupPage(r)) then false
    else if InRangeOf(off, n, r) then
      && r < |pages|
      && pages[r].id == Base(pages[x].id) && pages[r].span == SpanOffset(g, pages[x].span) + e
      && pages[r].flags.delet && pages[r].flags.index && !pages[r].flags.used
    else true
  }

  predicate RefersTo(g: Geometry, pages: seq<Page>, x: nat, e: nat, r: nat)
    requires g.Wf()
  {
    IsEntry(g, pages, x, e) && pages[x].ix[e] == r
  }

  predicate RefersBefore(g: Geometry, pages: seq<Page>, x: nat, e: nat, x': nat, e': nat, r: nat)
    requires g.Wf()
  {
    Before(x', e', x, e) && RefersTo(g, pages, x', e', r)
  }

  /** Some entry before entry e of page x refers to page r. */
  ghost predicate RefBefore(g: Geometry, pages: seq<Page>, x: nat, e: nat, r: nat)
    requires g.Wf()
  {
    exists x', e' :: RefersBefore(g, pages, x, e, x', e', r)
  }

  /** The entries before entry e of page x are good, and none of them refer to the same page of the range. */
  ghost predicate GoodBefore(g: Geometry, pages: seq<Page>, off: nat, n: nat, x: nat, e: nat)
    requires g.Wf()
  {
    && (forall x', e' :: Before(x', e', x, e) && IsEntry(g, pages, x', e') ==> EntryGood(g, pages, off, n, x', e'))
    && (forall x1, e1, x2, e2, r ::
        InRangeOf(off, n, r) && RefersBefore(g, pages, x, e, x1, e1, r) && RefersBefore(g, pages, x, e, x2, e2, r) ==>
        (x1, e1) == (x2, e2))
  }

  /** Page p of the range is used without being referred to or being an index page. */
  ghost predicate Orphan(g: Geometry, pages: seq<Page>, p: nat)
    requires g.Wf()
  {
    && p < |pages| && p < g.Pages() && !g.IsLookupPage(p) && InUse(pages[p]) && !IsIndex(pages[p])
    && !RefBefore(g, pages, g.Pages(), 0, p)
  }

  ghost predicate PassClean(g: Geometry, pages: seq<Page>, off: nat, n: nat)
    requires g.Wf()
  {
    GoodBefore(g, pages, off, n, g.Pages(), 0) && forall p :: InRangeOf(off, n, p) ==> !Orphan(g, pages, p)
  }

  /** The sets the bitmap stands for once the pages before page x and the entries before entry e of
      it have been visited. */
  ghost function UsedSet(g: Geometry, pages: seq<Page>, off: nat, n: nat, x: nat): set<nat>
    requires g.Wf()
  {
    set p: nat | off <= p < off + n && p < x && p < |pages| && !g.IsLookupPage(p) && InUse(pages[p])
  }

  ghost function IndexSet(g: Geometry, pages: seq<Page>, off: nat, n: nat, x: nat): set<nat>
    requires g.Wf()
  {
    set p: nat | off <= p < off + n && p < x && p < |pages| && !g.IsLookupPage(p) && IsIndex(pages[p])
  }

  ghost function RefSet(g: Geometry, pages: seq<Page>, off: nat, n: nat, x: nat, e: nat): set<nat>
    requires g.Wf()
  {
    set r: nat | off <= r < off + n && RefBefore(g, pages, x, e, r)
  }

  ghost predicate PassState(g: Geometry, pages: seq<Page>, off: nat, n: nat, w: seq<bv8>, x: nat, e: nat, y: nat)
    requires g.Wf()
  {
    && n <= 2 * |w| && GoodBefore(g, pages, off, n, x, e)
    && MarksAre(w, off, UsedSet(g, pages, off, n, y), RefSet(g, pages, off, n, x, e), IndexSet(g, pages, off, n, y))
  }

  lemma RefSetStep(g: Geometry, pages: seq<Page>, off: nat, n: nat, x: nat, e: nat)
    requires g.Wf() && IsEntry(g, pages, x, e)
    ensures RefSet(g, pages, off, n, x, e + 1) ==
            With(RefSet(g, pages, off, n, x, e), pages[x].ix[e], InRangeOf(off, n, pages[x].ix[e]))
  {
    forall r: nat | InRangeOf(off, n, r)
      ensures RefBefore(g, pages, x, e + 1, r) <==> RefBefore(g, pages, x, e, r) || r == pages[x].ix[e]
    {
      if RefBefore(g, pages, x, e, r) {
        var x', e' :| RefersBefore(g, pages, x, e, x', e', r);
        assert RefersBefore(g, pages, x, e + 1, x', e', r);
      }
      if r == pages[x].ix[e] {
        assert RefersBefore(g, pages, x, e + 1, x, e, r);
      }
      if RefBefore(g, pages, x, e + 1, r) && r != pages[x].ix[e] {
        var x', e' :| RefersBefore(g, pages, x, e + 1, x', e', r);
        assert RefersBefore(g, pages, x, e, x', e', r);
      }
    }
  }

  lemma GoodStep(g: Geometry, pages: seq<Page>, off: nat, n: nat, x: nat, e: nat)
    requires g.Wf() && IsEntry(g, pages, x, e) && GoodBefore(g, pages, off, n, x, e)
    ensures GoodBefore(g, pages, off, n, x, e + 1) <==>
              EntryGood(g, pages, off, n, x, e)
                  && !(InRangeOf(off, n, pages[x].ix[e]) && RefBefore(g, pages, x, e, pages[x].ix[e]))
  {
    var r := pages[x].ix[e];
    assert Before(x, e, x, e + 1) && RefersBefore(g, pages, x, e + 1, x, e, r);
    if InRangeOf(off, n, r) && RefBefore(g, pages, x, e, r) {
      var x', e' :| RefersBefore(g, pages, x, e, x', e', r);
      assert RefersBefore(g, pages, x, e + 1, x', e', r);
    } else if EntryGood(g, pages, off, n, x, e) {
      forall x1: nat, e1: nat, x2: nat, e2: nat, r': nat | InRangeOf(off, n, r')
          && RefersBefore(g, pages, x, e + 1, x1, e1, r') && RefersBefore(g, pages, x, e + 1, x2, e2, r')
        ensures (x1, e1) == (x2, e2)
      {
        assert (x1, e1) == (x, e) || RefersBefore(g, pages, x, e, x1, e1, r');
        assert (x2, e2) == (x, e) || RefersBefore(g, pages, x, e, x2, e2, r');
      }
    }
  }

  /** What is wrong early on is still wrong in the end. */
  lemma GoodMono(g: Geometry, pages: seq<Page>, off: nat, n: nat, x: nat, e: nat)
    requires g.Wf() && x < g.Pages() && GoodBefore(g, pages, off, n, g.Pages(), 0)
    ensures GoodBefore(g, pages, off, n, x, e)
  {
    forall x': nat, e': nat | Before(x', e', x, e)
      ensures Before(x', e', g.Pages(), 0)
    {}
    forall x1: nat, e1: nat, r: nat | RefersBefore(g, pages, x, e, x1, e1, r)
      ensures RefersBefore(g, pages, g.Pages(), 0, x1, e1, r)
    {}
  }

  /** Page x has no entries from entry e on. */
  lemma RowDone(g: Geometry, pages: seq<Page>, off: nat, n: nat, w: seq<bv8>, x: nat, e: nat, y: nat)
    requires g.Wf() && PassState(g, pages, off, n, w, x, e, y) && forall e' :: e <= e' ==> !IsEntry(g, pages, x, e')
    ensures PassState(g, pages, off, n, w, x + 1, 0, y)
  {
    forall x': nat, e': nat | Before(x', e', x + 1, 0) && IsEntry(g, pages, x', e')
      ensures Before(x', e', x, e)
    {}
    forall x': nat, e': nat, r: nat
      ensures RefersBefore(g, pages, x + 1, 0, x', e', r) == RefersBefore(g, pages, x, e, x', e', r)
    {}
    forall r: nat
      ensures RefBefore(g, pages, x + 1, 0, r) == RefBefore(g, pages, x, e, r)
    {
      if RefBefore(g, pages, x + 1, 0, r) {
        var x', e' :| RefersBefore(g, pages, x + 1, 0, x', e', r);
        assert RefersBefore(g, pages, x, e, x', e', r);
      }
      if RefBefore(g, pages, x, e, r) {
        var x', e' :| RefersBefore(g, pages, x, e, x', e', r);
        assert RefersBefore(g, pages, x + 1, 0, x', e', r);
      }
    }
    assert RefSet(g, pages, off, n, x + 1, 0) == RefSet(g, pages, off, n, x, e);
  }

  // ---------- the pass ----------

  predicate Shaped(g: Geometry, pages: seq<Page>)
    requires g.Wf()
  {
    |pages| == g.Pages() && forall p :: 0 <= p < |pages| ==> PageShape(g, pages[p])
  }

  /** Goes through the entries of index page x. */
  method CheckEntries(g: Geometry, pages: seq<Page>, off: nat, n: nat, work: array<bv8>, x: nat) returns (clean: bool)
    requires g.Wf() && Shaped(g, pages) && off % 2 == 0 && x < g.Pages() && !g.IsLookupPage(x) && IsIndex(pages[x])
    requires PassState(g, pages, off, n, work[..], x, 0, x + 1)
    modifies work
    ensures clean ==> PassState(g, pages, off, n, work[..], x + 1, 0, x + 1)
    ensures !clean ==> !PassClean(g, pages, off, n)
  {
    hide MarksAre, UsedSet, RefSet, IndexSet, GoodBefore, With, EntryGood;
    var entries := g.Cap(pages[x].span);
    var i := 0;
    while i < entries
      invariant 0 <= i <= entries
      invariant PassState(g, pages, off, n, work[..], x, i, x + 1)
    {
      assert IsEntry(g, pages, x, i);
      GoodStep(g, pages, off, n, x, i);
      var rpix := pages[x].ix[i];
      if !EntryGood(g, pages, off, n, x, i) {
        NotClean(g, pages, off, n, x, i + 1);
        return false;
      }
      RefSetStep(g, pages, off, n, x, i);
      if InRangeOf(off, n, rpix) {
        var referenced := IsReferenced(g, pages, off, n, work, x, i, x + 1, rpix);
        if referenced {
          NotClean(g, pages, off, n, x, i + 1);
          return false;
        }
        ghost var u, r, ix := UsedSet(g, pages, off, n, x + 1), RefSet(g, pages, off, n, x, i),
            IndexSet(g, pages, off, n, x + 1);
        SetMark(work, off, rpix, Referenced, u, r, ix);
        WithNot(u, rpix);
        WithNot(ix, rpix);
      } else {
        WithNot(RefSet(g, pages, off, n, x, i), rpix);
      }
      i := i + 1;
    }
    RowDone(g, pages, off, n, work[..], x, entries, x + 1);
    return true;
  }

  lemma WithNot(s: set<nat>, p: nat)
    ensures With(s, p, false) == s
  {}

  lemma NotClean(g: Geometry, pages: seq<Page>, off: nat, n: nat, x: nat, e: nat)
    requires g.Wf() && x < g.Pages() && !GoodBefore(g, pages, off, n, x, e)
    ensures !PassClean(g, pages, off, n)
  {
    if PassClean(g, pages, off, n) {
      GoodMono(g, pages, off, n, x, e);
    }
  }

  /** Tests the bit for a page that has been referred to. */
  method IsReferenced(g: Geometry, pages: seq<Page>, off: nat, n: nat, work: array<bv8>, ghost x: nat, ghost e: nat,
      ghost y: nat, p: nat) returns (b: bool)
    requires g.Wf() && off % 2 == 0 && InRangeOf(off, n, p) && PassState(g, pages, off, n, work[..], x, e, y)
    ensures b <==> RefBefore(g, pages, x, e, p)
  {
    hide GoodBefore, RefBefore;
    NibblesApart(off, work.Length, p, p);
    assert MarkIs(work[..], off, UsedSet(g, pages, off, n, y), RefSet(g, pages, off, n, x, e),
                  IndexSet(g, pages, off, n, y), p);
    BitRead(p in UsedSet(g, pages, off, n, y), p in RefSet(g, pages, off, n, x, e), p in IndexSet(g, pages, off, n, y));
    b := Nibble(work[ByteIx(off, p)], High(p)) & Bit(Referenced, false) != 0;
  }

  lemma UsedStep(g: Geometry, pages: seq<Page>, off: nat, n: nat, x: nat)
    requires g.Wf() && x < |pages|
    ensures UsedSet(g, pages, off, n, x + 1) ==
            With(UsedSet(g, pages, off, n, x), x, InRangeOf(off, n, x) && !g.IsLookupPage(x) && InUse(pages[x]))
    ensures IndexSet(g, pages, off, n, x + 1) ==
            With(IndexSet(g, pages, off, n, x), x, InRangeOf(off, n, x) && !g.IsLookupPage(x) && IsIndex(pages[x]))
  {}

  /** Visits one page, and the entries in it if it is an index page. */
  method VisitPage(g: Geometry, pages: seq<Page>, off: nat, n: nat, work: array<bv8>, x: nat) returns (clean: bool)
    requires g.Wf() && Shaped(g, pages) && off % 2 == 0 && x < g.Pages() && !g.IsLookupPage(x)
    requires PassState(g, pages, off, n, work[..], x, 0, x)
    modifies work
    ensures clean ==> PassState(g, pages, off, n, work[..], x + 1, 0, x + 1)
    ensures !clean ==> !PassClean(g, pages, off, n)
  {
    hide MarksAre, UsedSet, RefSet, IndexSet, GoodBefore;
    var withinRange := off <= x < off + n;
    ghost var u, r, i := UsedSet(g, pages, off, n, x), RefSet(g, pages, off, n, x, 0), IndexSet(g, pages, off, n, x);
    UsedStep(g, pages, off, n, x);
    if withinRange && pages[x].flags.delet && !pages[x].flags.used {
      // used
      SetMark(work, off, x, Used, u, r, i);
    }
    u := UsedSet(g, pages, off, n, x + 1);
    if pages[x].flags.delet && pages[x].flags.ixdele && !pages[x].flags.index && !pages[x].flags.used {
      // an index page that is not being deleted
      if withinRange {
        SetMark(work, off, x, Index, u, r, i);
      }
      clean := CheckEntries(g, pages, off, n, work, x);
    } else {
      RowDone(g, pages, off, n, work[..], x, 0, x + 1);
      clean := true;
    }
  }

  /** Lookup pages are left out. */
  lemma SkipLookup(g: Geometry, pages: seq<Page>, off: nat, n: nat, w: seq<bv8>, x: nat)
    requires g.Wf() && x < |pages| && g.IsLookupPage(x) && PassState(g, pages, off, n, w, x, 0, x)
    ensures PassState(g, pages, off, n, w, x + 1, 0, x + 1)
  {
    UsedStep(g, pages, off, n, x);
    RowDone(g, pages, off, n, w, x, 0, x + 1);
  }

  lemma SkipLookups(g: Geometry, pages: seq<Page>, off: nat, n: nat, w: seq<bv8>, b: nat, k: nat)
    requires g.Wf() && |pages| == g.Pages() && b < g.blocks && k <= g.lookupPages
    requires PassState(g, pages, off, n, w, Times(b, g.pagesPerBlock), 0, Times(b, g.pagesPerBlock))
    ensures PassState(g, pages, off, n, w, Times(b, g.pagesPerBlock) + k, 0, Times(b, g.pagesPerBlock) + k)
  {
    hide PassState;
    if k > 0 {
      SkipLookups(g, pages, off, n, w, b, k - 1);
      var x := Times(b, g.pagesPerBlock) + (k - 1);
      QuotUnique(x, g.pagesPerBlock, b, k - 1);
      TimesMono(b + 1, g.blocks, g.pagesPerBlock);
      SkipLookup(g, pages, off, n, w, x);
    }
  }

  lemma NoMarksYet(g: Geometry, pages: seq<Page>, off: nat, n: nat, w: seq<bv8>)
    requires g.Wf() && off % 2 == 0 && n <= 2 * |w| && forall j :: 0 <= j < |w| ==> w[j] == 0
    ensures PassState(g, pages, off, n, w, 0, 0, 0)
  {
    assert UsedSet(g, pages, off, n, 0) == {} && IndexSet(g, pages, off, n, 0) == {}
        && RefSet(g, pages, off, n, 0, 0) == {};
    forall p: nat | off <= p < off + 2 * |w|
      ensures MarkIs(w, off, {}, {}, {}, p)
    {
      NibblesApart(off, |w|, p, p);
    }
  }

  /** Builds the bitmap for a range of pages. */
  method BuildBitmap(g: Geometry, pages: seq<Page>, off: nat, n: nat, work: array<bv8>) returns (clean: bool)
    requires g.Wf() && Shaped(g, pages) && off % 2 == 0 && n <= 2 * work.Length
    requires forall j :: 0 <= j < work.Length ==> work[j] == 0
    modifies work
    ensures clean ==> PassState(g, pages, off, n, work[..], g.Pages(), 0, g.Pages())
    ensures !clean ==> !PassClean(g, pages, off, n)
  {
    hide PassState, PassClean;
    NoMarksYet(g, pages, off, n, work[..]);
    var curBlock := 0;
    while curBlock < g.blocks
      invariant 0 <= curBlock <= g.blocks
      invariant PassState(g, pages, off, n, work[..], Times(curBlock, g.pagesPerBlock), 0,
                          Times(curBlock, g.pagesPerBlock))
    {
      SkipLookups(g, pages, off, n, work[..], curBlock, g.lookupPages);
      TimesMono(curBlock + 1, g.blocks, g.pagesPerBlock);
      var curPix := g.lookupPages + Times(curBlock, g.pagesPerBlock);
      while curPix < Times(curBlock + 1, g.pagesPerBlock)
        invariant g.lookupPages + Times(curBlock, g.pagesPerBlock) <= curPix <= Times(curBlock + 1, g.pagesPerBlock)
        invariant PassState(g, pages, off, n, work[..], curPix, 0, curPix)
      {
        QuotUnique(curPix, g.pagesPerBlock, curBlock, curPix - Times(curBlock, g.pagesPerBlock));
        clean := VisitPage(g, pages, off, n, work, curPix);
        if !clean {
          return;
        }
        curPix := curPix + 1;
      }
      curBlock := curBlock + 1;
    }
    return true;
  }

  /** In the bitmap, an orphan is a page that is used, not referenced and no index page. */
  lemma OrphanMark(g: Geometry, pages: seq<Page>, off: nat, n: nat, w: seq<bv8>, p: nat)
    requires g.Wf() && Shaped(g, pages) && off % 2 == 0 && off <= p < off + 2 * |w|
    requires PassState(g, pages, off, n, w, g.Pages(), 0, g.Pages())
    ensures ByteIx(off, p) < |w|
    ensures Nibble(w[ByteIx(off, p)], High(p)) == 0x1 <==> p < off + n && Orphan(g, pages, p)
  {
    hide GoodBefore, RefBefore;
    NibblesApart(off, |w|, p, p);
    var x := g.Pages();
    assert MarkIs(w, off, UsedSet(g, pages, off, n, x), RefSet(g, pages, off, n, x, 0), IndexSet(g, pages, off, n, x),
                  p);
    BitRead(p in UsedSet(g, pages, off, n, x), p in RefSet(g, pages, off, n, x, 0), p in IndexSet(g, pages, off, n, x));
  }

  /** Looks through the bitmap for orphans. */
  method CheckBitmap(g: Geometry, pages: seq<Page>, off: nat, n: nat, work: array<bv8>) returns (clean: bool)
    requires g.Wf() && Shaped(g, pages) && off % 2 == 0 && n <= 2 * work.Length
    requires PassState(g, pages, off, n, work[..], g.Pages(), 0, g.Pages())
    ensures clean <==> forall p: nat :: InRangeOf(off, n, p) ==> !Orphan(g, pages, p)
  {
    hide PassState, Orphan, Nibble;
    var byteIx := 0;
    while byteIx < work.Length
      invariant 0 <= byteIx <= work.Length
      invariant forall p: nat :: InRangeOf(off, 2 * byteIx, p) && p < off + n ==> !Orphan(g, pages, p)
    {
      var bitIx := 0;
      while bitIx < 2
        invariant 0 <= bitIx <= 2
        invariant forall p: nat :: InRangeOf(off, 2 * byteIx + bitIx, p) && p < off + n ==> !Orphan(g, pages, p)
      {
        var bitmask := Nibble(work[byteIx], bitIx == 1);
        ghost var curPix := off + byteIx * 2 + bitIx;
        OrphanMark(g, pages, off, n, work[..], curPix);
        assert ByteIx(off, curPix) == byteIx && High(curPix) == (bitIx == 1);
        if bitmask == 0x1 {
          // an orphan
          assert InRangeOf(off, n, curPix);
          return false;
        }
        bitIx := bitIx + 1;
      }
      byteIx := byteIx + 1;
    }
    return true;
  }

  /** One pass: finds nothing to repair exactly if the range is clean. */
  method Pass(g: Geometry, pages: seq<Page>, off: nat, n: nat, work: array<bv8>) returns (clean: bool)
    requires g.Wf() && Shaped(g, pages) && off % 2 == 0 && n <= 2 * work.Length
    modifies work
    ensures clean <==> PassClean(g, pages, off, n)
  {
    hide Orphan, GoodBefore;
    for i := 0 to work.Length
      invariant forall j :: 0 <= j < i ==> work[j] == 0
    {
      work[i] := 0;
    }
    clean := BuildBitmap(g, pages, off, n, work);
    if clean {
      PassGood(g, pages, off, n, work[..]);
      clean := CheckBitmap(g, pages, off, n, work);
    }
  }

  lemma PassGood(g: Geometry, pages: seq<Page>, off: nat, n: nat, w: seq<bv8>)
    requires g.Wf() && PassState(g, pages, off, n, w, g.Pages(), 0, g.Pages())
    ensures GoodBefore(g, pages, off, n, g.Pages(), 0)
  {}

  /** The pages of one range: those whose bits fit into the work buffer, in 16 bits. */
  function PagesPerScan(g: Geometry): (n: nat)
    ensures n < WRAP && n % 2 == 0 && n <= 2 * (g.dataSize + PAGE_HDR_BYTES)
  {
    2 * (g.dataSize + PAGE_HDR_BYTES) % WRAP
  }

  /** Where range k starts. */
  function RangeStart(g: Geometry, k: nat): nat { Offset(k, PagesPerScan(g)) }

  /** How the page check ends, if it ends. */
  datatype Verdict = AllClean | Repairs | Endless

  /** The first k passes found nothing to repair, and none of them was the last. */
  ghost predicate CleanFor(g: Geometry, pages: seq<Page>, k: nat)
    requires g.Wf()
  {
    forall j: nat :: j < k ==> RangeStart(g, j) < g.Pages() && PassClean(g, pages, RangeStart(g, j), PagesPerScan(g))
  }

  ghost predicate Comes(g: Geometry, pages: seq<Page>, v: Verdict)
    requires g.Wf()
  {
    match v
    case AllClean => exists k: nat :: CleanFor(g, pages, k) && RangeStart(g, k) >= g.Pages()
    case Repairs => exists k: nat :: CleanFor(g, pages, k) && RangeStart(g, k) < g.Pages()
                                     && !PassClean(g, pages, RangeStart(g, k), PagesPerScan(g))
    case Endless => forall k: nat :: CleanFor(g, pages, k)
  }

  /** Pass k is not made any more, or the first that has something to repair. */
  ghost predicate EndsAt(g: Geometry, pages: seq<Page>, k: nat)
    requires g.Wf()
  {
    CleanFor(g, pages, k) && !CleanFor(g, pages, k + 1)
  }

  lemma EndOf(g: Geometry, pages: seq<Page>, v: Verdict) returns (k: nat)
    requires g.Wf() && Comes(g, pages, v) && v != Endless
    ensures EndsAt(g, pages, k) && (v == AllClean <==> RangeStart(g, k) >= g.Pages())
  {
    hide PassClean;
    if v == AllClean {
      k :| CleanFor(g, pages, k) && RangeStart(g, k) >= g.Pages();
    } else {
      k :| CleanFor(g, pages, k) && RangeStart(g, k) < g.Pages()
          && !PassClean(g, pages, RangeStart(g, k), PagesPerScan(g));
    }
  }

  lemma EndsOnce(g: Geometry, pages: seq<Page>, k: nat, k': nat)
    requires g.Wf() && EndsAt(g, pages, k) && EndsAt(g, pages, k')
    ensures k == k'
  {
    hide PassClean;
  }

  lemma NoEnd(g: Geometry, pages: seq<Page>, k: nat)
    requires g.Wf() && EndsAt(g, pages, k)
    ensures !Comes(g, pages, Endless)
  {}

  /** It comes to one of the three only. */
  lemma ComesOnce(g: Geometry, pages: seq<Page>, v: Verdict, v': Verdict)
    requires g.Wf() && Comes(g, pages, v) && Comes(g, pages, v')
    ensures v == v'
  {
    hide PassClean, Comes, EndsAt;
    if v != Endless {
      var k := EndOf(g, pages, v);
      NoEnd(g, pages, k);
      if v' != Endless {
        var k' := EndOf(g, pages, v');
        EndsOnce(g, pages, k, k');
      }
    } else if v' != Endless {
      var k' := EndOf(g, pages, v');
      NoEnd(g, pages, k');
    }
  }

  lemma {:induction false} OffsetEven(k: nat, step: nat)
    requires step % 2 == 0
    ensures Offset(k, step) % 2 == 0
  {
    if k > 0 {
      OffsetEven(k - 1, step);
    }
  }

  /** With 2^16 passes gone by, the check is back where it began. */
  lemma RoundAndRound(g: Geometry, pages: seq<Page>, w: nat)
    requires g.Wf() && w == WRAP && CleanFor(g, pages, w)
    ensures Comes(g, pages, Endless)
  {
    hide PassClean, Offset;
    forall k: nat
      ensures RangeStart(g, k) < g.Pages() && PassClean(g, pages, RangeStart(g, k), PagesPerScan(g))
    {
      Periodic(k, PagesPerScan(g), w);
      QuotRem(k, w);
      assert RangeStart(g, Rem(k, w)) < g.Pages();
    }
  }

  /** spiffs_page_consistency_check_i: finishes, or comes to a pass that has something to repair, or goes on for ever
      without either. Where the source goes on for ever, the method stops when it is back at its first range after
      2^16 passes. */
  method PageCheckAll(g: Geometry, pages: seq<Page>) returns (verdict: Verdict)
    requires g.Wf() && Shaped(g, pages)
    ensures forall v :: Comes(g, pages, v) <==> v == verdict
  {
    hide PassClean, Offset;
    var work := new bv8[g.dataSize + PAGE_HDR_BYTES];
    var pixOffset, k := 0, 0;
    FirstRange(g);
    verdict := AllClean;
    while pixOffset < g.Pages() && k < WRAP
      invariant 0 <= k <= WRAP && pixOffset == RangeStart(g, k) && CleanFor(g, pages, k)
      decreases WRAP - k
    {
      OffsetEven(k, PagesPerScan(g));
      var clean := Pass(g, pages, pixOffset, PagesPerScan(g), work);
      if !clean {
        verdict := Repairs;
        break;
      }
      NextRange(g, k);
      pixOffset := (pixOffset + PagesPerScan(g)) % WRAP;
      k := k + 1;
    }
    if verdict == AllClean && pixOffset < g.Pages() {
      RoundAndRound(g, pages, k);
      verdict := Endless;
    }
    assert Comes(g, pages, verdict);
    forall v | Comes(g, pages, v)
      ensures v == verdict
    {
      ComesOnce(g, pages, v, verdict);
    }
  }

  lemma FirstRange(g: Geometry)
    ensures RangeStart(g, 0) == 0
  {}

  lemma NextRange(g: Geometry, k: nat)
    ensures RangeStart(g, k + 1) == (RangeStart(g, k) + PagesPerScan(g)) % WRAP
  {}

  // ---------- a file system in order ----------

  ghost predicate InOrder(g: Geometry, lu: seq<nat>, pages: seq<Page>, files: Files) {
    && g.Wf() && LuShape(g, lu) && FreeBlank(g, lu, pages) && Consistent(g, VolumeOf(lu, pages), files)
  }

  /** A used page is a live page of some file. */
  lemma UsedPage(g: Geometry, lu: seq<nat>, pages: seq<Page>, files: Files, p: nat)
    requires InOrder(g, lu, pages, files) && p < g.Pages() && !g.IsLookupPage(p) && InUse(pages[p])
    ensures var v := VolumeOf(lu, pages); p in v && v[p] == Cell(lu[p], pages[p])
    ensures var v, o := VolumeOf(lu, pages), Base(lu[p]);
            && o in files && FileLinked(g, v, o, files[o]) && Settled(g, v, files[o])
            && |files[o].dap| <= FREE && |files[o].ixp| <= FREE
    ensures var v, o, k := VolumeOf(lu, pages), Base(lu[p]), pages[p].span;
            if IsIx(lu[p]) then k < |files[o].ixp| && files[o].ixp[k] == p && IndexCell(g, v[p], o, files[o].dap, k)
                && pages[p].flags.ixdele
            else k < |files[o].dap| && files[o].dap[k] == p && DataCell(g, v[p], o, k)
  {
    var v, o, k := VolumeOf(lu, pages), Base(lu[p]), pages[p].span;
    assert HasFile(g, v, files, p);
    ConsistentFile(g, v, files, o);
    SettledOthers(g, v, files, o);
    PageBound(g, v, files, [], o);
    if IsIx(lu[p]) {
      IndexOf(g, v, o, files[o], k);
    }
  }

  /** An entry of an index page is the entry of its file. */
  lemma EntryIs(g: Geometry, lu: seq<nat>, pages: seq<Page>, files: Files, x: nat, e: nat)
    requires InOrder(g, lu, pages, files) && IsEntry(g, pages, x, e)
    ensures var o, k := Base(lu[x]), pages[x].span;
            && IsIx(lu[x]) && o in files && k < |files[o].ixp| && files[o].ixp[k] == x
            && pages[x].ix[e] == EntryAt(g, files[o].dap, k, e) && Base(pages[x].id) == o
  {
    UsedPage(g, lu, pages, files, x);
  }

  /** An entry that is not empty leads to the data page of its file at its span. */
  lemma EntryLeadsTo(g: Geometry, lu: seq<nat>, pages: seq<Page>, files: Files, x: nat, e: nat)
    requires InOrder(g, lu, pages, files) && IsEntry(g, pages, x, e) && pages[x].ix[e] != FREE
    ensures var r, o, s := pages[x].ix[e], Base(lu[x]), g.FirstSpan(pages[x].span) + e;
            && r < g.Pages() && !g.IsLookupPage(r) && o in files && s < |files[o].dap| <= FREE && files[o].dap[s] == r
            && lu[r] == o && pages[r].id == o && pages[r].span == s && pages[r].flags == DATA_FLAGS
  {
    EntryIs(g, lu, pages, files, x, e);
    UsedPage(g, lu, pages, files, x);
    var v, o, s := VolumeOf(lu, pages), Base(lu[x]), g.FirstSpan(pages[x].span) + e;
    assert DataCell(g, v[files[o].dap[s]], o, s);
    assert !g.IsLookupPage(files[o].dap[s]);
  }

  lemma EntriesGood(g: Geometry, lu: seq<nat>, pages: seq<Page>, files: Files, off: nat, n: nat, x: nat, e: nat)
    requires InOrder(g, lu, pages, files) && IsEntry(g, pages, x, e) && off <= FREE
    ensures EntryGood(g, pages, off, n, x, e) <==> off + n <= FREE || pages[x].ix[e] != FREE
  {
    EntryIs(g, lu, pages, files, x, e);
    if pages[x].ix[e] != FREE {
      EntryLeadsTo(g, lu, pages, files, x, e);
    }
  }

  /** No data page is referred to twice. */
  lemma RefsApart(g: Geometry, lu: seq<nat>, pages: seq<Page>, files: Files, x1: nat, e1: nat, x2: nat, e2: nat, r: nat)
    requires InOrder(g, lu, pages, files) && RefersTo(g, pages, x1, e1, r) && RefersTo(g, pages, x2, e2, r) && r != FREE
    ensures (x1, e1) == (x2, e2)
  {
    EntryLeadsTo(g, lu, pages, files, x1, e1);
    EntryLeadsTo(g, lu, pages, files, x2, e2);
    EntryIs(g, lu, pages, files, x1, e1);
    EntryIs(g, lu, pages, files, x2, e2);
    EntrySpanRoundTrip(g, pages[x1].span, e1);
    EntrySpanRoundTrip(g, pages[x2].span, e2);
  }

  /** Every data page is referred to. */
  lemma NoOrphans(g: Geometry, lu: seq<nat>, pages: seq<Page>, files: Files, p: nat)
    requires InOrder(g, lu, pages, files)
    ensures !Orphan(g, pages, p)
  {
    if Orphan(g, pages, p) {
      UsedPage(g, lu, pages, files, p);
      var v, o, s := VolumeOf(lu, pages), Base(lu[p]), pages[p].span;
      var f := files[o];
      var k, e := g.IxSpan(s), g.IxEntry(s);
      IxSpanBound(g, s, |f.ixp|);
      SpanRoundTrip(g, s);
      IndexOf(g, v, o, f, k);
      var x := f.ixp[k];
      assert !g.IsLookupPage(x);
      assert HasFile(g, v, files, x);
      assert pages[x].ix[e] == EntryAt(g, f.dap, k, e) == p;
      assert RefersBefore(g, pages, g.Pages(), 0, x, e, p);
    }
  }

  predicate EmptyEntry(g: Geometry, pages: seq<Page>, x: nat, e: nat)
    requires g.Wf()
  {
    IsEntry(g, pages, x, e) && pages[x].ix[e] == FREE
  }

  /** Some index page is not full. */
  ghost predicate HasEmpty(g: Geometry, pages: seq<Page>)
    requires g.Wf()
  {
    exists x, e :: EmptyEntry(g, pages, x, e)
  }

  /** On a file system in order, a pass finds nothing to repair, unless its range reaches page
      0xffff and there is an empty index entry, which it takes for a reference to that page. */
  lemma PassOnOrder(g: Geometry, lu: seq<nat>, pages: seq<Page>, files: Files, off: nat, n: nat)
    requires InOrder(g, lu, pages, files) && off <= FREE
    ensures PassClean(g, pages, off, n) <==> off + n <= FREE || !HasEmpty(g, pages)
  {
    forall x: nat, e: nat | IsEntry(g, pages, x, e)
      ensures EntryGood(g, pages, off, n, x, e) <==> off + n <= FREE || !EmptyEntry(g, pages, x, e)
    {
      EntriesGood(g, lu, pages, files, off, n, x, e);
    }
    forall p: nat
      ensures !Orphan(g, pages, p)
    {
      NoOrphans(g, lu, pages, files, p);
    }
    if off + n > FREE && HasEmpty(g, pages) {
      var x: nat, e: nat :| EmptyEntry(g, pages, x, e);
      assert Before(x, e, g.Pages(), 0);
      assert !EntryGood(g, pages, off, n, x, e);
    } else {
      forall x1: nat, e1: nat, x2: nat, e2: nat, r: nat | InRangeOf(off, n, r)
          && RefersBefore(g, pages, g.Pages(), 0, x1, e1, r) && RefersBefore(g, pages, g.Pages(), 0, x2, e2, r)
        ensures (x1, e1) == (x2, e2)
      {
        assert r == FREE ==> EmptyEntry(g, pages, x1, e1);
        RefsApart(g, lu, pages, files, x1, e1, x2, e2, r);
      }
    }
  }

  /** The number of passes it takes to cover all pages. */
  function Passes(g: Geometry): nat
    requires g.Wf() && PagesPerScan(g) > 0
  {
    Quot(g.Pages() - 1, PagesPerScan(g)) + 1
  }

  /** How the page check ends on a file system in order. If the ranges end below 2^16, it finishes. Otherwise it takes
      an empty index entry for a reference to page 0xffff and repairs it; and without any, it finishes only if some
      offset that has started over meets the end. */
  ghost function VerdictOnOrder(g: Geometry, hasEmpty: bool): Verdict
    requires g.Wf()
  {
    if PagesPerScan(g) == 0 then Endless
    else if Times(Passes(g), PagesPerScan(g)) <= FREE then AllClean
    else if hasEmpty then Repairs
    else if g.Pages() <= WRAP - Granule(PagesPerScan(g), WRAP) then AllClean
    else Endless
  }

  /** The ranges cover all pages, and the last one is needed. */
  lemma RangesCover(g: Geometry)
    requires g.Wf() && PagesPerScan(g) > 0
    ensures g.Pages() >= 1
    ensures Times(Passes(g), PagesPerScan(g)) >= g.Pages() > Times(Passes(g) - 1, PagesPerScan(g))
  {
    TimesAtLeast(g.blocks, g.pagesPerBlock);
    QuotRem(g.Pages() - 1, PagesPerScan(g));
  }

  /** The ranges before the last start where they would without overflow, and end below 2^16. */
  lemma EarlyRange(g: Geometry, k: nat)
    requires g.Wf() && PagesPerScan(g) > 0 && k < Passes(g)
    ensures RangeStart(g, k) == Times(k, PagesPerScan(g)) < g.Pages()
    ensures k < Passes(g) - 1 ==> RangeStart(g, k) + PagesPerScan(g) <= FREE
  {
    RangesCover(g);
    TimesMono(k, Passes(g) - 1, PagesPerScan(g));
    OffsetExact(k, PagesPerScan(g));
  }

  /** The first k with an offset past the end, if there is any. */
  lemma FirstPast(g: Geometry, k: nat) returns (first: nat)
    requires RangeStart(g, k) >= g.Pages()
    ensures RangeStart(g, first) >= g.Pages() && forall j: nat :: j < first ==> RangeStart(g, j) < g.Pages()
  {
    first := 0;
    while RangeStart(g, first) < g.Pages()
      invariant first <= k && forall j: nat :: j < first ==> RangeStart(g, j) < g.Pages()
      decreases k - first
    {
      first := first + 1;
    }
  }

  /** How the page check ends on a file system in order, exactly. */
  lemma PageCheckOnOrder(g: Geometry, lu: seq<nat>, pages: seq<Page>, files: Files)
    requires InOrder(g, lu, pages, files)
    ensures forall v :: Comes(g, pages, v) <==> v == VerdictOnOrder(g, HasEmpty(g, pages))
  {
    hide PassClean, HasEmpty, Offset, Granule;
    OrderedVerdict(g, lu, pages, files);
    forall v | Comes(g, pages, v)
      ensures v == VerdictOnOrder(g, HasEmpty(g, pages))
    {
      ComesOnce(g, pages, v, VerdictOnOrder(g, HasEmpty(g, pages)));
    }
  }

  lemma OrderedVerdict(g: Geometry, lu: seq<nat>, pages: seq<Page>, files: Files)
    requires InOrder(g, lu, pages, files)
    ensures Comes(g, pages, VerdictOnOrder(g, HasEmpty(g, pages)))
  {
    hide PassClean, HasEmpty, Offset, Granule;
    var n := PagesPerScan(g);
    forall k: nat
      ensures PassClean(g, pages, RangeStart(g, k), n) <==> RangeStart(g, k) + n <= FREE || !HasEmpty(g, pages)
    {
      PassOnOrder(g, lu, pages, files, RangeStart(g, k), n);
    }
    TimesAtLeast(g.blocks, g.pagesPerBlock);
    if n == 0 {
      forall k: nat
        ensures RangeStart(g, k) == 0
      {
        ZeroStep(k);
      }
    } else if Times(Passes(g), n) <= FREE || HasEmpty(g, pages) {
      var last := Passes(g) - 1;
      forall k: nat | k <= last
        ensures RangeStart(g, k) == Times(k, n) < g.Pages() && (k < last ==> RangeStart(g, k) + n <= FREE)
      {
        EarlyRange(g, k);
      }
      RangesCover(g);
      if Times(Passes(g), n) <= FREE {
        OffsetExact(Passes(g), n);
        assert CleanFor(g, pages, Passes(g));
      } else {
        assert CleanFor(g, pages, last);
      }
    } else {
      OffsetReaches(g.Pages(), n);
      if k :| Offset(k, n) >= g.Pages() {
        var first := FirstPast(g, k);
        OffsetAtMost(k, n);
        assert CleanFor(g, pages, first) && VerdictOnOrder(g, HasEmpty(g, pages)) == AllClean;
      } else {
        forall k: nat
          ensures RangeStart(g, k) < g.Pages()
        {}
      }
    }
  }

  lemma {:induction false} ZeroStep(k: nat)
    ensures Offset(k, 0) == 0
  {
    if k > 0 {
      ZeroStep(k - 1);
    }
  }

  // ---------- a geometry whose ranges run over ----------

  /** 255 blocks of 64 KiB, in pages of 256 bytes. */
  const WIDE := Config(0, 255 * 0x1_0000, 0x1_0000, 256)

  /** The last of its ranges reaches page 0xffff, and the offset starts over at exactly 0 after it. */
  lemma RangeOverrun()
    ensures var g := WIDE.Derive();
            && WIDE.Wf() && g.Wf() && g.Pages() == 65280 && PagesPerScan(g) == 512
            && VerdictOnOrder(g, true) == Repairs && VerdictOnOrder(g, false) == Endless
  {
    DeriveWf(WIDE);
    TimesIs(255, 256);
    QuotIs(65279, 512);
    TimesIs(128, 512);
    assert Granule(512, WRAP) == 512 by {
      assert Granule(8, 0x400) == 8 * Granule(1, 0x80);
      assert Granule(64, 0x2000) == 8 * Granule(8, 0x400);
    }
  }

  /** The lookup table and the pages of a flash just formatted. */
  function FormattedLu(g: Geometry): seq<nat>
    requires g.Wf()
  {
    seq(g.Pages(), p requires 0 <= p => if g.IsLookupPage(p) then NO_ENTRY else FREE)
  }

  function FormattedPages(g: Geometry): seq<Page> { seq<Page>(g.Pages(), _ => Blank(g)) }

  lemma FormattedInOrder(g: Geometry)
    requires g.Wf()
    ensures InOrder(g, FormattedLu(g), FormattedPages(g), map[]) && !HasEmpty(g, FormattedPages(g))
    ensures VolumeOf(FormattedLu(g), FormattedPages(g)) == map[]
  {
    Formatted(g, FormattedLu(g), FormattedPages(g));
  }

  /** The same flash with one empty file in it. */
  function EmptyHeader(g: Geometry): Page {
    Blank(g).(id := 1 + IX_FLAG, span := 0, flags := Flags(false, false, false, true, true))
  }

  lemma OneFileInOrder(g: Geometry, q: nat, lu: seq<nat>, pages: seq<Page>)
    requires g.Wf() && q < g.Pages() && !g.IsLookupPage(q)
    requires lu == FormattedLu(g)[q := 1 + IX_FLAG] && pages == FormattedPages(g)[q := EmptyHeader(g)]
    ensures InOrder(g, lu, pages, map[1 := File(UNDEFINED_LEN, [q], [])]) && HasEmpty(g, pages)
  {
    FormattedInOrder(g);
    var c := Cell(1 + IX_FLAG, EmptyHeader(g));
    CreateFile(g, map[], map[], 1, q, c);
    assert VolumeOf(lu, pages) == map[q := c];
    assert Settled(g, map[q := c], File(UNDEFINED_LEN, [q], []));
    assert EmptyEntry(g, pages, q, 0);
  }

  /** On that geometry, the check of a formatted flash never ends. */
  lemma FormattedEndless()
    ensures var g := WIDE.Derive();
            g.Wf() && InOrder(g, FormattedLu(g), FormattedPages(g), map[]) && Comes(g, FormattedPages(g), Endless)
  {
    hide Comes, HasEmpty, VerdictOnOrder, FormattedLu, FormattedPages, InOrder;
    RangeOverrun();
    var g := WIDE.Derive();
    FormattedInOrder(g);
    PageCheckOnOrder(g, FormattedLu(g), FormattedPages(g), map[]);
  }

  /** On that geometry, the check repairs a flash in order with one empty file. */
  lemma EmptyFileRepaired()
    ensures var g := WIDE.Derive();
            g.Wf() && exists lu, pages, files {:trigger InOrder(g, lu, pages, files)} ::
                        InOrder(g, lu, pages, files) && |files| == 1 && Comes(g, pages, Repairs)
  {
    hide Comes, HasEmpty, VerdictOnOrder, FormattedLu, FormattedPages, InOrder, EmptyHeader;
    RangeOverrun();
    var g := WIDE.Derive();
    var q := g.Pix(0, 0);
    PixRoundTrip(g, 0, 0);
    Sizes(g);
    var lu, pages := FormattedLu(g)[q := 1 + IX_FLAG], FormattedPages(g)[q := EmptyHeader(g)];
    OneFileInOrder(g, q, lu, pages);
    PageCheckOnOrder(g, lu, pages, map[1 := File(UNDEFINED_LEN, [q], [])]);
  }

  lemma Sizes(g: Geometry)
    requires g.Wf()
    ensures |FormattedLu(g)| == |FormattedPages(g)| == g.Pages()
  {}

  /** All lookup entries of a file system in order agree with their pages. */
  lemma LookupOnOrder(g: Geometry, lu: seq<nat>, pages: seq<Page>, files: Files)
    requires InOrder(g, lu, pages, files)
    ensures AllAgree(g, lu, pages)
  {
    forall p: nat | p < |lu| && lu[p] != NO_ENTRY
      ensures Agrees(lu[p], pages[p])
    {
      if Live(lu[p]) {
        var v := VolumeOf(lu, pages);
        var o, k := Base(lu[p]), pages[p].span;
        assert HasFile(g, v, files, p);
        ConsistentFile(g, v, files, o);
        if IsIx(lu[p]) {
          IndexOf(g, v, o, files[o], k);
        } else {
          assert DataCell(g, v[p], o, k);
        }
      }
    }
  }

  /** The two checks, on a file system in order. */
  method CheckOnOrder(fs: Spiffs) returns (verdict: Verdict)
    requires fs.Sound()
    ensures fs.g.Wf() && verdict == VerdictOnOrder(fs.g, HasEmpty(fs.g, fs.pages))
  {
    hide AllAgree, Comes, HasEmpty;
    OrderOf(fs);
    LookupOnOrder(fs.g, fs.lu, fs.pages, fs.files);
    PageCheckOnOrder(fs.g, fs.lu, fs.pages, fs.files);
    var clean := LookupCheck(fs.g, fs.lu, fs.pages);
    if !clean {
      return Repairs;
    }
    verdict := PageCheckAll(fs.g, fs.pages);
    assert Comes(fs.g, fs.pages, verdict);
  }

  lemma OrderOf(fs: Spiffs)
    requires fs.Sound()
    ensures fs.g.Wf() && InOrder(fs.g, fs.lu, fs.pages, fs.files) && Shaped(fs.g, fs.pages)
  {}
}
