/** Address and index arithmetic of the file system (spiffs_nucleus.h). */
module Layout {
  const FREE: nat := 0xffff          // lookup entry of a free page; also an empty index entry
  const DELETED: nat := 0            // lookup entry of a deleted page
  const IX_FLAG: nat := 0x8000       // marks the id of an index page
  const UNDEFINED_LEN: nat := 0xffff_ffff

  const ID_BYTES: nat := 2           // sizeof(spiffs_obj_id) and sizeof(spiffs_page_ix)
  const PAGE_HDR_BYTES: nat := 5     // sizeof(spiffs_page_header)
  const OBJ_IX_BYTES: nat := 8       // sizeof(spiffs_page_object_ix)
  const OBJ_HDR_BYTES: nat := 142    // sizeof(spiffs_page_object_ix_header)

  function Max(a: int, b: int): int { if a > b then a else b }

  // Products and quotients of symbolic sizes, as repeated addition and subtraction; TimesIs and
  // QuotIs show they are the operators * / and %.

  function Times(a: nat, b: nat): nat { if a == 0 then 0 else Times(a - 1, b) + b }

  function Quot(a: nat, b: nat): nat
    requires b > 0
  {
    if a < b then 0 else 1 + Quot(a - b, b)
  }

  function Rem(a: nat, b: nat): nat
    requires b > 0
  {
    if a < b then a else Rem(a - b, b)
  }

  /** What the address arithmetic of a mounted file system depends on. */
  datatype Geometry = Geometry(
    blocks: nat, pagesPerBlock: nat, lookupPages: nat, entriesPerPage: nat,
    dataSize: nat, hdrLen: nat, ixLen: nat)
  {
    predicate Wf() {
      && 1 <= blocks
      && 1 <= lookupPages < pagesPerBlock
      && 1 <= entriesPerPage
      && pagesPerBlock - lookupPages <= Times(lookupPages, entriesPerPage)
      && 9 <= dataSize < 0x1_0000
      && 1 <= hdrLen <= ixLen
      && Times(blocks, pagesPerBlock) <= FREE
    }

    /** SPIFFS_OBJ_LOOKUP_MAX_ENTRIES */
    function Entries(): nat
      requires Wf()
    { pagesPerBlock - lookupPages }

    function Pages(): nat { Times(blocks, pagesPerBlock) }

    /** SPIFFS_OBJ_LOOKUP_ENTRY_TO_PIX */
    function Pix(b: nat, e: nat): nat { Times(b, pagesPerBlock) + (lookupPages + e) }

    /** SPIFFS_BLOCK_FOR_PAGE */
    function BlockOf(p: nat): nat
      requires Wf()
    { Quot(p, pagesPerBlock) }

    /** SPIFFS_IS_LOOKUP_PAGE */
    predicate IsLookupPage(p: nat)
      requires Wf()
    { Rem(p, pagesPerBlock) < lookupPages }

    /** SPIFFS_OBJ_LOOKUP_ENTRY_FOR_PAGE */
    function EntryOf(p: nat): nat
      requires Wf() && !IsLookupPage(p)
    { Rem(p, pagesPerBlock) - lookupPages }

    /** SPIFFS_OBJ_IX_ENTRY_SPAN_IX: the index page that refers to data page s */
    function IxSpan(s: nat): nat
      requires Wf()
    { if s < hdrLen then 0 else 1 + Quot(s - hdrLen, ixLen) }

    /** SPIFFS_OBJ_IX_ENTRY: the entry of that index page */
    function IxEntry(s: nat): nat
      requires Wf()
    { if s < hdrLen then s else Rem(s - hdrLen, ixLen) }

    /** SPIFFS_DATA_SPAN_IX_FOR_OBJ_IX_SPAN_IX: the first data page of index page k */
    function FirstSpan(k: nat): nat
      requires Wf()
    { if k == 0 then 0 else hdrLen + Times(k - 1, ixLen) }

    /** SPIFFS_OBJ_HDR_IX_LEN or SPIFFS_OBJ_IX_LEN: entries in index page k */
    function Cap(k: nat): nat
      requires Wf()
    { if k == 0 then hdrLen else ixLen }
  }

  // ---------- products and quotients ----------

  lemma {:induction false} TimesIs(a: nat, b: nat)
    ensures Times(a, b) == a * b
  {
    if a > 0 {
      TimesIs(a - 1, b);
      assert a * b == (a - 1) * b + b;
    }
  }

  lemma {:induction false} QuotIs(a: nat, b: nat)
    requires b > 0
    ensures Quot(a, b) == a / b && Rem(a, b) == a % b
  {
    QuotRem(a, b);
    TimesIs(Quot(a, b), b);
    DivUnique(a, b, Quot(a, b), Rem(a, b));
  }

  lemma MulNonneg(a: nat, b: nat)
    ensures a * b >= 0
  {}

  lemma QuotientOrder(q: int, r: nat, q': int, r': nat, d: nat)
    requires r < d && q < q'
    ensures q * d + r < q' * d + r'
  {
    MulNonneg(q' - q - 1, d);
    assert (q' - q - 1) * d == q' * d - q * d - d;
  }

  lemma DivUnique(n: nat, d: nat, q: nat, r: nat)
    requires d > 0 && r < d && n == q * d + r
    ensures n / d == q && n % d == r
  {
    if n / d < q {
      QuotientOrder(n / d, n % d, q, r, d);
    } else if q < n / d {
      QuotientOrder(q, r, n / d, n % d, d);
    }
  }

  lemma {:induction false} QuotRem(n: nat, d: nat)
    requires d > 0
    ensures n == Times(Quot(n, d), d) + Rem(n, d) && Rem(n, d) < d
  {
    if n >= d {
      QuotRem(n - d, d);
    }
  }

  lemma {:induction false} QuotUnique(n: nat, d: nat, q: nat, r: nat)
    requires d > 0 && r < d && n == Times(q, d) + r
    ensures Quot(n, d) == q && Rem(n, d) == r
  {
    if q > 0 {
      QuotUnique(n - d, d, q - 1, r);
    }
  }

  lemma {:induction false} TimesMono(a: nat, b: nat, d: nat)
    requires a <= b
    ensures Times(a, d) <= Times(b, d)
    ensures a < b ==> Times(a, d) + d <= Times(b, d)
  {
    if a < b {
      TimesMono(a, b - 1, d);
    }
  }

  lemma {:induction false} TimesAtLeast(a: nat, b: nat)
    requires b > 0
    ensures Times(a, b) >= a
  {
    if a > 0 {
      TimesAtLeast(a - 1, b);
    }
  }

  // ---------- pages and lookup entries ----------

  /** The lookup entry (b, e) and the page it describes determine each other. */
  lemma PixRoundTrip(g: Geometry, b: nat, e: nat)
    requires g.Wf() && e < g.Entries()
    ensures !g.IsLookupPage(g.Pix(b, e))
    ensures g.BlockOf(g.Pix(b, e)) == b && g.EntryOf(g.Pix(b, e)) == e
    ensures b < g.blocks ==> g.Pix(b, e) < g.Pages()
  {
    QuotUnique(g.Pix(b, e), g.pagesPerBlock, b, g.lookupPages + e);
    if b < g.blocks {
      TimesMono(b, g.blocks, g.pagesPerBlock);
    }
  }

  lemma EntryRoundTrip(g: Geometry, p: nat)
    requires g.Wf() && p < g.Pages() && !g.IsLookupPage(p)
    ensures g.BlockOf(p) < g.blocks && g.EntryOf(p) < g.Entries()
    ensures g.Pix(g.BlockOf(p), g.EntryOf(p)) == p
  {
    QuotRem(p, g.pagesPerBlock);
    if g.BlockOf(p) >= g.blocks {
      TimesMono(g.blocks, g.BlockOf(p), g.pagesPerBlock);
    }
  }

  // ---------- data pages and index entries ----------

  /** A data page's index page and entry lead back to the data page. */
  lemma SpanRoundTrip(g: Geometry, s: nat)
    requires g.Wf()
    ensures g.IxEntry(s) < g.Cap(g.IxSpan(s))
    ensures g.FirstSpan(g.IxSpan(s)) + g.IxEntry(s) == s
  {
    if s >= g.hdrLen {
      QuotRem(s - g.hdrLen, g.ixLen);
    }
  }

  /** Every entry of every index page stands for exactly one data page. */
  lemma EntrySpanRoundTrip(g: Geometry, k: nat, e: nat)
    requires g.Wf() && e < g.Cap(k)
    ensures g.IxSpan(g.FirstSpan(k) + e) == k
    ensures g.IxEntry(g.FirstSpan(k) + e) == e
  {
    if k > 0 {
      QuotUnique(Times(k - 1, g.ixLen) + e, g.ixLen, k - 1, e);
    }
  }

  lemma FirstSpanStep(g: Geometry, k: nat)
    requires g.Wf()
    ensures g.FirstSpan(k + 1) == g.FirstSpan(k) + g.Cap(k)
  {}

  lemma FirstSpanMono(g: Geometry, j: nat, k: nat)
    requires g.Wf() && j <= k
    ensures g.FirstSpan(j) <= g.FirstSpan(k)
    ensures j < k ==> g.FirstSpan(j) + g.Cap(j) <= g.FirstSpan(k)
  {
    if j < k {
      FirstSpanStep(g, j);
      if j > 0 {
        TimesMono(j, k - 1, g.ixLen);
      } else {
        TimesMono(0, k - 1, g.ixLen);
      }
    }
  }

  /** Data page s belongs to one of the first k index pages exactly if it lies below the first
      data page of index page k. */
  lemma IxSpanBound(g: Geometry, s: nat, k: nat)
    requires g.Wf()
    ensures g.IxSpan(s) < k <==> s < g.FirstSpan(k)
  {
    SpanRoundTrip(g, s);
    if g.IxSpan(s) < k {
      FirstSpanMono(g, g.IxSpan(s), k);
    } else {
      FirstSpanMono(g, k, g.IxSpan(s));
    }
  }

  // ---------- the mount-time configuration ----------

  datatype Config = Config(physAddr: nat, physSize: nat, blockSize: nat, pageSize: nat)
  {
    predicate Wf() {
      && 152 <= pageSize < 0x1_0000 && pageSize % 2 == 0
      && pageSize < blockSize <= physSize
      && physSize / pageSize <= FREE
      && LookupPages() < PagesPerBlock()
      && PagesPerBlock() - LookupPages() <= LookupPages() * (pageSize / ID_BYTES)
    }
    function PagesPerBlock(): nat
      requires pageSize > 0
    { blockSize / pageSize }
    function LookupPages(): nat
      requires pageSize > 0
    { Max(1, PagesPerBlock() * ID_BYTES / pageSize) }
    function Derive(): Geometry
      requires Wf()
    {
      Geometry(physSize / blockSize, PagesPerBlock(), LookupPages(), pageSize / ID_BYTES,
               pageSize - PAGE_HDR_BYTES,
               (pageSize - OBJ_HDR_BYTES) / ID_BYTES, (pageSize - OBJ_IX_BYTES) / ID_BYTES)
    }
    function PageToPaddr(p: nat): nat { physAddr + p * pageSize }
    function PaddrToPage(a: nat): nat
      requires pageSize > 0 && a >= physAddr
    { (a - physAddr) / pageSize }
    function PaddrOffset(a: nat): nat
      requires pageSize > 0 && a >= physAddr
    { (a - physAddr) % pageSize }
    /** Address of lookup entry e of block b. */
    function EntryPaddr(b: nat, e: nat): nat { physAddr + b * blockSize + e * ID_BYTES }
    /** SPIFFS_ERASE_COUNT_PADDR and SPIFFS_MAGIC_PADDR */
    function EraseCountPaddr(b: nat): int
      requires pageSize > 0
    { physAddr + b * blockSize + LookupPages() * pageSize - ID_BYTES }
    function MagicPaddr(b: nat): int
      requires pageSize > 0
    { physAddr + b * blockSize + LookupPages() * pageSize - ID_BYTES * 2 }
    /** SPIFFS_CHECK_MAGIC_POSSIBLE */
    predicate MagicPossible()
      requires Wf()
    { ((PagesPerBlock() - LookupPages()) % (pageSize / ID_BYTES)) * ID_BYTES <= pageSize - ID_BYTES * 2 }
    /** No lookup entry of block b shares a byte with the erase count or the magic word. */
    ghost predicate EntriesClearOfMagic(b: nat)
      requires Wf()
    {
      forall e :: 0 <= e < PagesPerBlock() - LookupPages() ==>
        EntryPaddr(b, e) + ID_BYTES <= MagicPaddr(b) && EntryPaddr(b, e) + ID_BYTES <= EraseCountPaddr(b)
    }
  }

  lemma PagesFit(total: nat, d: nat, n: nat)
    requires d > 0 && n * d <= total
    ensures n <= total / d
  {
    if total / d < n {
      QuotientOrder(total / d, total % d, n, 0, d);
    }
  }

  /** Every configuration the mount accepts gives a well-formed geometry. */
  lemma DeriveWf(c: Config)
    requires c.Wf()
    ensures c.Derive().Wf()
  {
    TimesIs(c.physSize / c.blockSize, c.PagesPerBlock());
    TimesIs(c.LookupPages(), c.pageSize / ID_BYTES);
    BlocksFit(c);
  }

  /** The geometry of the flash of a station: 1 MiB in blocks of 8 KiB and pages of 256 bytes. */
  lemma StationGeometry(addr: nat)
    ensures var c := Config(addr, 0x10_0000, 0x2000, 0x100);
            c.Wf() && c.Derive() == Geometry(128, 32, 1, 128, 251, 57, 124)
  {}

  lemma BlocksFit(c: Config)
    requires c.Wf()
    ensures 1 <= c.physSize / c.blockSize && (c.physSize / c.blockSize) * c.PagesPerBlock() <= c.physSize / c.pageSize
  {
    var ppb, nb := c.PagesPerBlock(), c.physSize / c.blockSize;
    PagesFit(c.physSize, c.blockSize, 1);
    MulNonneg(nb, c.blockSize - ppb * c.pageSize);
    assert nb * (c.blockSize - ppb * c.pageSize) == nb * c.blockSize - nb * (ppb * c.pageSize);
    assert (nb * ppb) * c.pageSize == nb * (ppb * c.pageSize);
    PagesFit(c.physSize, c.pageSize, nb * ppb);
  }

  /** A byte address splits into its page and the offset in the page, and back. */
  lemma PaddrRoundTrip(c: Config, p: nat, o: nat)
    requires o < c.pageSize
    ensures c.PaddrToPage(c.PageToPaddr(p) + o) == p
    ensures c.PaddrOffset(c.PageToPaddr(p) + o) == o
  {
    DivUnique(p * c.pageSize + o, c.pageSize, p, o);
  }

  /** The entries stay clear of the two words exactly if two entries' worth of room is left behind them. */
  lemma ClearExactly(c: Config, b: nat)
    requires c.Wf()
    ensures c.EntriesClearOfMagic(b) <==>
              c.PagesPerBlock() - c.LookupPages() + 2 <= c.LookupPages() * (c.pageSize / ID_BYTES)
  {
    var epp, lp, n := c.pageSize / ID_BYTES, c.LookupPages(), c.PagesPerBlock() - c.LookupPages();
    assert lp * c.pageSize == 2 * (lp * epp);
    if c.EntriesClearOfMagic(b) {
      assert c.EntryPaddr(b, n - 1) + ID_BYTES <= c.MagicPaddr(b);
    }
  }

  /** The magic check can be relied on, in that no entry of block b overlaps the two words if it passes, exactly if the
      last lookup page is not full. */
  lemma MagicCheckExact(c: Config, b: nat)
    requires c.Wf()
    ensures (c.MagicPossible() ==> c.EntriesClearOfMagic(b)) <==>
              c.PagesPerBlock() - c.LookupPages() < c.LookupPages() * (c.pageSize / ID_BYTES)
  {
    var epp, lp, n := c.pageSize / ID_BYTES, c.LookupPages(), c.PagesPerBlock() - c.LookupPages();
    ClearExactly(c, b);
    if n == lp * epp {
      DivUnique(n, epp, lp, 0);
    } else if n == lp * epp - 1 {
      assert lp * epp == (lp - 1) * epp + epp;
      DivUnique(n, epp, lp - 1, epp - 1);
    }
  }

  /** The magic check rejects clear entries exactly if they end one short of the end of an earlier lookup page. */
  lemma MagicCheckRejects(c: Config, b: nat)
    requires c.Wf()
    ensures c.EntriesClearOfMagic(b) && !c.MagicPossible() <==>
              var epp, n := c.pageSize / ID_BYTES, c.PagesPerBlock() - c.LookupPages();
              n % epp == epp - 1 && n + 1 < c.LookupPages() * epp
  {
    ClearExactly(c, b);
  }

  /** With a full last lookup page the check passes although entries overlap both words. */
  lemma MagicCheckFullPage()
    ensures var c := Config(0, 129 * 256 * 4, 129 * 256, 256);
            c.Wf() && c.MagicPossible() && !c.EntriesClearOfMagic(0)
  {
    var c := Config(0, 129 * 256 * 4, 129 * 256, 256);
    MagicCheckExact(c, 0);
  }

  /** With an unused last lookup page it may fail although all entries are clear. */
  lemma MagicCheckUnusedPage()
    ensures var c := Config(0, 3 * 16512 * 256, 16512 * 256, 256);
            c.Wf() && !c.MagicPossible() && c.EntriesClearOfMagic(0)
  {
    var c := Config(0, 3 * 16512 * 256, 16512 * 256, 256);
    MagicCheckRejects(c, 0);
  }
}
