/** The lookup tables and pages on the flash, and what single writes and erases do to them. */
module Flash {
  import opened Nor
  import opened Layout
  import opened Lookup
  import opened Volumes

  predicate Live(id: nat) { id != FREE && id != DELETED && id != NO_ENTRY }

  /** A page as a block erase leaves it. */
  function Blank(g: Geometry): Page {
    Page(HALF_MAX, HALF_MAX, ERASED_FLAGS, WORD_MAX, seq<Half>(g.ixLen, _ => HALF_MAX),
         seq<Byte>(g.dataSize, _ => BYTE_MAX))
  }

  predicate PageShape(g: Geometry, p: Page) { |p.ix| == g.ixLen && |p.data| == g.dataSize }

  function VolumeOf(lu: seq<nat>, pages: seq<Page>): Volume {
    map p: nat | p < |lu| && p < |pages| && Live(lu[p]) :: Cell(lu[p], pages[p])
  }

  /** Free entries stand for erased pages, and deleted ones for pages marked as such. */
  ghost predicate FreeBlank(g: Geometry, lu: seq<nat>, pages: seq<Page>) {
    && |pages| == |lu|
    && (forall p :: 0 <= p < |lu| ==> PageShape(g, pages[p]) && (lu[p] == FREE ==> pages[p] == Blank(g)))
    && (forall p :: 0 <= p < |lu| && lu[p] == DELETED ==> !pages[p].flags.delet)
  }

  /** The free entries of a block come after all others. */
  ghost predicate FreeSuffix(g: Geometry, lu: seq<nat>)
    requires LuShape(g, lu)
  {
    forall b, e, e' | 0 <= b < g.blocks && 0 <= e <= e' < g.Entries() :: Entry(g, lu, b, e) == FREE ==>
            Entry(g, lu, b, e') == FREE
  }

  ghost predicate FirstFree(g: Geometry, lu: seq<nat>, b: nat, e: nat)
    requires LuShape(g, lu) && InRange(g, b, e)
  {
    Entry(g, lu, b, e) == FREE && forall e' | 0 <= e' < e :: Entry(g, lu, b, e') != FREE
  }

  /** The free cursor is at the start of a block, past its end, or on its first free entry. */
  ghost predicate CursorOk(g: Geometry, lu: seq<nat>, b: nat, e: nat)
    requires LuShape(g, lu)
  {
    b < g.blocks && (e == 0 || e >= g.Entries() || FirstFree(g, lu, b, e))
  }

  function DeletedPages(lu: seq<nat>): set<nat> { set p: nat | p < |lu| && lu[p] == DELETED }

  function FreeBlocks(g: Geometry, lu: seq<nat>): set<nat>
    requires LuShape(g, lu)
  {
    set b: nat | b < g.blocks && Entry(g, lu, b, 0) == FREE
  }

  // ---------- programming ----------

  function AndFlags(a: Flags, b: Flags): Flags {
    Flags(a.used && b.used, a.final && b.final, a.index && b.index, a.delet && b.delet, a.ixdele && b.ixdele)
  }

  function ProgramHeader(p: Page, id: Half, span: Half, flags: Flags): Page {
    p.(id := And(p.id, id), span := And(p.span, span), flags := AndFlags(p.flags, flags))
  }

  function ProgramData(p: Page, offs: nat, data: seq<Byte>): (r: Page)
    requires offs + |data| <= |p.data|
  {
    p.(data := p.data[..offs] + AndBytes(p.data[offs..offs + |data|], data) + p.data[offs + |data|..])
  }

  function ProgramPage(p: Page, q: Page): Page
    requires |p.ix| == |q.ix| && |p.data| == |q.data|
  {
    Page(And(p.id, q.id), And(p.span, q.span), AndFlags(p.flags, q.flags), And(p.size, q.size),
         AndHalves(p.ix, q.ix), AndBytes(p.data, q.data))
  }

  lemma ProgramHeaderBlank(g: Geometry, id: Half, span: Half, flags: Flags)
    ensures ProgramHeader(Blank(g), id, span, flags) == Blank(g).(id := id, span := span, flags := flags)
  {
    AndHalf(id);
    AndHalf(span);
  }

  /** Writing a whole page to an erased one stores it. */
  lemma ProgramBlank(g: Geometry, q: Page)
    requires PageShape(g, q)
    ensures ProgramPage(Blank(g), q) == q
  {
    AndHalf(q.id);
    AndHalf(q.span);
    AndWord(q.size);
    AndHalvesErased(Blank(g).ix, q.ix);
    AndBytesErased(Blank(g).data, q.data);
  }

  /** Rewriting a page in place stores the new contents if it only fills in erased cells. */
  lemma ProgramOver(p: Page, q: Page)
    requires |p.ix| == |q.ix| && p.id == q.id && p.span == q.span && p.flags == q.flags && p.data == q.data
    requires p.size == q.size || p.size == WORD_MAX
    requires forall e :: 0 <= e < |p.ix| ==> p.ix[e] == HALF_MAX || p.ix[e] == q.ix[e]
    ensures ProgramPage(p, q) == q
  {
    AndSelf(q.id);
    AndSelf(q.span);
    AndWord(q.size);
    AndSelf(q.size);
    AndHalvesErased(p.ix, q.ix);
    AndBytesErased(p.data, q.data);
  }

  /** Writing data over erased bytes stores it. */
  lemma ProgramDataErased(p: Page, offs: nat, data: seq<Byte>)
    requires offs + |data| <= |p.data|
    requires forall i :: offs <= i < offs + |data| ==> p.data[i] == BYTE_MAX
    ensures ProgramData(p, offs, data) == p.(data := p.data[..offs] + data + p.data[offs + |data|..])
  {
    AndBytesErased(p.data[offs..offs + |data|], data);
  }

  // ---------- one entry ----------

  lemma PixApart(g: Geometry, b: nat, e: nat, b': nat, e': nat)
    requires g.Wf() && InRange(g, b, e) && InRange(g, b', e')
    ensures g.Pix(b, e) == g.Pix(b', e') ==> (b, e) == (b', e')
  {
    PixRoundTrip(g, b, e);
    PixRoundTrip(g, b', e');
  }

  /** What the entries read after entry (b, e) has been given the id. */
  lemma EntryAfter(g: Geometry, lu: seq<nat>, b: nat, e: nat, id: nat)
    requires LuShape(g, lu) && InRange(g, b, e) && id <= FREE
    ensures LuShape(g, SetLu(g, lu, b, e, id))
    ensures forall b', e' | 0 <= b' < g.blocks && 0 <= e' < g.Entries() ::
              Entry(g, SetLu(g, lu, b, e, id), b', e') == if (b', e') == (b, e) then id else Entry(g, lu, b', e')
  {
    PixRoundTrip(g, b, e);
    forall b', e' | 0 <= b' < g.blocks && 0 <= e' < g.Entries()
      ensures Entry(g, SetLu(g, lu, b, e, id), b', e') == if (b', e') == (b, e) then id else Entry(g, lu, b', e')
    {
      PixApart(g, b, e, b', e');
      PixRoundTrip(g, b', e');
    }
  }

  /** Taking the first free entry of a block for a page: the tables. */
  lemma OccupyTables(g: Geometry, lu: seq<nat>, b: nat, e: nat, id: nat)
    requires LuShape(g, lu) && FreeSuffix(g, lu) && InRange(g, b, e) && FirstFree(g, lu, b, e) && Live(id) && id < FREE
    ensures var lu' := SetLu(g, lu, b, e, id);
            && LuShape(g, lu') && FreeSuffix(g, lu') && CursorOk(g, lu', b, e + 1)
            && FreeBlocks(g, lu') == FreeBlocks(g, lu) - (if e == 0 then {b} else {})
            && (e == 0 ==> b in FreeBlocks(g, lu))
  {
    EntryAfter(g, lu, b, e, id);
    if e + 1 < g.Entries() {
      assert Entry(g, lu, b, e + 1) == FREE;
    }
  }

  /** Taking a free page: the volume. */
  lemma OccupyVolume(g: Geometry, lu: seq<nat>, pages: seq<Page>, p: nat, id: nat, page: Page)
    requires FreeBlank(g, lu, pages) && p < |lu| && lu[p] == FREE && Live(id) && PageShape(g, page)
    ensures var lu', pages' := lu[p := id], pages[p := page];
            && FreeBlank(g, lu', pages')
            && p !in VolumeOf(lu, pages)
            && VolumeOf(lu', pages') == VolumeOf(lu, pages)[p := Cell(id, page)]
            && DeletedPages(lu') == DeletedPages(lu)
  {}

  /** Deleting a live page: the tables. */
  lemma ReleaseTables(g: Geometry, lu: seq<nat>, b: nat, e: nat, cb: nat, ce: nat)
    requires LuShape(g, lu) && FreeSuffix(g, lu) && CursorOk(g, lu, cb, ce) && InRange(g, b, e)
    requires Live(Entry(g, lu, b, e))
    ensures var lu' := SetLu(g, lu, b, e, DELETED);
            LuShape(g, lu') && FreeSuffix(g, lu') && CursorOk(g, lu', cb, ce) && FreeBlocks(g, lu') == FreeBlocks(g, lu)
  {
    EntryAfter(g, lu, b, e, DELETED);
  }

  /** Deleting a live page: the volume. */
  lemma ReleaseVolume(g: Geometry, lu: seq<nat>, pages: seq<Page>, p: nat, page: Page)
    requires FreeBlank(g, lu, pages) && p in VolumeOf(lu, pages) && PageShape(g, page) && !page.flags.delet
    ensures p < |lu|
    ensures var lu', pages' := lu[p := DELETED], pages[p := page];
            && FreeBlank(g, lu', pages')
            && VolumeOf(lu', pages') == VolumeOf(lu, pages) - {p}
            && DeletedPages(lu') == DeletedPages(lu) + {p} && p !in DeletedPages(lu)
  {}

  // ---------- a block ----------

  function ErasedLu(g: Geometry, lu: seq<nat>, b: nat): seq<nat>
    requires g.Wf()
  {
    seq<nat>(|lu|, p requires 0 <= p < |lu| => if lu[p] != NO_ENTRY && g.BlockOf(p) == b then FREE else lu[p])
  }

  function ErasedPages(g: Geometry, pages: seq<Page>, b: nat): seq<Page>
    requires g.Wf()
  {
    seq<Page>(|pages|, p requires 0 <= p < |pages| => if g.BlockOf(p) == b then Blank(g) else pages[p])
  }

  function InBlock(g: Geometry, v: Volume, b: nat): set<nat>
    requires g.Wf()
  {
    set p | p in v && g.BlockOf(p) == b
  }

  lemma EraseEffect(g: Geometry, lu: seq<nat>, pages: seq<Page>, b: nat)
    requires LuShape(g, lu) && FreeBlank(g, lu, pages) && FreeSuffix(g, lu) && b < g.blocks
    ensures var lu', pages' := ErasedLu(g, lu, b), ErasedPages(g, pages, b);
            && LuShape(g, lu') && FreeBlank(g, lu', pages') && FreeSuffix(g, lu')
            && (forall b', e | 0 <= b' < g.blocks && 0 <= e < g.Entries() ::
                Entry(g, lu', b', e) == if b' == b then FREE else Entry(g, lu, b', e))
            && VolumeOf(lu', pages') == VolumeOf(lu, pages) - InBlock(g, VolumeOf(lu, pages), b)
            && DeletedPages(lu') == DeletedPages(lu) - (set p | p in DeletedPages(lu) && g.BlockOf(p) == b)
            && FreeBlocks(g, lu') == FreeBlocks(g, lu) + {b}
  {
    var lu' := ErasedLu(g, lu, b);
    forall b', e | 0 <= b' < g.blocks && 0 <= e < g.Entries()
      ensures Entry(g, lu', b', e) == if b' == b then FREE else Entry(g, lu, b', e)
    {
      PixRoundTrip(g, b', e);
    }
  }
}
