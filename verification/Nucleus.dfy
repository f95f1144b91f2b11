/** The file system object and its page-level operations (spiffs_nucleus.c, and the two
    functions of spiffs_gc.c that the allocation of pages relies on). */
module Nucleus {
  import opened Wrappers
  import opened Nor
  import opened Layout
  import opened Lookup
  import opened Volumes
  import opened Contents
  import opened Flash
  import opened Writes

  datatype Code =
    | Ok | ErrFull | ErrNotFound | ErrNoDeletedBlocks | ErrEndOfObject
    | ErrIsFree | ErrDeleted | ErrNotFinalized | ErrNotIndex | ErrIndexSpanMismatch
    | ErrIndexRefFree | ErrIndexRefLu | ErrIndexRefInvalid

  datatype Header = Header(id: Half, span: Half, flags: Flags)

  /** A file descriptor. */
  datatype Fd = Fd(fileNbr: nat, score: nat, objId: nat, size: nat, hdrPix: nat, cursorPix: nat, cursorSpix: nat)

  datatype Event = IxUpd | IxNew | IxDel | IxMov | IxUpdHdr

  datatype Kind = FreeKind | DeletedKind | LiveKind | NoKind

  function KindOf(id: nat): Kind {
    if id == FREE then FreeKind else if id == DELETED then DeletedKind else if id == NO_ENTRY then NoKind else LiveKind
  }

  /** The pages lo up to hi whose lookup entry is of the given kind. */
  function PagesIn(lu: seq<nat>, lo: nat, hi: nat, kind: Kind): set<nat> {
    set p: nat | lo <= p < hi && p < |lu| && KindOf(lu[p]) == kind
  }

  lemma CountStep(lu: seq<nat>, lo: nat, hi: nat, kind: Kind)
    requires lo <= hi < |lu|
    ensures |PagesIn(lu, lo, hi + 1, kind)| == |PagesIn(lu, lo, hi, kind)| + (if KindOf(lu[hi]) == kind then 1 else 0)
  {
    assert PagesIn(lu, lo, hi + 1, kind) == PagesIn(lu, lo, hi, kind) + (if KindOf(lu[hi]) == kind then {hi} else {});
  }

  lemma SubsetSize(a: set<nat>, b: set<nat>)
    requires a <= b
    ensures |a| <= |b|
  {
    assert b == a + (b - a);
  }

  /** Block b holds no live page and at most max free ones. */
  ghost predicate Reclaimable(g: Geometry, lu: seq<nat>, b: nat, max: nat)
    requires g.Wf()
  {
    PagesIn(lu, g.Pix(b, 0), g.Pix(b, g.Entries()), LiveKind) == {}
        && |PagesIn(lu, g.Pix(b, 0), g.Pix(b, g.Entries()), FreeKind)| <= max
  }

  /** Block b is the lowest-numbered one. */
  ghost predicate FirstReclaimable(g: Geometry, lu: seq<nat>, b: nat, max: nat)
    requires g.Wf()
  {
    b < g.blocks && Reclaimable(g, lu, b, max) && forall b' :: 0 <= b' < b ==> !Reclaimable(g, lu, b', max)
  }

  lemma BlockPages(g: Geometry, lu: seq<nat>, pages: seq<Page>, b: nat)
    requires LuShape(g, lu) && |pages| == |lu| && b < g.blocks
    ensures PagesIn(lu, g.Pix(b, 0), g.Pix(b, g.Entries()), DeletedKind) == set p | p in DeletedPages(lu)
            && g.BlockOf(p) == b
    ensures PagesIn(lu, g.Pix(b, 0), g.Pix(b, g.Entries()), LiveKind) == InBlock(g, VolumeOf(lu, pages), b)
  {
    forall p: nat | p < |lu| && lu[p] != NO_ENTRY
      ensures g.Pix(b, 0) <= p < g.Pix(b, g.Entries()) <==> g.BlockOf(p) == b
    {
      assert !g.IsLookupPage(p);
      EntryRoundTrip(g, p);
      if g.BlockOf(p) < b {
        TimesMono(g.BlockOf(p), b, g.pagesPerBlock);
      } else if g.BlockOf(p) > b {
        TimesMono(b, g.BlockOf(p), g.pagesPerBlock);
      }
    }
  }

  class Spiffs {
    const g: Geometry
    // what the flash holds
    var lu: seq<nat>
    var pages: seq<Page>
    var eraseCounts: seq<Half>
    // state of the file system
    var freeBlocks: int
    var statsAllocated: int
    var statsDeleted: int
    var maxEraseCount: Half
    var freeCursorBlock: nat
    var freeCursorEntry: nat
    var cursorBlock: nat
    var cursorEntry: nat
    var cleaning: bool
    var work: Page
    var fds: seq<Fd>
    /** The files the flash holds, and how often a block was erased that was free already. */
    ghost var files: Files
    ghost var drift: nat

    /** SPIFFS_format, then a mount: every block erased, no files, no open descriptors. */
    constructor Format(geometry: Geometry, fdCount: nat)
      requires geometry.Wf()
      ensures g == geometry && Sound() && !cleaning && files == map[] && drift == 0
      ensures |fds| == fdCount && forall i :: 0 <= i < fdCount ==> fds[i].fileNbr == 0
      ensures freeBlocks == g.blocks && statsAllocated == statsDeleted == freeCursorEntry == 0
    {
      g := geometry;
      lu := seq<nat>(geometry.Pages(), p requires 0 <= p => if geometry.IsLookupPage(p) then NO_ENTRY else FREE);
      pages := seq<Page>(geometry.Pages(), _ => Blank(geometry));
      eraseCounts := seq<Half>(geometry.blocks, _ => 0);
      freeBlocks, statsAllocated, statsDeleted, maxEraseCount := geometry.blocks, 0, 0, 1;
      freeCursorBlock, freeCursorEntry, cursorBlock, cursorEntry := 0, 0, 0, 0;
      cleaning := false;
      work := Blank(geometry);
      fds := seq<Fd>(fdCount, _ => Fd(0, 0, 0, 0, 0, 0, 0));
      files, drift := map[], 0;
      new;
      Formatted(g, lu, pages);
    }

    ghost function Disk(): Volume
      reads this`lu, this`pages
    {
      VolumeOf(lu, pages)
    }

    function FlashNow(): FlashState
      reads this`lu, this`pages
    {
      FlashState(lu, pages)
    }

    ghost predicate TablesOk()
      reads this`lu, this`pages, this`eraseCounts, this`cursorBlock, this`work
    {
      && g.Wf() && LuShape(g, lu) && FreeBlank(g, lu, pages) && FreeSuffix(g, lu)
      && |eraseCounts| == g.blocks && cursorBlock < g.blocks && PageShape(g, work)
    }

    /** The two page counters are what a rescan of the lookup tables would count. */
    ghost predicate PagesCounted()
      reads this`lu, this`pages, this`statsAllocated, this`statsDeleted
    {
      statsAllocated == |Disk()| && statsDeleted == |DeletedPages(lu)|
    }

    ghost predicate FlashOk()
      reads this`lu, this`pages, this`eraseCounts, this`cursorBlock, this`work, this`statsAllocated, this`statsDeleted
      reads this`freeBlocks, this`drift, this`freeCursorBlock, this`freeCursorEntry
    {
      && TablesOk() && PagesCounted()
      && CursorOk(g, lu, freeCursorBlock, freeCursorEntry)
      && freeBlocks == |FreeBlocks(g, lu)| + drift
    }

    /** The whole file system is in order: the flash, the files on it, and the open descriptors. */
    ghost predicate Sound()
      reads this
    {
      FlashOk() && Consistent(g, Disk(), files) && FdsOk(fds, files)
    }

    // ---------- blocks ----------

    /** spiffs_erase_block: erases the block and counts it as free, whether or not it was. */
    method EraseBlock(b: nat)
      requires TablesOk() && b < g.blocks
      modifies this`lu, this`pages, this`eraseCounts, this`freeBlocks, this`maxEraseCount, this`drift
      ensures lu == ErasedLu(g, old(lu), b) && pages == ErasedPages(g, old(pages), b)
      ensures TablesOk()
      ensures Disk() == old(Disk()) - InBlock(g, old(Disk()), b)
      ensures FreeBlocks(g, lu) == FreeBlocks(g, old(lu)) + {b}
      ensures eraseCounts == old(eraseCounts)[b := old(maxEraseCount)]
      ensures maxEraseCount ==
              if old(maxEraseCount) == 0x7fff || old(maxEraseCount) == 0xffff then 0 else old(maxEraseCount) + 1
      ensures freeBlocks == old(freeBlocks) + 1
      ensures drift == old(drift) + (if b in FreeBlocks(g, old(lu)) then 1 else 0)
      ensures freeBlocks - |FreeBlocks(g, lu)| - drift == old(freeBlocks - |FreeBlocks(g, lu)| - drift)
    {
      EraseEffect(g, lu, pages, b);
      ghost var wasFree := b in FreeBlocks(g, lu);
      lu, pages := ErasedLu(g, lu, b), ErasedPages(g, pages, b);
      freeBlocks := freeBlocks + 1;
      eraseCounts := eraseCounts[b := maxEraseCount];
      maxEraseCount := if maxEraseCount == HALF_MAX then 0 else maxEraseCount + 1;
      if maxEraseCount == IX_FLAG {
        maxEraseCount := 0;
      }
      if wasFree {
        drift := drift + 1;
      }
    }

    /** The scan of one block by spiffs_gc_quick, given up at a live page or too many free ones. */
    method ScanReclaimable(b: nat, maxFree: nat) returns (deleted: nat, free: nat)
      requires TablesOk() && b < g.blocks
      ensures deleted + free == g.Entries() && free <= maxFree <==> Reclaimable(g, lu, b, maxFree)
      ensures Reclaimable(g, lu, b, maxFree) ==>
              deleted == |PagesIn(lu, g.Pix(b, 0), g.Pix(b, g.Entries()), DeletedKind)|
    {
      deleted, free := 0, 0;
      var curEntry := 0;
      ghost var lo, hi := g.Pix(b, 0), g.Pix(b, g.Entries());
      while curEntry < g.Entries()
        invariant 0 <= curEntry <= g.Entries() && deleted + free == curEntry && free <= maxFree
        invariant deleted == |PagesIn(lu, lo, g.Pix(b, curEntry), DeletedKind)|
        invariant free == |PagesIn(lu, lo, g.Pix(b, curEntry), FreeKind)|
        invariant |PagesIn(lu, lo, g.Pix(b, curEntry), LiveKind)| == 0
      {
        var objId := Entry(g, lu, b, curEntry);
        PixRoundTrip(g, b, curEntry);
        CountStep(lu, lo, g.Pix(b, curEntry), DeletedKind);
        CountStep(lu, lo, g.Pix(b, curEntry), FreeKind);
        CountStep(lu, lo, g.Pix(b, curEntry), LiveKind);
        if objId == DELETED {
          deleted := deleted + 1;
        } else if objId == FREE {
          free := free + 1;
          if free > maxFree {
            SubsetSize(PagesIn(lu, lo, g.Pix(b, curEntry) + 1, FreeKind), PagesIn(lu, lo, hi, FreeKind));
            return;
          }
        } else {
          assert g.Pix(b, curEntry) in PagesIn(lu, lo, hi, LiveKind);
          return;
        }
        curEntry := curEntry + 1;
      }
    }

    /** The loop of spiffs_gc_quick over all blocks, up to the block it erases. */
    method FindReclaimable(maxFree: nat) returns (curBlock: nat, deleted: nat)
      requires TablesOk()
      ensures curBlock <= g.blocks
      ensures forall b :: 0 <= b < curBlock ==> !Reclaimable(g, lu, b, maxFree)
      ensures curBlock < g.blocks ==> Reclaimable(g, lu, curBlock, maxFree)
      ensures curBlock < g.blocks ==>
              deleted == |PagesIn(lu, g.Pix(curBlock, 0), g.Pix(curBlock, g.Entries()), DeletedKind)|
    {
      curBlock, deleted := 0, 0;
      while curBlock < g.blocks
        invariant 0 <= curBlock <= g.blocks
        invariant forall b :: 0 <= b < curBlock ==> !Reclaimable(g, lu, b, maxFree)
      {
        var free;
        deleted, free := ScanReclaimable(curBlock, maxFree);
        if deleted + free == g.Entries() && free <= maxFree {
          return;
        }
        curBlock := curBlock + 1;
      }
    }

    /** spiffs_gc_quick: erases the first block without live pages and with few enough free ones. */
    method GcQuick(maxFreePages: nat) returns (res: Code)
      requires FlashOk()
      modifies this`lu, this`pages, this`eraseCounts, this`freeBlocks, this`maxEraseCount, this`drift, this`statsDeleted
      ensures Disk() == old(Disk())
      ensures TablesOk() && PagesCounted() && freeBlocks == |FreeBlocks(g, lu)| + drift
      ensures maxFreePages == 0 ==> FlashOk() && drift == old(drift)
      ensures res == Ok || res == ErrNoDeletedBlocks
      ensures res == Ok ==> exists b :: FirstReclaimable(g, old(lu), b, maxFreePages) && lu == ErasedLu(g, old(lu), b)
      ensures res == Ok ==> freeBlocks == old(freeBlocks) + 1
      ensures res == ErrNoDeletedBlocks ==> forall b :: 0 <= b < g.blocks ==> !Reclaimable(g, lu, b, maxFreePages)
      ensures res == ErrNoDeletedBlocks ==>
              lu == old(lu) && pages == old(pages) && freeBlocks == old(freeBlocks) && drift == old(drift)
    {
      hide ErasedLu, ErasedPages, DeletedPages, FreeBlocks, VolumeOf, LuShape, FreeSuffix, FreeBlank, CursorOk,
           Reclaimable;
      var b, deleted := FindReclaimable(maxFreePages);
      if b == g.blocks {
        return ErrNoDeletedBlocks;
      }
      ReclaimEffect(g, lu, pages, b, maxFreePages, freeCursorBlock, freeCursorEntry);
      statsDeleted := statsDeleted - deleted;
      assert FirstReclaimable(g, lu, b, maxFreePages);
      EraseBlock(b);
      assert Disk() == old(Disk());
      return Ok;
    }

    // ---------- free pages ----------

    /** spiffs_obj_lu_find_id */
    method FindId(startBlock: nat, startEntry: nat, id: nat) returns (r: Found)
      requires LuShape(g, lu) && startBlock < g.blocks
      ensures r.At? ==> InRange(g, r.block, r.entry) && Entry(g, lu, r.block, r.entry) == id
      ensures r.At? ==> forall b, e | 0 <= b < g.blocks && 0 <= e < g.Entries() ::
                CyclicBefore(StartBlock(g, startBlock, startEntry), StartEntry(g, startEntry), b, e,
                             r.block, r.entry) ==>
                  Entry(g, lu, b, e) != id
      ensures r.NotFound? ==> forall b, e | 0 <= b < g.blocks && 0 <= e < g.Entries() :: Entry(g, lu, b, e) != id
    {
      var visit := (_: nat, _: nat) => true;
      ghost var visited;
      r, visited := FindEntry(g, lu, startBlock, startEntry, false, true, id, visit);
      assert forall b, e | 0 <= b < g.blocks && 0 <= e < g.Entries() :: Stops(g, lu, true, id, visit, b, e) <==>
          Entry(g, lu, b, e) == id;
    }

    /** The first free entry of block b at e has been promised to a page but not written yet. */
    ghost predicate Reserved(b: nat, e: nat)
      reads this`lu, this`pages, this`eraseCounts, this`cursorBlock, this`work, this`statsAllocated, this`statsDeleted
      reads this`freeBlocks, this`drift, this`freeCursorBlock, this`freeCursorEntry
    {
      && TablesOk() && PagesCounted()
      && InRange(g, b, e) && FirstFree(g, lu, b, e)
      && freeCursorBlock == b && freeCursorEntry == e + 1
      && freeBlocks + (if e == 0 then 1 else 0) == |FreeBlocks(g, lu)| + drift
    }

    ghost function AheadNow(): int
      requires g.Wf()
      reads this`freeBlocks, this`drift, this`freeCursorEntry
    {
      Ahead(g, freeBlocks - Max(3, drift), freeCursorEntry)
    }

    /** A number of pages that can surely be taken one after the other without garbage being collected: as many as lie
        ahead of the free cursor before fewer than four blocks are counted as free, or none really is, and as many as
        are left in all. */
    ghost function Budget(): int
      requires g.Wf()
      reads this`freeBlocks, this`drift, this`freeCursorEntry, this`statsAllocated, this`statsDeleted
    {
      Min(AheadNow(), Capacity(g) - statsAllocated - statsDeleted)
    }

    /** After formatting, all pages but those of four blocks can be taken, and one of these. */
    lemma FreshBudget()
      requires g.Wf() && freeBlocks == g.blocks && drift == 0 && statsAllocated == statsDeleted == freeCursorEntry == 0
      ensures Budget() == (g.blocks - 4) * g.Entries() + 1
    {
      assert (g.blocks - 3) * g.Entries() == (g.blocks - 4) * g.Entries() + g.Entries();
      assert g.Entries() * (g.blocks - 2) == (g.blocks - 4) * g.Entries() + 2 * g.Entries();
    }

    /** Why no page can be taken outside of cleaning, if none can: fewer than two blocks are counted as free and none
        can be had by a quick collection, or enough are counted, but no page is free. */
    ghost function Stuck(): Option<Code>
      reads this`lu, this`freeBlocks
    {
      if !LuShape(g, lu) then None
      else if freeBlocks < 2 then if NoneReclaimable(g, lu) then Some(ErrFull) else None
      else if NoneFree(g, lu) then Some(ErrNotFound) else None
    }

    /** With a block counted as free before, one is afterwards; and if pages have run out, they still are, as the result
        says. */
    ghost predicate Ran(before: int, res: Code)
      reads this`lu, this`freeBlocks
    {
      before >= 1 ==> freeBlocks >= 1 && (res == ErrFull || res == ErrNotFound ==> Stuck() == Some(res))
    }

    /** If pages had run out before, they still are, and no page has been taken. */
    ghost predicate StillStuck(before: Option<Code>, res: Code)
      reads this`lu, this`freeBlocks
    {
      before.Some? ==> Stuck() == before && res != Ok
    }

    /** spiffs_obj_lu_find_free: the next free entry from the free cursor on. Outside of cleaning, two blocks are kept
        free, by a quick collection if need be, as far as the counter tells: blocks counted twice are missing. */
    method FindFree() returns (res: Code, b: nat, e: nat)
      requires FlashOk()
      modifies this`lu, this`pages, this`eraseCounts, this`freeBlocks, this`maxEraseCount, this`drift, this`statsDeleted
      modifies this`freeCursorBlock, this`freeCursorEntry
      ensures Disk() == old(Disk()) && drift == old(drift)
      ensures res == Ok ==> Reserved(b, e)
      ensures res != Ok ==> FlashOk() && (res == ErrFull || res == ErrNotFound)
      ensures res == ErrFull ==> !cleaning && |FreeBlocks(g, lu)| + drift < 2
      ensures LuShape(g, old(lu))
      ensures res == ErrFull <==> !cleaning && old(freeBlocks) + (if NoneReclaimable(g, old(lu)) then 0 else 1) < 2
      ensures res == ErrNotFound ==> NoneFree(g, lu)
      ensures res == Ok && !cleaning ==> |FreeBlocks(g, lu)| + drift >= 2
      ensures !cleaning ==> Ran(old(freeBlocks), res) && StillStuck(old(Stuck()), res)
      ensures !cleaning && old(g.Wf() && Budget() >= 1) ==>
                && res == Ok && statsDeleted == old(statsDeleted)
                && AheadNow() >= old(AheadNow()) - 1
      ensures cleaning ==> lu == old(lu) && pages == old(pages)
      ensures cleaning && res == Ok ==> NextFree(g, lu, old(freeCursorBlock), old(freeCursorEntry), b, e)
    {
      hide Capacity, Spiffs.AheadNow, FreeSuffix, FreeBlank, DeletedPages, FreeBlocks, VolumeOf, ErasedLu, CyclicBefore,
           Reclaimable, InBlock, NextFree, NoneFree;
      b, e := 0, 0;
      Roomy();
      HasShape();
      if !cleaning && freeBlocks < 2 {
        var _ := GcQuick(0);
        if freeBlocks < 2 {
          return ErrFull, b, e;
        }
      }
      SomeFree(g, lu);
      res, b, e := TakeNext();
    }

    /** The search for the next free entry, which is taken. */
    method TakeNext() returns (res: Code, b: nat, e: nat)
      requires FlashOk()
      modifies this`freeBlocks, this`freeCursorBlock, this`freeCursorEntry
      ensures res == Ok || res == ErrNotFound
      ensures res == Ok ==> Reserved(b, e) && AheadNow() >= old(AheadNow()) - 1 && freeBlocks >= old(freeBlocks) - 1
      ensures res == Ok ==> !NoneFree(g, lu)
      ensures res != Ok ==> freeBlocks == old(freeBlocks)
      ensures res == Ok ==> NextFree(g, lu, old(freeCursorBlock), old(freeCursorEntry), b, e)
      ensures res == ErrNotFound ==> FlashOk() && NoneFree(g, lu)
    {
      hide Spiffs.AheadNow, FreeSuffix, FreeBlank, DeletedPages, FreeBlocks, VolumeOf, CyclicBefore;
      var r := FindId(freeCursorBlock, freeCursorEntry, FREE);
      assert r.At? ==> NextFree(g, lu, freeCursorBlock, freeCursorEntry, r.block, r.entry);
      match r
      case NotFound =>
        return ErrNotFound, 0, 0;
      case At(block, entry) =>
        Reserve(block, entry);
        return Ok, block, entry;
    }

    lemma HasShape()
      requires FlashOk()
      ensures LuShape(g, lu)
    {}

    /** With pages left ahead, there are blocks enough, and one of them really is free. */
    lemma Roomy()
      requires FlashOk()
      ensures AheadNow() >= 1 ==> freeBlocks > 3 && FreeBlocks(g, lu) != {}
    {
      hide Ahead;
      AheadRoom(g, freeBlocks - Max(3, drift), freeCursorEntry, FreeBlocks(g, lu));
    }

    /** The free cursor moves past the next free entry, and the block is no longer counted as free. */
    method Reserve(b: nat, e: nat)
      requires FlashOk() && NextFree(g, lu, freeCursorBlock, freeCursorEntry, b, e)
      modifies this`freeCursorBlock, this`freeCursorEntry, this`freeBlocks
      ensures Reserved(b, e) && freeBlocks == old(freeBlocks) - (if e == 0 then 1 else 0)
      ensures AheadNow() >= old(AheadNow()) - 1
    {
      hide Ahead, FreeSuffix, FreeBlank, DeletedPages, FreeBlocks, VolumeOf, CyclicBefore;
      NextFreeIsFirst(g, lu, freeCursorBlock, freeCursorEntry, b, e);
      AheadTaken(g, lu, freeBlocks - Max(3, drift), freeCursorBlock, freeCursorEntry, b, e);
      FirstFreeBlock(g, lu, b, e);
      freeCursorBlock, freeCursorEntry := b, e + 1;
      if e == 0 {
        freeBlocks := freeBlocks - 1;
      }
    }

    // ---------- pages ----------

    /** Everything FlashOk says, once the reserved entry (b, e) has been written. */
    lemma Occupied(b: nat, e: nat, id: nat, page: Page)
      requires Reserved(b, e) && Live(id) && id < FREE && PageShape(g, page)
      ensures g.Pix(b, e) < |lu| && |lu| == |pages| == g.Pages() && lu[g.Pix(b, e)] == FREE
      ensures pages[g.Pix(b, e)] == Blank(g)
      ensures g.Pix(b, e) !in Disk()
      ensures var p := g.Pix(b, e);
              var lu', pages' := lu[p := id], pages[p := page];
              && LuShape(g, lu') && FreeBlank(g, lu', pages') && FreeSuffix(g, lu')
              && VolumeOf(lu', pages') == Disk()[p := Cell(id, page)]
              && |VolumeOf(lu', pages')| == |Disk()| + 1
              && |DeletedPages(lu')| == |DeletedPages(lu)|
              && CursorOk(g, lu', freeCursorBlock, freeCursorEntry)
              && freeBlocks == |FreeBlocks(g, lu')| + drift
    {
      PixRoundTrip(g, b, e);
      OccupyTables(g, lu, b, e, id);
      OccupyVolume(g, lu, pages, g.Pix(b, e), id, page);
    }

    /** Writes the id to the reserved lookup entry, and the contents to the page. */
    method Occupy(b: nat, e: nat, objId: Half, page: Page)
      requires Reserved(b, e) && Live(objId) && objId < FREE && PageShape(g, page)
      modifies this`lu, this`pages, this`statsAllocated
      ensures FlashOk() && g.Pix(b, e) !in old(Disk()) && g.Pix(b, e) < g.Pages()
      ensures Disk() == old(Disk())[g.Pix(b, e) := Cell(objId, page)]
      ensures g.Pix(b, e) < |old(lu)| && lu == old(lu)[g.Pix(b, e) := objId]
      ensures g.Pix(b, e) < |old(pages)| && pages == old(pages)[g.Pix(b, e) := page]
      ensures statsAllocated == old(statsAllocated) + 1
    {
      hide LuShape, FreeSuffix, FreeBlank, CursorOk, DeletedPages, FreeBlocks, VolumeOf, FirstFree;
      Occupied(b, e, objId, page);
      AndHalf(objId);
      lu := lu[g.Pix(b, e) := And(lu[g.Pix(b, e)], objId)];
      pages := pages[g.Pix(b, e) := page];
      statsAllocated := statsAllocated + 1;
    }

    /** What spiffs_page_allocate_data leaves in the page. */
    ghost function AllocatedPage(ph: Header, data: Option<seq<Byte>>, offs: nat, finalize: bool): Page
      requires data.Some? ==> offs + |data.value| <= g.dataSize
    {
      var flags := ph.flags.(used := false, final := ph.flags.final && !finalize);
      var blank := Blank(g).(id := ph.id, span := ph.span, flags := flags);
      if data.None? then blank
      else blank.(data := blank.data[..offs] + data.value + blank.data[offs + |data.value|..])
    }

    /** spiffs_page_allocate_data: takes a free page, and writes its header and data. */
    method AllocateData(objId: Half, ph: Header, data: Option<seq<Byte>>, pageOffs: nat, finalize: bool)
      returns (res: Code, pix: nat, ph': Header)
      requires FlashOk() && Live(objId) && objId < FREE
      requires data.Some? ==> pageOffs + |data.value| <= g.dataSize
      modifies this`lu, this`pages, this`eraseCounts, this`freeBlocks, this`maxEraseCount, this`drift
      modifies this`statsDeleted, this`statsAllocated
      modifies this`freeCursorBlock, this`freeCursorEntry
      ensures FlashOk() && drift == old(drift)
      ensures res != Ok ==> Disk() == old(Disk()) && (res == ErrFull || res == ErrNotFound)
      ensures res == Ok ==> pix !in old(Disk()) && pix < g.Pages()
      ensures res == Ok ==> Disk() == old(Disk())[pix := Cell(objId, AllocatedPage(ph, data, pageOffs, finalize))]
      ensures res == Ok ==> ph' == ph.(flags := AllocatedPage(ph, data, pageOffs, finalize).flags)
      ensures !cleaning && old(g.Wf() && Budget() >= 1) ==> res == Ok && Budget() >= old(Budget()) - 1
      ensures !cleaning ==> Ran(old(freeBlocks), res)
    {
      hide Spiffs.AheadNow, Capacity, LuShape, FreeSuffix, FreeBlank, CursorOk, DeletedPages, FreeBlocks, VolumeOf,
           FirstFree, Spiffs.Stuck;
      pix, ph' := 0, ph;
      var b, e;
      res, b, e := FindFree();
      if res != Ok {
        return;
      }
      Occupied(b, e, objId, AllocatedPage(ph, data, pageOffs, finalize));
      pix := g.Pix(b, e);
      var cell;
      cell, ph' := Compose(pages[pix], ph, data, pageOffs, finalize);
      Occupy(b, e, objId, cell);
    }

    /** What is written to an erased page: the header, the data, and at last that the page is final. */
    method Compose(blank: Page, ph: Header, data: Option<seq<Byte>>, pageOffs: nat, finalize: bool)
      returns (cell: Page, ph': Header)
      requires blank == Blank(g) && (data.Some? ==> pageOffs + |data.value| <= g.dataSize)
      ensures cell == AllocatedPage(ph, data, pageOffs, finalize) && ph' == ph.(flags := cell.flags)
    {
      ph' := ph.(flags := ph.flags.(used := false));
      ProgramHeaderBlank(g, ph'.id, ph'.span, ph'.flags);
      cell := ProgramHeader(blank, ph'.id, ph'.span, ph'.flags);
      if data.Some? {
        ProgramDataErased(cell, pageOffs, data.value);
        cell := ProgramData(cell, pageOffs, data.value);
      }
      if finalize && ph'.flags.final {
        ph' := ph'.(flags := ph'.flags.(final := false));
        cell := cell.(flags := AndFlags(cell.flags, ph'.flags));
      }
    }

    /** One write to the flash, which is logged: the flash is what the writes logged so far have made of s. */
    method Put(w: FlashWrite, ghost s: FlashState, ghost log: seq<FlashWrite>) returns (ghost log': seq<FlashWrite>)
      requires FlashNow() == After(s, log)
      modifies this`lu, this`pages
      ensures FlashNow() == Apply(old(FlashNow()), w) && log' == log + [w] && FlashNow() == After(s, log')
    {
      hide Apply;
      var t := Apply(FlashNow(), w);
      lu, pages := t.lu, t.pages;
      log' := log + [w];
      assert log'[..|log|] == log;
    }

    /** spiffs_page_delete: marks the page deleted in its lookup entry and in its header. */
    method PageDelete(pix: nat) returns (ghost log: seq<FlashWrite>)
      requires FlashOk() && pix in Disk()
      modifies this`lu, this`pages, this`statsDeleted, this`statsAllocated
      ensures FlashOk() && Disk() == old(Disk()) - {pix}
      ensures pix < |old(lu)| && lu == old(lu)[pix := DELETED]
      ensures Budget() == old(Budget())
      ensures log == DeleteWrites(pix) && FlashNow() == After(old(FlashNow()), log)
    {
      hide Spiffs.AheadNow, Capacity, LuShape, FreeSuffix, FreeBlank, CursorOk, DeletedPages, FreeBlocks, VolumeOf, And,
           After, Apply;
      ghost var s := FlashNow();
      SourcePage(pix);
      DeleteLeaves(s, pix);
      Released(pix, Marked(pages[pix]));
      AfterNone(s);
      log := Put(WriteEntry(pix, DELETED), s, []);
      statsDeleted := statsDeleted + 1;
      statsAllocated := statsAllocated - 1;
      log := Put(FlashWrite.WriteFlags(pix, Flags(false, true, true, false, true)), s, log);
      assert log == DeleteWrites(pix);
    }

    lemma Released(p: nat, page: Page)
      requires FlashOk() && p in Disk() && page.ix == pages[p].ix && page.data == pages[p].data && !page.flags.delet
      ensures p < |lu|
      ensures var lu', pages' := lu[p := DELETED], pages[p := page];
              && LuShape(g, lu') && FreeBlank(g, lu', pages') && FreeSuffix(g, lu')
              && VolumeOf(lu', pages') == Disk() - {p}
              && |VolumeOf(lu', pages')| == |Disk()| - 1
              && |DeletedPages(lu')| == |DeletedPages(lu)| + 1
              && CursorOk(g, lu', freeCursorBlock, freeCursorEntry)
              && |FreeBlocks(g, lu')| == |FreeBlocks(g, lu)|
    {
      assert !g.IsLookupPage(p);
      EntryRoundTrip(g, p);
      ReleaseTables(g, lu, g.BlockOf(p), g.EntryOf(p), freeCursorBlock, freeCursorEntry);
      ReleaseVolume(g, lu, pages, p, page);
    }

    /** The first part of spiffs_page_move, once a free page has been found: stores the given page contents in it, or
        else a copy of the source page. */
    method StoreAt(b: nat, e: nat, pageData: Option<Page>, objId: Half, src: nat)
      returns (buf: Option<Page>, ghost log: seq<FlashWrite>)
      requires Reserved(b, e) && src in Disk() && Live(objId) && objId < FREE
      requires pageData.Some? ==> PageShape(g, pageData.value)
      modifies this`lu, this`pages, this`statsAllocated
      ensures FlashOk() && g.Pix(b, e) !in old(Disk()) && g.Pix(b, e) < g.Pages() && src < |old(pages)|
      ensures var stored := Moved(pageData, old(pages)[src]);
              && buf == (if pageData.None? then None else Some(stored))
              && Disk() == old(Disk())[g.Pix(b, e) := Cell(objId, stored)]
      ensures g.Pix(b, e) < |old(lu)| && lu == old(lu)[g.Pix(b, e) := objId]
      ensures statsAllocated == old(statsAllocated) + 1
      ensures FreeAt(g, old(FlashNow()), g.Pix(b, e))
      ensures log == StoreWrites(pageData, objId, old(pages)[src], g.Pix(b, e))
      ensures FlashNow() == After(old(FlashNow()), log)
    {
      hide LuShape, FreeSuffix, FreeBlank, CursorOk, DeletedPages, FreeBlocks, FirstFree, VolumeOf, After, Apply;
      buf := pageData;
      var dst := g.Pix(b, e);
      SourcePage(src);
      ghost var s, source := FlashNow(), pages[src];
      Occupied(b, e, objId, Moved(pageData, source));
      StoreLeaves(g, s, pageData, objId, source, dst);
      AfterNone(s);
      var wasFinal := false;
      if pageData.Some? {
        var data := pageData.value;
        wasFinal := !data.flags.final;
        // the page is not final yet while it is written
        data := data.(flags := data.flags.(final := true, used := false));
        log := Put(WritePage(dst, data), s, []);
        buf := Some(data);
      } else {
        log := Put(WritePage(dst, pages[src]), s, []);
      }
      log := Put(WriteEntry(dst, objId), s, log);
      statsAllocated := statsAllocated + 1;
      if wasFinal {
        var flags := buf.value.flags.(final := false, used := false);
        buf := Some(buf.value.(flags := flags));
        log := Put(FlashWrite.WriteFlags(dst, flags), s, log);
      }
      assert log == StoreWrites(pageData, objId, source, dst);
    }

    /** The first part of spiffs_page_move. */
    method StorePage(pageData: Option<Page>, objId: Half, src: nat)
      returns (res: Code, dst: nat, buf: Option<Page>, ghost log: seq<FlashWrite>)
      requires FlashOk() && src in Disk() && Live(objId) && objId < FREE
      requires pageData.Some? ==> PageShape(g, pageData.value)
      modifies this`lu, this`pages, this`eraseCounts, this`freeBlocks, this`maxEraseCount, this`drift
      modifies this`statsDeleted, this`statsAllocated
      modifies this`freeCursorBlock, this`freeCursorEntry
      ensures FlashOk() && drift == old(drift)
      ensures res != Ok ==> Disk() == old(Disk()) && (res == ErrNotFound || (res == ErrFull && !cleaning))
      ensures res == ErrNotFound ==> NoneFree(g, lu)
      ensures res == Ok ==> dst !in old(Disk()) && dst < g.Pages()
      ensures res == Ok ==> buf == if pageData.None? then None
              else Some(pageData.value.(flags := pageData.value.flags.(used := false)))
      ensures res == Ok ==>
                Disk() == old(Disk())[dst := Cell(objId, if buf.Some? then buf.value else old(Disk())[src].page)]
      ensures !cleaning && old(g.Wf() && Budget() >= 1) ==> res == Ok && Budget() >= old(Budget()) - 1
      ensures !cleaning ==> Ran(old(freeBlocks), res) && StillStuck(old(Stuck()), res)
      ensures cleaning ==> lu == if res == Ok && dst < |old(lu)| then old(lu)[dst := objId] else old(lu)
      ensures cleaning && res == Ok ==>
              Placed(g, old(lu), old(freeCursorBlock), old(freeCursorEntry), freeCursorBlock, freeCursorEntry, dst)
      ensures res == Ok ==>
                var source := old(Disk())[src].page;
                && log == StoreWrites(pageData, objId, source, dst)
                && ByWrites(g, old(Disk()), src, source, dst, log, FlashNow())
    {
      hide Spiffs.AheadNow, Capacity, LuShape, FreeSuffix, FreeBlank, CursorOk, DeletedPages, FreeBlocks, FirstFree,
           VolumeOf, After, StoreWrites, ByWrites, FreeAt, Spiffs.Stuck;
      dst, buf, log := 0, pageData, [];
      var b, e;
      res, b, e := FindFree();
      if res != Ok {
        return;
      }
      dst := g.Pix(b, e);
      SourcePage(src);
      ghost var s := FlashNow();
      buf, log := StoreAt(b, e, pageData, objId, src);
      ByWritesNow(g, s, src, dst, log);
    }

    /** spiffs_page_move: stores the page in a free page, then deletes the source page. */
    method PageMove(pageData: Option<Page>, objId: Half, src: nat)
      returns (res: Code, dst: nat, buf: Option<Page>, ghost log: seq<FlashWrite>)
      requires FlashOk() && src in Disk() && Live(objId) && objId < FREE
      requires pageData.Some? ==> PageShape(g, pageData.value)
      modifies this`lu, this`pages, this`eraseCounts, this`freeBlocks, this`maxEraseCount, this`drift
      modifies this`statsDeleted, this`statsAllocated
      modifies this`freeCursorBlock, this`freeCursorEntry
      ensures FlashOk() && drift == old(drift)
      ensures res != Ok ==> Disk() == old(Disk()) && (res == ErrNotFound || (res == ErrFull && !cleaning))
      ensures res == ErrNotFound ==> NoneFree(g, lu)
      ensures res == Ok ==> dst !in old(Disk()) && dst < g.Pages()
      ensures res == Ok ==> buf == if pageData.None? then None
              else Some(pageData.value.(flags := pageData.value.flags.(used := false)))
      ensures res == Ok ==>
                Disk() ==
                (old(Disk()) - {src})[dst := Cell(objId, if buf.Some? then buf.value else old(Disk())[src].page)]
      ensures !cleaning && old(g.Wf() && Budget() >= 1) ==> res == Ok && Budget() >= old(Budget()) - 1
      ensures !cleaning ==> Ran(old(freeBlocks), res) && StillStuck(old(Stuck()), res)
      ensures cleaning && res != Ok ==> lu == old(lu)
      ensures cleaning && res == Ok ==>
              src < |old(lu)| && dst < |old(lu)| && lu == old(lu)[dst := objId][src := DELETED]
      ensures cleaning && res == Ok ==>
              Placed(g, old(lu), old(freeCursorBlock), old(freeCursorEntry), freeCursorBlock, freeCursorEntry, dst)
      ensures res == Ok ==>
                var source := old(Disk())[src].page;
                && log == MoveWrites(pageData, objId, source, src, dst)
                && ByWrites(g, old(Disk()), src, source, dst, log, FlashNow())
    {
      hide Spiffs.Budget, LuShape, FreeSuffix, FreeBlank, CursorOk, DeletedPages, FreeBlocks, FirstFree, VolumeOf,
           Placed, NoneFree, After, StoreWrites, DeleteWrites, ByWrites, Spiffs.Stuck;
      SourcePage(src);
      res, dst, buf, log := StorePage(pageData, objId, src);
      if res == Ok {
        SourcePage(dst);
        ByMoreWrites(g, old(Disk()), src, old(Disk())[src].page, dst, log, FlashNow(), DeleteWrites(src));
        ghost var deleting := PageDelete(src);
        log := log + deleting;
      }
    }

    /** Puts a page into the work buffer. */
    method SetWork(page: Page)
      requires FlashOk() && PageShape(g, page)
      modifies this`work
      ensures FlashOk() && work == page
    {
      hide LuShape, FreeBlank, FreeSuffix, CursorOk, DeletedPages, FreeBlocks, VolumeOf;
      work := page;
    }

    /** Updates one entry of the index page in the work buffer. */
    method SetWorkEntry(e: nat, p: Half)
      requires FlashOk() && e < |work.ix|
      modifies this`work
      ensures FlashOk() && work == old(work).(ix := old(work).ix[e := p])
    {
      hide LuShape, FreeBlank, FreeSuffix, CursorOk, DeletedPages, FreeBlocks, VolumeOf;
      work := work.(ix := work.ix[e := p]);
    }

    /** Updates the size in the index header in the work buffer. */
    method SetWorkSize(size: Word)
      requires FlashOk()
      modifies this`work
      ensures FlashOk() && work == old(work).(size := size)
    {
      hide LuShape, FreeBlank, FreeSuffix, CursorOk, DeletedPages, FreeBlocks, VolumeOf;
      work := work.(size := size);
    }

    /** Writes data into a live page, where it is still erased. */
    method WriteData(pix: nat, offs: nat, data: seq<Byte>)
      requires FlashOk() && pix in Disk() && offs + |data| <= g.dataSize
      requires forall i :: offs <= i < offs + |data| ==>
              |Disk()[pix].page.data| == g.dataSize && Disk()[pix].page.data[i] == BYTE_MAX
      modifies this`pages
      ensures FlashOk()
      ensures |old(Disk())[pix].page.data| == g.dataSize
      ensures Disk() ==
              old(Disk())[pix := old(Disk())[pix].(
                page := old(Disk())[pix].page.(data := Patch(old(Disk())[pix].page.data, offs, data)))]
    {
      SourcePage(pix);
      ProgramDataErased(pages[pix], offs, data);
      Rewritten(pix, ProgramData(pages[pix], offs, data));
      pages := pages[pix := ProgramData(pages[pix], offs, data)];
    }

    /** Clears flags in the header of a live page. */
    method WriteFlags(pix: nat, flags: Flags)
      requires FlashOk() && pix in Disk()
      modifies this`pages
      ensures FlashOk()
      ensures Disk() ==
              old(Disk())[pix := old(Disk())[pix].(
                page := old(Disk())[pix].page.(flags := AndFlags(old(Disk())[pix].page.flags, flags)))]
    {
      SourcePage(pix);
      Rewritten(pix, pages[pix].(flags := AndFlags(pages[pix].flags, flags)));
      pages := pages[pix := pages[pix].(flags := AndFlags(pages[pix].flags, flags))];
    }

    /** Writes an index page over its older version, to which it only adds entries. */
    method WriteIndex(pix: nat, page: Page)
      requires FlashOk() && pix in Disk() && FillsIn(Disk()[pix].page, page)
      modifies this`pages
      ensures FlashOk()
      ensures Disk() == old(Disk())[pix := old(Disk())[pix].(page := page)]
    {
      SourcePage(pix);
      ProgramOver(pages[pix], page);
      Rewritten(pix, ProgramPage(pages[pix], page));
      pages := pages[pix := ProgramPage(pages[pix], page)];
    }

    /** Everything FlashOk says, once the contents of a live page have changed. */
    lemma Rewritten(pix: nat, page: Page)
      requires FlashOk() && pix in Disk() && PageShape(g, page)
      ensures pix < |pages| && FreeBlank(g, lu, pages[pix := page])
      ensures VolumeOf(lu, pages[pix := page]) == Disk()[pix := Cell(lu[pix], page)]
    {}

    lemma SourcePage(p: nat)
      requires TablesOk() && p in Disk()
      ensures p < |pages| == |lu| && Live(lu[p]) && PageShape(g, pages[p]) && Disk()[p] == Cell(lu[p], pages[p])
    {}

    // ---------- searching for a page ----------

    /** spiffs_obj_lu_find_id_and_span: the live, finalized page of an object at a span. The page
        to be excluded is 0 if there is none. */
    method FindIdAndSpan(objId: nat, spix: nat, exclude: nat) returns (res: Code, pix: nat)
      requires LuShape(g, lu) && |pages| == |lu| && cursorBlock < g.blocks && Live(objId)
      modifies this`cursorBlock, this`cursorEntry
      ensures cursorBlock < g.blocks
      ensures res == Ok || res == ErrNotFound
      ensures res == Ok ==>
                pix in Disk() && Disk()[pix].id == objId && Matches(Disk()[pix].page, objId, spix, exclude, pix)
      ensures res == ErrNotFound ==>
              forall p :: p in Disk() && Disk()[p].id == objId ==> !Matches(Disk()[p].page, objId, spix, exclude, p)
    {
      var pages' := pages;
      var visit := (id: nat, p: nat) => p < |pages'| && Matches(pages'[p], objId, spix, exclude, p);
      var r, _ := FindEntry(g, lu, cursorBlock, cursorEntry, false, true, objId, visit);
      match r
      case NotFound =>
        forall p | p in Disk() && Disk()[p].id == objId
          ensures !Matches(Disk()[p].page, objId, spix, exclude, p)
        {
          assert !g.IsLookupPage(p);
          EntryRoundTrip(g, p);
          assert !Stops(g, lu, true, objId, visit, g.BlockOf(p), g.EntryOf(p));
        }
        return ErrNotFound, 0;
      case At(block, entry) =>
        PixRoundTrip(g, block, entry);
        cursorBlock, cursorEntry := block, entry;
        return Ok, g.Pix(block, entry);
    }

    // ---------- descriptors and index headers ----------

    /** spiffs_cb_object_event, without the call of a user's callback. */
    method ObjectEvent(ev: Event, objIdRaw: nat, spix: nat, newPix: nat, newSize: nat)
      modifies this`fds
      ensures fds == FdsAfter(old(fds), ev, objIdRaw, spix, newPix, newSize)
    {
      var objId := Base(objIdRaw);
      var i := 0;
      while i < |fds|
        invariant 0 <= i <= |fds| == |old(fds)|
        invariant fds[..i] == FdsAfter(old(fds), ev, objIdRaw, spix, newPix, newSize)[..i]
        invariant fds[i..] == old(fds)[i..]
      {
        var fd := fds[i];
        assert fd == old(fds)[i];
        if fd.score != 0 && Base(fd.objId) == objId {
          if spix == 0 {
            if ev != IxDel {
              fd := fd.(hdrPix := newPix);
              if newSize != 0 {
                fd := fd.(size := newSize);
              }
            } else {
              fd := fd.(fileNbr := 0, objId := DELETED);
            }
          }
          if fd.cursorSpix == spix {
            fd := fd.(cursorPix := if ev != IxDel then newPix else 0);
          }
        }
        assert fd == FdAfter(old(fds)[i], ev, objIdRaw, spix, newPix, newSize);
        fds := fds[i := fd];
        i := i + 1;
      }
    }

    /** Has the index header in the work buffer, with the size if one is given, and looks at it. */
    method PrepareHeader(objId: Half, hdrPix: nat, given: bool, size: Word) returns (res: Code)
      requires FlashOk() && hdrPix in Disk()
      modifies this`work
      ensures FlashOk() && PageShape(g, work)
      ensures var base := if given then old(work) else Disk()[hdrPix].page;
              && res == ValidObjIx(base, objId, 0)
              && (res == Ok ==> work == base.(size := if size != 0 then size else base.size))
    {
      hide LuShape, FreeSuffix, FreeBlank, CursorOk, DeletedPages, FreeBlocks, FirstFree, VolumeOf;
      if !given {
        SourcePage(hdrPix);
        work := pages[hdrPix];
      }
      res := ValidObjIx(work, objId, 0);
      if size != 0 && res == Ok {
        work := work.(size := size);
      }
    }

    /** spiffs_object_update_index_hdr, without names and metadata: stores the index header in the
        work buffer, which is read from the flash unless given, in a new page. */
    method UpdateIndexHdr(h: Option<nat>, objIdRaw: Half, hdrPix: nat, given: bool, size: Word)
      returns (res: Code, newPix: nat)
      requires FlashOk() && hdrPix in Disk() && Live(IxId(objIdRaw)) && IxId(objIdRaw) < FREE
      requires h.Some? ==> h.value < |fds|
      modifies this`lu, this`pages, this`eraseCounts, this`freeBlocks, this`maxEraseCount, this`drift
      modifies this`statsDeleted, this`statsAllocated
      modifies this`freeCursorBlock, this`freeCursorEntry, this`work, this`fds
      ensures FlashOk() && drift == old(drift)
      ensures res != Ok ==> fds == old(fds) && Disk() == old(Disk())
      ensures res != Ok
              && ValidObjIx(if given then old(work) else old(Disk())[hdrPix].page, IxId(objIdRaw), 0) == Ok ==>
                (res == ErrNotFound && NoneFree(g, lu)) || (res == ErrFull && !cleaning)
      ensures !cleaning && old(g.Wf() && Budget() >= 1)
              && ValidObjIx(if given then old(work) else old(Disk())[hdrPix].page, IxId(objIdRaw), 0) == Ok ==>
                res == Ok && Budget() >= old(Budget()) - 1
      ensures !cleaning ==> Ran(old(freeBlocks), res) && StillStuck(old(Stuck()), res)
      ensures cleaning && res != Ok ==> lu == old(lu)
      ensures res == Ok ==>
                var base := if given then old(work) else old(Disk())[hdrPix].page;
                && ValidObjIx(base, IxId(objIdRaw), 0) == Ok
                && newPix !in old(Disk()) && newPix < g.Pages()
                && work == base.(size := if size != 0 then size else base.size)
                && Disk() == (old(Disk()) - {hdrPix})[newPix := Cell(IxId(objIdRaw), work)]
                && fds == HdrMoved(
                            FdsAfter(old(fds), if given then IxUpd else IxUpdHdr, objIdRaw, 0, newPix, work.size),
                            h, newPix)
      ensures cleaning && res == Ok ==>
              hdrPix < |old(lu)| && newPix < |old(lu)| && lu == old(lu)[newPix := IxId(objIdRaw)][hdrPix := DELETED]
      ensures cleaning && res == Ok ==>
              Placed(g, old(lu), old(freeCursorBlock), old(freeCursorEntry), freeCursorBlock, freeCursorEntry, newPix)
    {
      hide Spiffs.Budget, Spiffs.FlashOk, LuShape, VolumeOf, Placed, NoneFree, FdsAfter, Spiffs.Stuck;
      newPix := 0;
      var objId := IxId(objIdRaw);
      res := PrepareHeader(objId, hdrPix, given, size);
      if res != Ok {
        return;
      }
      var buf;
      ghost var log;
      res, newPix, buf, log := PageMove(Some(work), objId, hdrPix);
      if res == Ok {
        assert buf.value == work;
        // the descriptors learn of the new place and size
        ObjectEvent(if given then IxUpd else IxUpdHdr, objIdRaw, work.span, newPix, work.size);
        if h.Some? {
          fds := fds[h.value := fds[h.value].(hdrPix := newPix)];
        }
      }
    }
  }

  /** Page q can be written over page p: what differs is still erased in p. */
  ghost predicate FillsIn(p: Page, q: Page) {
    && |p.ix| == |q.ix| && p.id == q.id && p.span == q.span && p.flags == q.flags && p.data == q.data
    && (p.size == q.size || p.size == WORD_MAX)
    && forall e :: 0 <= e < |p.ix| ==> p.ix[e] == HALF_MAX || p.ix[e] == q.ix[e]
  }

  /** If there were pages enough for it, an operation has succeeded, and taken no more. */
  predicate Paid(before: int, cost: nat, ok: bool, after: int) { before >= cost ==> ok && after >= before - cost }

  /** The pages of all blocks but two. */
  function Capacity(g: Geometry): int
    requires g.Wf()
  {
    g.Entries() * (g.blocks - 2)
  }

  /** The pages ahead of the free cursor if n free blocks may be taken, less a block's worth but one. */
  ghost function Ahead(g: Geometry, n: int, ce: nat): int
    requires g.Wf()
  {
    n * g.Entries() + (if 0 < ce < g.Entries() then g.Entries() - ce else 0) - g.Entries() + 1
  }

  lemma AheadRoom(g: Geometry, n: int, ce: nat, free: set<nat>)
    requires g.Wf()
    ensures Ahead(g, n, ce) >= 1 ==> n >= 1
    ensures |free| >= 1 ==> free != {}
  {
    if n <= 0 {
      MulNonneg(-n, g.Entries());
      assert (-n) * g.Entries() == -(n * g.Entries());
    }
  }

  lemma AheadTaken(g: Geometry, lu: seq<nat>, n: int, cb: nat, ce: nat, b: nat, e: nat)
    requires LuShape(g, lu) && CursorOk(g, lu, cb, ce) && NextFree(g, lu, cb, ce, b, e)
    ensures Ahead(g, n - if e == 0 then 1 else 0, e + 1) >= Ahead(g, n, ce) - 1
  {
    assert (n - 1) * g.Entries() == n * g.Entries() - g.Entries();
    if 0 < ce < g.Entries() {
      assert (b, e) == (cb, ce);
    }
  }

  lemma SomeFree(g: Geometry, lu: seq<nat>)
    requires LuShape(g, lu)
    ensures FreeBlocks(g, lu) != {} ==> !NoneFree(g, lu)
  {
    if b :| b in FreeBlocks(g, lu) {
      assert Entry(g, lu, b, 0) == FREE;
    }
  }

  /** Tables with nothing but free entries. */
  lemma Formatted(g: Geometry, lu: seq<nat>, pages: seq<Page>)
    requires g.Wf() && |lu| == |pages| == g.Pages()
    requires forall p :: 0 <= p < |lu| ==> lu[p] == if g.IsLookupPage(p) then NO_ENTRY else FREE
    requires forall p :: 0 <= p < |pages| ==> pages[p] == Blank(g)
    ensures LuShape(g, lu) && FreeBlank(g, lu, pages) && FreeSuffix(g, lu)
    ensures VolumeOf(lu, pages) == map[] && DeletedPages(lu) == {} && |FreeBlocks(g, lu)| == g.blocks
  {
    hide FreeBlank, FreeSuffix, VolumeOf, DeletedPages, FreeBlocks;
    FormattedTables(g, lu, pages);
    forall b, e | 0 <= b < g.blocks && 0 <= e < g.Entries()
      ensures Entry(g, lu, b, e) == FREE
    {
      PixRoundTrip(g, b, e);
    }
    FormattedBlocks(g, lu);
  }

  lemma FormattedTables(g: Geometry, lu: seq<nat>, pages: seq<Page>)
    requires g.Wf() && |lu| == |pages| == g.Pages()
    requires forall p :: 0 <= p < |lu| ==> lu[p] == if g.IsLookupPage(p) then NO_ENTRY else FREE
    requires forall p :: 0 <= p < |pages| ==> pages[p] == Blank(g)
    ensures LuShape(g, lu) && FreeBlank(g, lu, pages) && VolumeOf(lu, pages) == map[] && DeletedPages(lu) == {}
  {
    hide Geometry.IsLookupPage;
  }

  lemma FormattedBlocks(g: Geometry, lu: seq<nat>)
    requires LuShape(g, lu) && forall b, e :: 0 <= b < g.blocks && 0 <= e < g.Entries() ==> Entry(g, lu, b, e) == FREE
    ensures FreeSuffix(g, lu) && |FreeBlocks(g, lu)| == g.blocks
  {
    assert FreeBlocks(g, lu) == Below(g.blocks) by {
      assert g.Entries() > 0;
    }
  }

  function Below(n: nat): (r: set<nat>)
    ensures |r| == n && forall i: nat :: i in r <==> i < n
  {
    if n == 0 then {} else Below(n - 1) + {n - 1}
  }

  /** What a page search accepts as the page of an object at a span. */
  predicate Matches(p: Page, objId: nat, spix: nat, exclude: nat, pix: nat) {
    && p.id == objId && p.span == spix
    && !p.flags.final && p.flags.delet && !p.flags.used
    && !(IsIx(objId) && !p.flags.ixdele && p.span == 0)
    && (exclude == 0 || exclude != pix)
  }

  /** SPIFFS_VALIDATE_OBJIX */
  function ValidObjIx(p: Page, objId: nat, spix: nat): Code {
    if p.flags.used then ErrIsFree
    else if !p.flags.delet then ErrDeleted
    else if p.flags.final then ErrNotFinalized
    else if p.flags.index then ErrNotIndex
    else if !IsIx(objId) then ErrNotIndex
    else if p.span != spix then ErrIndexSpanMismatch
    else Ok
  }

  /** The pages an open descriptor remembers are the pages of its file. */
  ghost predicate FdLinked(fd: Fd, fs: Files) {
    fd.fileNbr != 0 ==>
      && fd.score > 0 && IsIx(fd.objId) && Base(fd.objId) in fs
      && var f := fs[Base(fd.objId)];
         && |f.ixp| > 0 && fd.hdrPix == f.ixp[0]
         && (fd.cursorSpix < |f.ixp| ==> fd.cursorPix == f.ixp[fd.cursorSpix])
  }

  /** The size an open descriptor remembers is that of its file; after a truncation it may be 0
      where the header says the length is undefined. */
  ghost predicate FdSized(fd: Fd, fs: Files) {
    fd.fileNbr != 0 && Base(fd.objId) in fs ==>
      var size := fs[Base(fd.objId)].size;
      fd.size == size || (fd.size == 0 && size == UNDEFINED_LEN)
  }

  ghost predicate FdsLinked(fds: seq<Fd>, fs: Files) {
    forall i :: 0 <= i < |fds| ==> FdLinked(fds[i], fs)
  }

  /** All sizes but those of descriptors of object skip. */
  ghost predicate FdsSizedBut(fds: seq<Fd>, fs: Files, skip: nat) {
    forall i :: 0 <= i < |fds| && Base(fds[i].objId) != skip ==> FdSized(fds[i], fs)
  }

  ghost predicate FdsOk(fds: seq<Fd>, fs: Files) { FdsLinked(fds, fs) && FdsSizedBut(fds, fs, 0) }

  /** Announcing the new place of index page k keeps every descriptor right. */
  lemma IndexMoved(fds: seq<Fd>, fs: Files, ev: Event, raw: nat, k: nat, q: nat, newSize: nat)
    requires FdsLinked(fds, fs) && Base(raw) in fs && k < |fs[Base(raw)].ixp| && ev != IxDel
    ensures var o := Base(raw);
            FdsLinked(FdsAfter(fds, ev, raw, k, q, newSize), fs[o := fs[o].(ixp := fs[o].ixp[k := q])])
  {
    var o := Base(raw);
    var fs' := fs[o := fs[o].(ixp := fs[o].ixp[k := q])];
    forall i | 0 <= i < |fds|
      ensures FdLinked(FdAfter(fds[i], ev, raw, k, q, newSize), fs')
    {
      assert FdLinked(fds[i], fs);
    }
  }

  /** An event that announces the file's own size, or none, keeps the sizes right. */
  lemma SizesKept(fds: seq<Fd>, fs: Files, fs': Files, ev: Event, raw: nat, k: nat, q: nat, newSize: nat, skip: nat)
    requires FdsSizedBut(fds, fs, skip) && fs'.Keys == fs.Keys && ev != IxDel
    requires forall o :: o in fs ==> fs'[o].size == fs[o].size
    requires Base(raw) in fs ==> newSize == 0 || newSize == fs[Base(raw)].size
    ensures FdsSizedBut(FdsAfter(fds, ev, raw, k, q, newSize), fs', skip)
  {
    forall i | 0 <= i < |fds| && Base(FdAfter(fds[i], ev, raw, k, q, newSize).objId) != skip
      ensures FdSized(FdAfter(fds[i], ev, raw, k, q, newSize), fs')
    {
      assert FdSized(fds[i], fs);
    }
  }

  /** What an event makes of a descriptor. */
  function FdAfter(fd: Fd, ev: Event, objIdRaw: nat, spix: nat, newPix: nat, newSize: nat): Fd {
    if fd.score == 0 || Base(fd.objId) != Base(objIdRaw) then fd
    else
      var fd' :=
        if spix != 0 then fd
        else if ev == IxDel then fd.(fileNbr := 0, objId := DELETED)
        else fd.(hdrPix := newPix, size := if newSize != 0 then newSize else fd.size);
      if fd'.cursorSpix == spix then fd'.(cursorPix := if ev == IxDel then 0 else newPix) else fd'
  }

  function FdsAfter(fds: seq<Fd>, ev: Event, objIdRaw: nat, spix: nat, newPix: nat, newSize: nat): (r: seq<Fd>)
    ensures |r| == |fds|
  {
    seq<Fd>(|fds|, i requires 0 <= i < |fds| => FdAfter(fds[i], ev, objIdRaw, spix, newPix, newSize))
  }

  /** The same descriptors are open for the same objects. */
  predicate SameOpen(fds: seq<Fd>, fds': seq<Fd>) {
    && |fds'| == |fds|
    && forall i :: 0 <= i < |fds| ==> fds'[i].fileNbr == fds[i].fileNbr && fds'[i].objId == fds[i].objId
  }

  lemma EventsKeepOpen(fds: seq<Fd>, ev: Event, raw: nat, k: nat, q: nat, newSize: nat)
    requires ev != IxDel
    ensures SameOpen(fds, FdsAfter(fds, ev, raw, k, q, newSize))
  {}

  lemma SameOpenRefl(fds: seq<Fd>)
    ensures SameOpen(fds, fds)
  {}

  lemma SameOpenTrans(fds: seq<Fd>, fds': seq<Fd>, fds'': seq<Fd>)
    requires SameOpen(fds, fds') && SameOpen(fds', fds'')
    ensures SameOpen(fds, fds'')
  {}

  function HdrMoved(fds: seq<Fd>, h: Option<nat>, newPix: nat): (r: seq<Fd>)
    requires h.Some? ==> h.value < |fds|
    ensures |r| == |fds|
  {
    if h.None? then fds else fds[h.value := fds[h.value].(hdrPix := newPix)]
  }

  /** (b, e) is the first free entry on the way round from the cursor (cb, ce). */
  ghost predicate NextFree(g: Geometry, lu: seq<nat>, cb: nat, ce: nat, b: nat, e: nat)
    requires LuShape(g, lu)
  {
    && InRange(g, b, e) && Entry(g, lu, b, e) == FREE
    && forall b', e' | 0 <= b' < g.blocks && 0 <= e' < g.Entries() ::
         CyclicBefore(StartBlock(g, cb, ce), StartEntry(g, ce), b', e', b, e) ==> Entry(g, lu, b', e') != FREE
  }

  /** Page p was taken at the next free entry, and the cursor has moved past it. */
  ghost predicate Placed(g: Geometry, lu: seq<nat>, cb: nat, ce: nat, cb': nat, ce': nat, p: nat)
    requires LuShape(g, lu)
  {
    ce' > 0 && p == g.Pix(cb', ce' - 1) && NextFree(g, lu, cb, ce, cb', ce' - 1)
  }

  ghost predicate NoneReclaimable(g: Geometry, lu: seq<nat>)
    requires LuShape(g, lu)
  {
    forall b :: 0 <= b < g.blocks ==> !Reclaimable(g, lu, b, 0)
  }

  ghost predicate NoneFree(g: Geometry, lu: seq<nat>)
    requires LuShape(g, lu)
  {
    forall b, e | 0 <= b < g.blocks && 0 <= e < g.Entries() :: Entry(g, lu, b, e) != FREE
  }

  /** The next free entry from a proper cursor on is the first free one of its block. */
  lemma NextFreeIsFirst(g: Geometry, lu: seq<nat>, cb: nat, ce: nat, b: nat, e: nat)
    requires LuShape(g, lu) && CursorOk(g, lu, cb, ce) && NextFree(g, lu, cb, ce, b, e)
    ensures FirstFree(g, lu, b, e)
  {}

  lemma FirstFreeBlock(g: Geometry, lu: seq<nat>, b: nat, e: nat)
    requires LuShape(g, lu) && InRange(g, b, e) && FirstFree(g, lu, b, e)
    ensures e == 0 ==> b in FreeBlocks(g, lu)
  {}

  lemma DeletedGone(g: Geometry, lu: seq<nat>, b: nat)
    requires LuShape(g, lu) && b < g.blocks
    ensures |DeletedPages(ErasedLu(g, lu, b))| ==
            |DeletedPages(lu)| - |set p | p in DeletedPages(lu) && g.BlockOf(p) == b|
  {
    var gone := set p | p in DeletedPages(lu) && g.BlockOf(p) == b;
    assert DeletedPages(lu) == DeletedPages(ErasedLu(g, lu, b)) + gone;
  }

  lemma ReclaimEffect(g: Geometry, lu: seq<nat>, pages: seq<Page>, b: nat, max: nat, cb: nat, ce: nat)
    requires LuShape(g, lu) && FreeBlank(g, lu, pages) && FreeSuffix(g, lu) && CursorOk(g, lu, cb, ce)
    requires b < g.blocks && Reclaimable(g, lu, b, max)
    ensures var lu' := ErasedLu(g, lu, b);
            && LuShape(g, lu')
            && InBlock(g, VolumeOf(lu, pages), b) == {}
            && |DeletedPages(lu')| == |DeletedPages(lu)|
                - |PagesIn(lu, g.Pix(b, 0), g.Pix(b, g.Entries()), DeletedKind)|
            && (max == 0 ==> CursorOk(g, lu', cb, ce) && b !in FreeBlocks(g, lu))
  {
    hide DeletedPages, FreeBlocks, VolumeOf, InBlock, ErasedLu, FreeSuffix, FreeBlank;
    EraseEffect(g, lu, pages, b);
    BlockPages(g, lu, pages, b);
    DeletedGone(g, lu, b);
    if max == 0 {
      AllDeleted(g, lu, b);
    }
  }

  lemma AllDeleted(g: Geometry, lu: seq<nat>, b: nat)
    requires LuShape(g, lu) && b < g.blocks && Reclaimable(g, lu, b, 0)
    ensures b !in FreeBlocks(g, lu)
    ensures forall e :: 0 <= e < g.Entries() ==> Entry(g, lu, b, e) == DELETED
  {
    forall e | 0 <= e < g.Entries()
      ensures Entry(g, lu, b, e) == DELETED
    {
      PixRoundTrip(g, b, e);
      var p := g.Pix(b, e);
      assert p !in PagesIn(lu, g.Pix(b, 0), g.Pix(b, g.Entries()), LiveKind);
      assert p !in PagesIn(lu, g.Pix(b, 0), g.Pix(b, g.Entries()), FreeKind);
    }
  }
}
