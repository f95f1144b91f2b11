/** Mounting (SPIFFS_mount and the scan of spiffs_obj_lu_scan). */
module Mount {
  import opened Wrappers
  import opened Nor
  import opened Layout
  import opened Lookup
  import opened Volumes
  import opened Flash
  import opened Nucleus

  /** Lookup pages have no entries to be counted. */
  lemma NextBlock(g: Geometry, lu: seq<nat>, b: nat, kind: Kind)
    requires LuShape(g, lu) && b < g.blocks && kind != NoKind
    ensures g.Pix(b, g.Entries()) == Times(b + 1, g.pagesPerBlock) <= |lu|
    ensures PagesIn(lu, 0, g.Pix(b, 0), kind) == PagesIn(lu, 0, Times(b, g.pagesPerBlock), kind)
  {
    TimesMono(b + 1, g.blocks, g.pagesPerBlock);
    forall p: nat | Times(b, g.pagesPerBlock) <= p < g.Pix(b, 0)
      ensures p < |lu| && lu[p] == NO_ENTRY
    {
      QuotUnique(p, g.pagesPerBlock, b, p - Times(b, g.pagesPerBlock));
      assert g.IsLookupPage(p);
    }
  }

  /** The counters after all entries have been visited are the sizes of the sets. */
  lemma AllCounted(lu: seq<nat>, pages: seq<Page>)
    requires |lu| == |pages| && forall p :: 0 <= p < |lu| ==> lu[p] <= NO_ENTRY
    ensures |PagesIn(lu, 0, |lu|, LiveKind)| == |VolumeOf(lu, pages)|
    ensures PagesIn(lu, 0, |lu|, DeletedKind) == DeletedPages(lu)
  {
    assert PagesIn(lu, 0, |lu|, LiveKind) == VolumeOf(lu, pages).Keys;
  }

  function FreeBelow(g: Geometry, lu: seq<nat>, n: nat): set<nat>
    requires LuShape(g, lu)
  {
    set b: nat | b < n && b < g.blocks && Entry(g, lu, b, 0) == FREE
  }

  lemma FreeBelowStep(g: Geometry, lu: seq<nat>, b: nat)
    requires LuShape(g, lu) && b < g.blocks
    ensures |FreeBelow(g, lu, b + 1)| == |FreeBelow(g, lu, b)| + (if Entry(g, lu, b, 0) == FREE then 1 else 0)
  {
    assert FreeBelow(g, lu, b + 1) == FreeBelow(g, lu, b) + (if Entry(g, lu, b, 0) == FREE then {b} else {});
  }

  /** One entry visited by the counting pass. */
  method CountEntry(fs: Spiffs, b: nat, e: nat)
    requires LuShape(fs.g, fs.lu) && InRange(fs.g, b, e)
    requires fs.freeBlocks == |FreeBelow(fs.g, fs.lu, if e == 0 then b else b + 1)|
    requires fs.statsDeleted == |PagesIn(fs.lu, 0, fs.g.Pix(b, e), DeletedKind)|
    requires fs.statsAllocated == |PagesIn(fs.lu, 0, fs.g.Pix(b, e), LiveKind)|
    modifies fs`freeBlocks, fs`statsDeleted, fs`statsAllocated
    ensures fs.freeBlocks == |FreeBelow(fs.g, fs.lu, b + 1)|
    ensures fs.statsDeleted == |PagesIn(fs.lu, 0, fs.g.Pix(b, e + 1), DeletedKind)|
    ensures fs.statsAllocated == |PagesIn(fs.lu, 0, fs.g.Pix(b, e + 1), LiveKind)|
  {
    hide PagesIn, FreeBelow;
    var objId := Entry(fs.g, fs.lu, b, e);
    PixRoundTrip(fs.g, b, e);
    CountStep(fs.lu, 0, fs.g.Pix(b, e), DeletedKind);
    CountStep(fs.lu, 0, fs.g.Pix(b, e), LiveKind);
    if e == 0 {
      FreeBelowStep(fs.g, fs.lu, b);
    }
    if objId == FREE {
      if e == 0 {
        fs.freeBlocks := fs.freeBlocks + 1;
      }
    } else if objId == DELETED {
      fs.statsDeleted := fs.statsDeleted + 1;
    } else {
      fs.statsAllocated := fs.statsAllocated + 1;
    }
  }

  /** The counting pass of spiffs_obj_lu_scan: sets the three counters to what the lookup tables
      hold. On a file system in use that changes the count of free blocks by the number of
      erasures of blocks that were free, and nothing else. */
  method Scan(fs: Spiffs)
    requires fs.TablesOk()
    modifies fs`freeBlocks, fs`statsDeleted, fs`statsAllocated
    ensures fs.PagesCounted() && fs.freeBlocks == |FreeBlocks(fs.g, fs.lu)|
    ensures old(fs.FlashOk()) ==>
              && fs.statsAllocated == old(fs.statsAllocated) && fs.statsDeleted == old(fs.statsDeleted)
              && fs.freeBlocks == old(fs.freeBlocks) - fs.drift
  {
    hide FreeSuffix, FreeBlank, PagesIn, FreeBelow;
    NothingCounted(fs.g, fs.lu);
    fs.freeBlocks, fs.statsAllocated, fs.statsDeleted := 0, 0, 0;
    var b := 0;
    while b < fs.g.blocks
      invariant 0 <= b <= fs.g.blocks
      invariant fs.freeBlocks == |FreeBelow(fs.g, fs.lu, b)|
      invariant fs.statsDeleted == |PagesIn(fs.lu, 0, Times(b, fs.g.pagesPerBlock), DeletedKind)|
      invariant fs.statsAllocated == |PagesIn(fs.lu, 0, Times(b, fs.g.pagesPerBlock), LiveKind)|
    {
      NextBlock(fs.g, fs.lu, b, DeletedKind);
      NextBlock(fs.g, fs.lu, b, LiveKind);
      var e := 0;
      while e < fs.g.Entries()
        invariant 0 <= e <= fs.g.Entries()
        invariant fs.freeBlocks == |FreeBelow(fs.g, fs.lu, if e == 0 then b else b + 1)|
        invariant fs.statsDeleted == |PagesIn(fs.lu, 0, fs.g.Pix(b, e), DeletedKind)|
        invariant fs.statsAllocated == |PagesIn(fs.lu, 0, fs.g.Pix(b, e), LiveKind)|
      {
        CountEntry(fs, b, e);
        e := e + 1;
      }
      b := b + 1;
    }
    Tallied(fs);
  }

  lemma NothingCounted(g: Geometry, lu: seq<nat>)
    requires LuShape(g, lu)
    ensures |FreeBelow(g, lu, 0)| == |PagesIn(lu, 0, 0, DeletedKind)| == |PagesIn(lu, 0, 0, LiveKind)| == 0
  {
    assert FreeBelow(g, lu, 0) == {} && PagesIn(lu, 0, 0, DeletedKind) == {} && PagesIn(lu, 0, 0, LiveKind) == {};
  }

  lemma Tallied(fs: Spiffs)
    requires fs.TablesOk()
    ensures FreeBelow(fs.g, fs.lu, fs.g.blocks) == FreeBlocks(fs.g, fs.lu)
    ensures |PagesIn(fs.lu, 0, Times(fs.g.blocks, fs.g.pagesPerBlock), LiveKind)| == |fs.Disk()|
    ensures PagesIn(fs.lu, 0, Times(fs.g.blocks, fs.g.pagesPerBlock), DeletedKind) == DeletedPages(fs.lu)
  {
    AllCounted(fs.lu, fs.pages);
  }

  /** The erase counts there are lie between these two, which are among them; 0xffff is none. */
  ghost predicate Between(counts: seq<Half>, lo: nat, hi: nat) {
    && lo in counts && hi in counts && lo < 0xffff && hi < 0xffff
    && forall i :: 0 <= i < |counts| && counts[i] != 0xffff ==> lo <= counts[i] <= hi
  }

  /** The erase count to go on with: the one after the highest, or after the lowest if they are more than half of the
      range apart; 1 if there is none. */
  ghost predicate GoesOnWith(counts: seq<Half>, final: nat) {
    || (final == 1 && forall i :: 0 <= i < |counts| ==> counts[i] == 0xffff)
    || exists lo: nat, hi: nat :: Between(counts, lo, hi) && final == if hi - lo > 0x7fff then lo + 1 else hi + 1
  }

  /** The erase count to go on with: one more than the highest there is, but for a wrap-around. */
  method NextEraseCount(counts: seq<Half>) returns (final: Half)
    ensures GoesOnWith(counts, final)
    ensures (forall i :: 0 <= i < |counts| ==> counts[i] <= FREE / 2) ==>
            forall i :: 0 <= i < |counts| ==> counts[i] < final
  {
    var min, max: Half := FREE, 0;
    var bix := 0;
    while bix < |counts|
      invariant 0 <= bix <= |counts| && 0 <= min <= FREE && max < FREE
      invariant (forall i :: 0 <= i < bix ==> counts[i] <= FREE / 2) ==>
                  (max <= FREE / 2 && forall i :: 0 <= i < bix ==> counts[i] <= max)
      invariant min <= max || (min == FREE && max == 0)
      invariant forall i :: 0 <= i < bix && counts[i] != FREE ==> min <= counts[i] < FREE
      invariant min < FREE || (max == 0 && forall i :: 0 <= i < bix ==> counts[i] == FREE)
      invariant min < FREE ==> Between(counts[..bix], min, max)
    {
      assert counts[..bix + 1] == counts[..bix] + [counts[bix]];
      if counts[bix] != FREE {
        min := Min(min, counts[bix]);
        max := Max(max, counts[bix]);
      }
      bix := bix + 1;
    }
    assert counts[..bix] == counts;
    // the source also has a branch for max == FREE, which cannot be
    if max - min > FREE / 2 {
      // counts on both sides of the wrap: the next one follows the lowest
      final := min + 1;
    } else {
      final := max + 1;
    }
  }

  function ClosedFds(n: nat): (r: seq<Fd>)
    ensures |r| == n && forall i :: 0 <= i < n ==> r[i].fileNbr == 0
  {
    seq<Fd>(n, _ => Fd(0, 0, 0, 0, 0, 0, 0))
  }

  lemma NoneOpen(n: nat, files: Files)
    ensures FdsOk(ClosedFds(n), files)
  {}

  /** The state in memory is set up anew. */
  method Reset(fs: Spiffs)
    requires fs.TablesOk()
    modifies fs`maxEraseCount, fs`freeCursorBlock, fs`freeCursorEntry, fs`cursorBlock, fs`cursorEntry, fs`cleaning,
             fs`fds
    modifies fs`drift
    ensures fs.TablesOk() && !fs.cleaning && fs.drift == 0 && fs.freeCursorBlock == fs.freeCursorEntry == 0
    ensures fs.fds == ClosedFds(|old(fs.fds)|) && GoesOnWith(fs.eraseCounts, fs.maxEraseCount)
  {
    hide FreeSuffix, FreeBlank, LuShape, PageShape;
    fs.freeCursorBlock, fs.freeCursorEntry, fs.cursorBlock, fs.cursorEntry := 0, 0, 0, 0;
    fs.cleaning := false;
    fs.fds := ClosedFds(|fs.fds|);
    fs.maxEraseCount := NextEraseCount(fs.eraseCounts);
    fs.drift := 0;
  }

  /** Mounting what is on the flash: no descriptor is open, and all counters are right. */
  method Mount(fs: Spiffs)
    requires fs.TablesOk() && Consistent(fs.g, fs.Disk(), fs.files)
    modifies fs`freeBlocks, fs`statsDeleted, fs`statsAllocated, fs`maxEraseCount, fs`freeCursorBlock, fs`freeCursorEntry
    modifies fs`cursorBlock, fs`cursorEntry, fs`cleaning, fs`fds, fs`drift
    ensures fs.Sound() && !fs.cleaning && fs.drift == 0
    ensures |fs.fds| == |old(fs.fds)| && forall i :: 0 <= i < |fs.fds| ==> fs.fds[i].fileNbr == 0
    ensures GoesOnWith(fs.eraseCounts, fs.maxEraseCount)
  {
    hide GoesOnWith, FreeSuffix, FreeBlank, Consistent, LuShape, FirstFree, DeletedPages, FreeBlocks, VolumeOf,
         PageShape, FdsOk;
    NoneOpen(|fs.fds|, fs.files);
    Reset(fs);
    Scan(fs);
  }
}
