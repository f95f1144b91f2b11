/** Collecting garbage when space is needed (spiffs_gc_check). */
module Collect {
  import opened Wrappers
  import opened Nor
  import opened Layout
  import opened Lookup
  import opened Volumes
  import opened Flash
  import opened Nucleus
  import opened Room
  import opened Gc
  import opened Candidates

  const MAX_RUNS: nat := 5

  /** Pages free or unaccounted for, less two blocks that are kept in reserve. */
  function FreePages(fs: Spiffs): int
    requires fs.g.Wf()
    reads fs`statsAllocated, fs`statsDeleted
  {
    Capacity(fs.g) - fs.statsAllocated - fs.statsDeleted
  }

  /** spiffs_gc_erase_page_stats: the two counters lose the live and the deleted pages of block b. */
  method ErasePageStats(fs: Spiffs, b: nat) returns (allo: nat)
    requires fs.TablesOk() && b < fs.g.blocks
    modifies fs`statsAllocated, fs`statsDeleted
    ensures allo == |PagesIn(fs.lu, fs.g.Pix(b, 0), fs.g.Pix(b, fs.g.Entries()), LiveKind)|
    ensures fs.statsAllocated == old(fs.statsAllocated) - allo
    ensures fs.statsDeleted == old(fs.statsDeleted)
            - |PagesIn(fs.lu, fs.g.Pix(b, 0), fs.g.Pix(b, fs.g.Entries()), DeletedKind)|
  {
    ghost var lo := fs.g.Pix(b, 0);
    var dele := 0;
    allo := 0;
    var curEntry := 0;
    while curEntry < fs.g.Entries()
      invariant 0 <= curEntry <= fs.g.Entries()
      invariant fs.statsAllocated == old(fs.statsAllocated) && fs.statsDeleted == old(fs.statsDeleted)
      invariant dele == |PagesIn(fs.lu, lo, fs.g.Pix(b, curEntry), DeletedKind)|
      invariant allo == |PagesIn(fs.lu, lo, fs.g.Pix(b, curEntry), LiveKind)|
    {
      var objId := Entry(fs.g, fs.lu, b, curEntry);
      PixRoundTrip(fs.g, b, curEntry);
      CountStep(fs.lu, lo, fs.g.Pix(b, curEntry), DeletedKind);
      CountStep(fs.lu, lo, fs.g.Pix(b, curEntry), LiveKind);
      if objId == FREE {
      } else if objId == DELETED {
        dele := dele + 1;
      } else {
        allo := allo + 1;
      }
      curEntry := curEntry + 1;
    }
    fs.statsAllocated := fs.statsAllocated - allo;
    fs.statsDeleted := fs.statsDeleted - dele;
  }

  /** Erasing a block without live pages: everything that must hold of the flash still does, if the
      free cursor is not in the middle of that block. */
  lemma EraseEmpty(g: Geometry, lu: seq<nat>, pages: seq<Page>, b: nat, cb: nat, ce: nat)
    requires LuShape(g, lu) && FreeBlank(g, lu, pages) && FreeSuffix(g, lu) && CursorOk(g, lu, cb, ce) && b < g.blocks
    requires |PagesIn(lu, g.Pix(b, 0), g.Pix(b, g.Entries()), LiveKind)| == 0
    requires cb == b ==> ce == 0 || ce >= g.Entries()
    ensures var lu' := ErasedLu(g, lu, b);
            && LuShape(g, lu') && CursorOk(g, lu', cb, ce)
            && InBlock(g, VolumeOf(lu, pages), b) == {}
            && |DeletedPages(lu')| == |DeletedPages(lu)|
                - |PagesIn(lu, g.Pix(b, 0), g.Pix(b, g.Entries()), DeletedKind)|
  {
    EraseEffect(g, lu, pages, b);
    BlockPages(g, lu, pages, b);
    var gone := set p | p in DeletedPages(lu) && g.BlockOf(p) == b;
    assert DeletedPages(lu) == DeletedPages(ErasedLu(g, lu, b)) + gone;
  }

  /** A block that was left without pages holds none as the counters see it. */
  lemma NoneLeft(g: Geometry, lu: seq<nat>, pages: seq<Page>, b: nat)
    requires LuShape(g, lu) && FreeBlank(g, lu, pages) && b < g.blocks
    requires NoPages(g, VolumeOf(lu, pages), b, g.Entries())
    ensures |PagesIn(lu, g.Pix(b, 0), g.Pix(b, g.Entries()), LiveKind)| == 0
  {
    forall p: nat | g.Pix(b, 0) <= p < g.Pix(b, g.Entries())
      ensures p !in PagesIn(lu, g.Pix(b, 0), g.Pix(b, g.Entries()), LiveKind)
    {
      assert g.Pix(b, p - g.Pix(b, 0)) == p;
    }
    assert PagesIn(lu, g.Pix(b, 0), g.Pix(b, g.Entries()), LiveKind) == {};
  }

  lemma CursorOutside(g: Geometry, cb: nat, ce: nat, b: nat)
    requires g.Wf()
    ensures Outside(g, cb, ce, b) ==> !(cb == b && 0 < ce < g.Entries())
  {}

  /** Erases a cleaned block, in which no page is left and the cursor is not. */
  method EraseCleaned(fs: Spiffs, b: nat)
    requires fs.FlashOk() && b < fs.g.blocks && NoPages(fs.g, fs.Disk(), b, fs.g.Entries())
    requires Outside(fs.g, fs.freeCursorBlock, fs.freeCursorEntry, b)
    modifies fs`statsAllocated, fs`statsDeleted, fs`lu, fs`pages, fs`eraseCounts, fs`freeBlocks, fs`maxEraseCount
    modifies fs`drift
    ensures fs.FlashOk() && fs.Disk() == old(fs.Disk()) && b in FreeBlocks(fs.g, fs.lu)
    ensures old(LuShape(fs.g, fs.lu)) && fs.lu == ErasedLu(fs.g, old(fs.lu), b)
    ensures fs.drift == old(fs.drift) + if b in old(FreeBlocks(fs.g, fs.lu)) then 1 else 0
  {
    hide FreeSuffix, FreeBlank, DeletedPages, VolumeOf, InBlock, PagesIn, ErasedLu, ErasedPages, FirstFree, NoPages,
         CursorOk, LuShape, FreeBlocks, Outside;
    NoneLeft(fs.g, fs.lu, fs.pages, b);
    CursorOutside(fs.g, fs.freeCursorBlock, fs.freeCursorEntry, b);
    var _ := ErasePageStats(fs, b);
    EraseEmpty(fs.g, fs.lu, fs.pages, b, fs.freeCursorBlock, fs.freeCursorEntry);
    fs.EraseBlock(b);
    assert fs.Disk() == old(fs.Disk());
  }

  lemma FreeIsEmpty(fs: Spiffs, b: nat)
    requires fs.Sound() && b < fs.g.blocks
    ensures LuShape(fs.g, fs.lu)
    ensures b in FreeBlocks(fs.g, fs.lu) ==> NoPages(fs.g, fs.Disk(), b, fs.g.Entries())
  {
    if b in FreeBlocks(fs.g, fs.lu) {
      forall e | 0 <= e < fs.g.Entries()
        ensures fs.g.Pix(b, e) !in fs.Disk()
      {
        PixRoundTrip(fs.g, b, e);
        assert Entry(fs.g, fs.lu, b, e) == FREE;
      }
    }
  }

  lemma TakenStays(g: Geometry, lu: seq<nat>, lu': seq<nat>, b: nat)
    requires LuShape(g, lu) && LuShape(g, lu') && b < g.blocks && StillTaken(lu, lu')
    ensures b in FreeBlocks(g, lu') ==> b in FreeBlocks(g, lu)
  {
    if b !in FreeBlocks(g, lu) {
      StillTakenAt(g, lu, lu', b, 0);
    }
  }

  /** No page outside block b has become free. */
  ghost predicate StaysTaken(g: Geometry, lu: seq<nat>, lu': seq<nat>, b: nat)
    requires g.Wf() && |lu| == |lu'| == g.Pages()
  {
    forall p :: 0 <= p < g.Pages() && g.BlockOf(p) != b && lu[p] != FREE ==> lu'[p] != FREE
  }

  lemma ErasedStays(g: Geometry, lu: seq<nat>, lu': seq<nat>, b: nat)
    requires LuShape(g, lu) && LuShape(g, lu') && b < g.blocks && StillTaken(lu, lu')
    ensures StaysTaken(g, lu, ErasedLu(g, lu', b), b)
  {}

  /** One run: empties the block, and erases it, exactly if there are enough free pages outside of it. */
  method CleanAndErase(fs: Spiffs, b: nat) returns (res: Code)
    requires fs.Sound() && !fs.cleaning && b < fs.g.blocks
    modifies fs
    ensures !fs.cleaning && (res == Ok || res == ErrNotFound) && SameOpen(old(fs.fds), fs.fds)
    ensures res == Ok ==> fs.Sound() && SameContents(old(fs.Disk()), old(fs.files), fs.Disk(), fs.files)
    ensures fs.g.Wf() && (res != Ok ==> fs.FlashOk() && Halfway(fs.g, fs.Disk(), old(fs.Disk()), old(fs.files)))
    ensures res == Ok ==> b in FreeBlocks(fs.g, fs.lu)
    ensures old(LuShape(fs.g, fs.lu)) && (res == Ok <==> old(EnoughFree(fs.g, fs.lu, fs.Disk(), b)))
    ensures res == Ok ==> fs.drift == old(fs.drift) + if b in old(FreeBlocks(fs.g, fs.lu)) then 1 else 0
    ensures LuShape(fs.g, fs.lu) && (res == Ok ==> StaysTaken(fs.g, old(fs.lu), fs.lu, b))
  {
    hide StillTaken, FreeSuffix, FreeBlank, DeletedPages, VolumeOf, Consistent, FdsOk, InBlock, SameContents, PagesIn,
         CursorOk, FirstFree, NoPages, FreeBlocks, EnoughFree, Outside, ErasedLu, Halfway, StaysTaken;
    ghost var lu := fs.lu;
    FreeIsEmpty(fs, b);
    fs.cleaning := true;
    res := Clean(fs, b);
    fs.cleaning := false;
    if res == Ok {
      TakenStays(fs.g, lu, fs.lu, b);
      ErasedStays(fs.g, lu, fs.lu, b);
      EraseCleaned(fs, b);
    }
  }

  lemma NeededPages(len: nat, free: int, d: nat)
    requires d > 0 && (len + d - 1) / d > free
    ensures len > free * d
  {
    if free >= 0 {
      var n := (len + d - 1) / d;
      MulNonneg(n - 1 - free, d);
      assert (n - 1 - free) * d == (n - 1) * d - free * d;
      assert len + d - 1 == n * d + (len + d - 1) % d;
      assert (n - 1) * d == n * d - d;
    } else {
      MulNonneg(-free - 1, d);
      assert (-free - 1) * d == -(free * d) - d;
    }
  }

  /** No collection is needed: there is room. */
  predicate Fits(fs: Spiffs, len: nat)
    requires fs.g.Wf()
    reads fs`freeBlocks, fs`statsAllocated, fs`statsDeleted
  {
    fs.freeBlocks > 3 && len < FreePages(fs) * fs.g.dataSize
  }

  /** Pages that can be taken are free pages, and no collection is due before they have been taken. */
  lemma BudgetFits(fs: Spiffs, n: nat)
    requires fs.g.Wf() && n > 0
    ensures fs.Budget() >= n ==> fs.freeBlocks > 3 && FreePages(fs) >= n
  {
    hide Ahead;
    AheadRoom(fs.g, fs.freeBlocks - Max(3, fs.drift), fs.freeCursorEntry, {});
  }

  // ---------- what a collection does ----------

  /** What a collection goes by: the flash, and the counters. */
  datatype GcState = GcState(lu: seq<nat>, volume: Volume, eraseCounts: seq<Half>, maxEraseCount: Half,
                             freeBlocks: int, live: int, deleted: int)

  ghost function StateOf(fs: Spiffs): GcState
    reads fs`lu, fs`pages, fs`eraseCounts, fs`maxEraseCount, fs`freeBlocks, fs`statsAllocated, fs`statsDeleted
  {
    GcState(fs.lu, fs.Disk(), fs.eraseCounts, fs.maxEraseCount, fs.freeBlocks, fs.statsAllocated, fs.statsDeleted)
  }

  /** The tables have their sizes, and the page counters are right. */
  ghost predicate Counted(g: Geometry, s: GcState) {
    && LuShape(g, s.lu) && |s.eraseCounts| == g.blocks
    && s.live == |s.volume| && s.deleted == |DeletedPages(s.lu)|
  }

  function FreePagesIn(g: Geometry, s: GcState): int
    requires g.Wf()
  {
    g.Entries() * (g.blocks - 2) - s.live - s.deleted
  }

  predicate FitsIn(g: Geometry, s: GcState, len: nat)
    requires g.Wf()
  {
    s.freeBlocks > 3 && len < FreePagesIn(g, s) * g.dataSize
  }

  /** Not even the deleted pages would make enough room. */
  predicate Hopeless(g: Geometry, s: GcState, len: nat)
    requires g.Wf()
  {
    (len + g.dataSize - 1) / g.dataSize > FreePagesIn(g, s) + s.deleted
  }

  /** The block that is picked: the lowest-numbered one of the highest score. Age is left out of the scores when space
      is tight. */
  ghost predicate Picked(g: Geometry, s: GcState, b: nat)
    requires Counted(g, s)
  {
    var sc := Scores(g, s.lu, s.eraseCounts, s.maxEraseCount, FreePagesIn(g, s) <= 0);
    b < g.blocks && |sc| == g.blocks &&
    forall b' :: 0 <= b' < g.blocks ==> sc[b'] <= sc[b] && (sc[b'] == sc[b] ==> b <= b')
  }

  /** A run that cleans block b succeeds. */
  ghost predicate Succeeds(g: Geometry, s: GcState, b: nat)
    requires Counted(g, s)
  {
    EnoughFree(g, s.lu, s.volume, b)
  }

  /** What a run that cleans block b and succeeds does: the block is free, counted once more if it was free before, and
      no page has become free outside of it. */
  ghost predicate Cleans(g: Geometry, s: GcState, b: nat, s': GcState)
    requires Counted(g, s) && Counted(g, s')
  {
    && b in FreeBlocks(g, s'.lu)
    && s'.freeBlocks - |FreeBlocks(g, s'.lu)|
       == s.freeBlocks - |FreeBlocks(g, s.lu)| + (if WasFree(g, s, b) then 1 else 0)
    && StaysTaken(g, s.lu, s'.lu, b)
  }

  /** What a cleaned and erased block makes of the counters. */
  lemma RunCleans(g: Geometry, s: GcState, b: nat, s': GcState, drift: nat, drift': nat)
    requires Counted(g, s) && Counted(g, s') && b in FreeBlocks(g, s'.lu) && StaysTaken(g, s.lu, s'.lu, b)
    requires s.freeBlocks == |FreeBlocks(g, s.lu)| + drift && s'.freeBlocks == |FreeBlocks(g, s'.lu)| + drift'
    requires drift' == drift + if WasFree(g, s, b) then 1 else 0
    ensures Cleans(g, s, b, s') && s'.freeBlocks >= 1
  {
    hide StaysTaken, FreeBlocks;
    SubsetSize({b}, FreeBlocks(g, s'.lu));
  }

  /** After a run from s to s' another one follows: blocks or bytes are missing still, and the run was not one on a
      crammed flash that gained no page. */
  predicate GoesOn(g: Geometry, len: nat, s: GcState, s': GcState)
    requires g.Wf()
  {
    && !(FreePagesIn(g, s) <= 0 && FreePagesIn(g, s) == FreePagesIn(g, s'))
    && (s'.freeBlocks <= 2 || len > FreePagesIn(g, s') * g.dataSize)
  }

  /** A collection for len bytes: the states before and after each run, the blocks picked, and the result. */
  datatype Collection = Collection(len: nat, states: seq<GcState>, blocks: seq<nat>, code: Code)

  ghost predicate Shaped(g: Geometry, c: Collection) {
    g.Wf() && |c.states| == |c.blocks| + 1 && forall i :: 0 <= i < |c.states| ==> Counted(g, c.states[i])
  }

  /** Run i picks its block; unless it is the last one, it succeeds, and another one has to follow. */
  ghost predicate RunDone(g: Geometry, c: Collection, i: nat)
    requires Shaped(g, c) && i < |c.blocks|
  {
    && Picked(g, c.states[i], c.blocks[i])
    && (Succeeds(g, c.states[i], c.blocks[i]) ==> Cleans(g, c.states[i], c.blocks[i], c.states[i + 1]))
    && (i + 1 < |c.blocks| ==>
        Succeeds(g, c.states[i], c.blocks[i]) && GoesOn(g, c.len, c.states[i], c.states[i + 1]))
  }

  /** It fails with the last run, or ends when no run is to follow or enough have been made; then the result says
      whether the bytes fit. */
  ghost predicate Ends(g: Geometry, c: Collection)
    requires Shaped(g, c)
  {
    var n := |c.blocks|;
    if n > 0 && !Succeeds(g, c.states[n - 1], c.blocks[n - 1]) then c.code == ErrNotFound
    else
      && (n > 0 ==> n == 5 || !GoesOn(g, c.len, c.states[n - 1], c.states[n]))
      && c.code == if c.len > FreePagesIn(g, c.states[n]) * g.dataSize then ErrFull else Ok
  }

  lemma StateRead(fs: Spiffs)
    requires fs.g.Wf()
    ensures FreePagesIn(fs.g, StateOf(fs)) == FreePages(fs) && StateOf(fs).freeBlocks == fs.freeBlocks
  {}

  /** What spiffs_gc_check does: no run if the bytes fit or cannot be made to, and else as many as are called for, but
      at most five. */
  ghost predicate Collects(g: Geometry, c: Collection) {
    && Shaped(g, c) && |c.blocks| <= 5
    && (c.blocks == [] <==> FitsIn(g, c.states[0], c.len) || Hopeless(g, c.states[0], c.len))
    && (forall i :: 0 <= i < |c.blocks| ==> RunDone(g, c, i))
    && Ends(g, c)
  }

  /** So far every run has been followed by another. */
  ghost predicate Collecting(g: Geometry, c: Collection, s: GcState) {
    && Shaped(g, c) && |c.blocks| <= MAX_RUNS && c.states[|c.blocks|] == s
    && !FitsIn(g, c.states[0], c.len) && !Hopeless(g, c.states[0], c.len)
    && forall i :: 0 <= i < |c.blocks| ==>
         && RunDone(g, c, i) && Succeeds(g, c.states[i], c.blocks[i])
         && GoesOn(g, c.len, c.states[i], c.states[i + 1])
  }

  function OneMore(c: Collection, b: nat, s: GcState): Collection {
    c.(states := c.states + [s], blocks := c.blocks + [b])
  }

  /** The runs before the next one. */
  lemma RunsBefore(g: Geometry, c: Collection, s: GcState, b: nat, s': GcState)
    requires Collecting(g, c, s) && Counted(g, s') && Picked(g, s, b)
    requires Succeeds(g, s, b) ==> Cleans(g, s, b, s')
    ensures var c' := OneMore(c, b, s'); var n := |c.blocks|;
            && Shaped(g, c') && |c'.blocks| == n + 1 && c'.states[0] == c.states[0] && c'.len == c.len
            && c'.states[n] == s && c'.blocks[n] == b && c'.states[n + 1] == s'
            && forall i :: 0 <= i <= n ==> RunDone(g, c', i)
  {
    hide Picked, Succeeds, Cleans, GoesOn, Counted;
    var c', n := OneMore(c, b, s'), |c.blocks|;
    forall i | 0 <= i < n
      ensures RunDone(g, c', i)
    {
      assert RunDone(g, c, i);
      assert c'.states[i] == c.states[i] && c'.states[i + 1] == c.states[i + 1] && c'.blocks[i] == c.blocks[i];
    }
  }

  /** The collection ends with this run. */
  lemma RunEnds(g: Geometry, c: Collection, s: GcState, b: nat, s': GcState, code: Code)
    requires Collecting(g, c, s) && Counted(g, s') && Picked(g, s, b) && |c.blocks| < MAX_RUNS
    requires Succeeds(g, s, b) ==> Cleans(g, s, b, s')
    requires if Succeeds(g, s, b)
             then (|c.blocks| + 1 == MAX_RUNS || !GoesOn(g, c.len, s, s'))
                  && code == (if c.len > FreePagesIn(g, s') * g.dataSize then ErrFull else Ok)
             else code == ErrNotFound
    ensures Collects(g, OneMore(c, b, s').(code := code))
  {
    hide Picked, Succeeds, Cleans, GoesOn, Counted, FitsIn, Hopeless, FreePagesIn, RunDone;
    RunsBefore(g, c, s, b, s');
    var c' := OneMore(c, b, s').(code := code);
    forall i | 0 <= i < |c'.blocks|
      ensures RunDone(g, c', i)
    {
      SameRun(g, OneMore(c, b, s'), i, code);
    }
  }

  lemma SameRun(g: Geometry, c: Collection, i: nat, code: Code)
    requires Shaped(g, c) && i < |c.blocks| && RunDone(g, c, i)
    ensures Shaped(g, c.(code := code)) && RunDone(g, c.(code := code), i)
  {}

  /** Another run follows this one. */
  lemma RunFollows(g: Geometry, c: Collection, s: GcState, b: nat, s': GcState)
    requires Collecting(g, c, s) && Counted(g, s') && Picked(g, s, b) && |c.blocks| < MAX_RUNS
    requires Succeeds(g, s, b) && Cleans(g, s, b, s') && GoesOn(g, c.len, s, s')
    ensures Collecting(g, OneMore(c, b, s'), s')
  {
    hide Picked, Succeeds, Cleans, Counted, FitsIn, Hopeless, FreePagesIn, GoesOn;
    RunsBefore(g, c, s, b, s');
    var c' := OneMore(c, b, s');
    forall i | 0 <= i < |c.blocks|
      ensures Succeeds(g, c'.states[i], c'.blocks[i]) && GoesOn(g, c'.len, c'.states[i], c'.states[i + 1])
    {
      assert RunDone(g, c', i);
    }
  }

  /** No run is made. */
  lemma NoRuns(fs: Spiffs, len: nat)
    requires fs.g.Wf() && Counted(fs.g, StateOf(fs))
    ensures var s, fits := StateOf(fs), fs.freeBlocks > 3 && len < FreePages(fs) * fs.g.dataSize;
            var hopeless := (len + fs.g.dataSize - 1) / fs.g.dataSize > FreePages(fs) + fs.statsDeleted;
            && Wasted(fs.g, Collection(len, [s], [], Ok)) == 0
            && (fits ==> Collects(fs.g, Collection(len, [s], [], Ok)))
            && (hopeless ==>
                Collects(fs.g, Collection(len, [s], [], ErrFull)) && len > FreePages(fs) * fs.g.dataSize)
            && (!fits && !hopeless ==> Collecting(fs.g, Collection(len, [s], [], Ok), s))
  {
    hide Counted;
    var s := StateOf(fs);
    if Hopeless(fs.g, s, len) {
      CountedDeleted(fs.g, s);
      NeededPages(len, FreePages(fs) + fs.statsDeleted, fs.g.dataSize);
      FewerBytes(FreePages(fs), fs.statsDeleted, fs.g.dataSize);
    }
  }

  lemma CountedDeleted(g: Geometry, s: GcState)
    requires Counted(g, s)
    ensures s.deleted == |DeletedPages(s.lu)| >= 0
  {}

  lemma FewerBytes(free: int, more: nat, d: nat)
    ensures free * d <= (free + more) * d
  {
    MulNonneg(more, d);
    assert (free + more) * d == free * d + more * d;
  }

  ghost predicate WasFree(g: Geometry, s: GcState, b: nat) { LuShape(g, s.lu) && b in FreeBlocks(g, s.lu) }

  /** How many of the blocks picked were free already. */
  ghost function WastedRuns(g: Geometry, states: seq<GcState>, blocks: seq<nat>): nat
    decreases |blocks|
  {
    var n := |blocks|;
    if n == 0 || |states| <= n then 0
    else WastedRuns(g, states[..n], blocks[..n - 1]) + if WasFree(g, states[n - 1], blocks[n - 1]) then 1 else 0
  }

  ghost function Wasted(g: Geometry, c: Collection): nat { WastedRuns(g, c.states, c.blocks) }

  /** The collection leads from one state to another. */
  ghost predicate FromTo(c: Collection, s: GcState, s': GcState) {
    |c.states| == |c.blocks| + 1 && c.states[0] == s && c.states[|c.blocks|] == s'
  }

  lemma OneMoreWasted(g: Geometry, c: Collection, b: nat, s: GcState)
    requires Shaped(g, c) && Counted(g, s)
    ensures Shaped(g, OneMore(c, b, s))
    ensures Wasted(g, OneMore(c, b, s)) == Wasted(g, c) + if WasFree(g, c.states[|c.blocks|], b) then 1 else 0
  {
    hide Counted;
    var c', n := OneMore(c, b, s), |c.blocks| + 1;
    assert c'.states[..n] == c.states && c'.blocks[..n - 1] == c.blocks;
  }

  /** After one more run. */
  lemma NextRun(g: Geometry, c: Collection, s: GcState, b: nat, s': GcState)
    requires Collecting(g, c, s) && Counted(g, s') && Picked(g, s, b) && |c.blocks| < MAX_RUNS
    requires Succeeds(g, s, b) ==> Cleans(g, s, b, s')
    ensures var c', n := OneMore(c, b, s'), |c.blocks| + 1;
            && |c.states| == n && |c'.blocks| == n && c'.len == c.len && FromTo(c', c.states[0], s')
            && Wasted(g, c') == Wasted(g, c) + (if WasFree(g, s, b) then 1 else 0)
            && (!Succeeds(g, s, b) ==> Collects(g, c'.(code := ErrNotFound)))
            && (Succeeds(g, s, b) ==>
                if n == MAX_RUNS || !GoesOn(g, c.len, s, s')
                then Collects(g, c'.(code := if c.len > FreePagesIn(g, s') * g.dataSize then ErrFull else Ok))
                else Collecting(g, c', s'))
  {
    hide Picked, Succeeds, Cleans, Counted, GoesOn, FreePagesIn, WastedRuns, Collects, RunDone;
    OneMoreWasted(g, c, b, s');
    if !Succeeds(g, s, b) {
      RunEnds(g, c, s, b, s', ErrNotFound);
    } else if |c.blocks| + 1 == MAX_RUNS || !GoesOn(g, c.len, s, s') {
      RunEnds(g, c, s, b, s', if c.len > FreePagesIn(g, s') * g.dataSize then ErrFull else Ok);
    } else {
      RunFollows(g, c, s, b, s');
    }
  }

  lemma PickedFirst(fs: Spiffs, candidates: seq<nat>, scores: seq<int>)
    requires fs.g.Wf() && Counted(fs.g, StateOf(fs)) && |candidates| > 0
    requires TopBlocks(Scores(fs.g, fs.lu, fs.eraseCounts, fs.maxEraseCount, FreePages(fs) <= 0), fs.g.blocks,
                       candidates, scores)
    ensures Picked(fs.g, StateOf(fs), candidates[0])
  {
    hide TopBlocks, Scores;
    var sc := Scores(fs.g, fs.lu, fs.eraseCounts, fs.maxEraseCount, FreePages(fs) <= 0);
    FirstIsBest(sc, fs.g.blocks, candidates, scores, 0);
    forall b' | 0 <= b' < fs.g.blocks
      ensures sc[b'] <= sc[candidates[0]] && (sc[b'] == sc[candidates[0]] ==> candidates[0] <= b')
    {
      FirstIsBest(sc, fs.g.blocks, candidates, scores, b');
    }
  }

  lemma FreeEntries(g: Geometry, lu: seq<nat>, b: nat)
    requires LuShape(g, lu) && FreeSuffix(g, lu) && b in FreeBlocks(g, lu)
    ensures PagesIn(lu, g.Pix(b, 0), g.Pix(b, g.Entries()), DeletedKind) == {}
    ensures PagesIn(lu, g.Pix(b, 0), g.Pix(b, g.Entries()), LiveKind) == {}
  {
    forall p: nat | g.Pix(b, 0) <= p < g.Pix(b, g.Entries())
      ensures p < |lu| && lu[p] == FREE
    {
      var e := p - g.Pix(b, 0);
      PixRoundTrip(g, b, e);
      assert Entry(g, lu, b, e) == FREE;
    }
  }

  /** What the age of a block adds to its score. */
  ghost function AgeScore(fs: Spiffs, b: nat): int
    requires fs.g.Wf() && b < |fs.eraseCounts|
    reads fs`eraseCounts, fs`maxEraseCount, fs`statsAllocated, fs`statsDeleted
  {
    if FreePages(fs) <= 0 then 0 else 50 * EraseAge(fs.maxEraseCount, fs.eraseCounts[b])
  }

  /** A block that is free already is picked exactly if no other has a better score than its age alone gives it. */
  lemma FreeBlockPicked(fs: Spiffs, b: nat)
    requires fs.Sound() && LuShape(fs.g, fs.lu) && b in FreeBlocks(fs.g, fs.lu)
    ensures |fs.eraseCounts| == fs.g.blocks && Counted(fs.g, StateOf(fs))
    ensures Picked(fs.g, StateOf(fs), b) <==>
              forall b' {:trigger AgeScore(fs, b')} :: 0 <= b' < fs.g.blocks ==>
                var lo, hi := fs.g.Pix(b', 0), fs.g.Pix(b', fs.g.Entries());
                var score := 5 * |PagesIn(fs.lu, lo, hi, DeletedKind)| - |PagesIn(fs.lu, lo, hi, LiveKind)|
                    + AgeScore(fs, b');
                score <= AgeScore(fs, b) && (score == AgeScore(fs, b) ==> b <= b')
  {
    hide PagesIn, EraseAge;
    FreeEntries(fs.g, fs.lu, b);
    var sc := Scores(fs.g, fs.lu, fs.eraseCounts, fs.maxEraseCount, FreePages(fs) <= 0);
    forall b' | 0 <= b' < fs.g.blocks
      ensures var lo, hi := fs.g.Pix(b', 0), fs.g.Pix(b', fs.g.Entries());
              sc[b'] == 5 * |PagesIn(fs.lu, lo, hi, DeletedKind)| - |PagesIn(fs.lu, lo, hi, LiveKind)|
                  + AgeScore(fs, b')
    {}
  }

  /** One pass of the loop: picks a block, cleans it, and erases it. */
  method CollectOnce(fs: Spiffs) returns (res: Code, ghost b: nat)
    requires fs.Sound() && !fs.cleaning
    modifies fs
    ensures !fs.cleaning && (res == Ok || res == ErrNotFound) && SameOpen(old(fs.fds), fs.fds)
    ensures res == Ok ==> fs.Sound() && SameContents(old(fs.Disk()), old(fs.files), fs.Disk(), fs.files)
    ensures fs.g.Wf() && (res != Ok ==> fs.FlashOk() && Halfway(fs.g, fs.Disk(), old(fs.Disk()), old(fs.files)))
    ensures Counted(fs.g, old(StateOf(fs))) && Counted(fs.g, StateOf(fs)) && Picked(fs.g, old(StateOf(fs)), b)
    ensures res == Ok <==> Succeeds(fs.g, old(StateOf(fs)), b)
    ensures res == Ok ==> Cleans(fs.g, old(StateOf(fs)), b, StateOf(fs)) && fs.freeBlocks >= 1
    ensures res == Ok ==> fs.drift == old(fs.drift) + if WasFree(fs.g, old(StateOf(fs)), b) then 1 else 0
  {
    hide SameOpen, Spiffs.FlashOk, Consistent, FdsOk, SameContents, TopBlocks, EnoughFree, Picked, Scores, Halfway,
         Cleans, StaysTaken, FreeBlocks, VolumeOf;
    ghost var s, drift := StateOf(fs), fs.drift;
    SoundCounted(fs);
    // the table of candidates takes the place of what was in the work buffer; its bytes are not modelled
    fs.SetWork(Blank(fs.g));
    // blocks are picked without regard to their age when space is tight
    var cands, count, scores := FindCandidate(fs, FreePages(fs) <= 0);
    PickedFirst(fs, cands[..], scores);
    b := cands[0];
    res := CleanAndErase(fs, cands[0]);
    FlashCounted(fs);
    if res == Ok {
      RunCleans(fs.g, s, b, StateOf(fs), drift, fs.drift);
    }
  }

  lemma FlashCounted(fs: Spiffs)
    requires fs.FlashOk()
    ensures Counted(fs.g, StateOf(fs)) && fs.freeBlocks == |FreeBlocks(fs.g, fs.lu)| + fs.drift
  {}

  lemma SoundCounted(fs: Spiffs)
    requires fs.Sound()
    ensures Counted(fs.g, StateOf(fs)) && fs.FlashOk() && fs.freeBlocks == |FreeBlocks(fs.g, fs.lu)| + fs.drift
    ensures fs.g.Wf() && fs.TablesOk() && |fs.eraseCounts| == fs.g.blocks && fs.statsDeleted >= 0
  {}

  /** spiffs_gc_check: collects garbage until len bytes fit. Unless a run does not find enough free pages outside the
      block it picks, every file is as it was, and the result says whether the bytes fit. If one does not, it may have
      stopped halfway. */
  method GcCheck(fs: Spiffs, len: nat) returns (res: Code, ghost gc: Collection)
    requires fs.Sound() && !fs.cleaning
    modifies fs
    ensures !fs.cleaning && (res == Ok || res == ErrFull || res == ErrNotFound) && SameOpen(old(fs.fds), fs.fds)
    ensures res != ErrNotFound ==>
            fs.Sound() && SameContents(old(fs.Disk()), old(fs.files), fs.Disk(), fs.files)
    ensures fs.g.Wf() && fs.FlashOk()
    ensures res == ErrNotFound ==> Halfway(fs.g, fs.Disk(), old(fs.Disk()), old(fs.files))
    ensures Collects(fs.g, gc) && gc.len == len && gc.code == res
    ensures FromTo(gc, old(StateOf(fs)), StateOf(fs))
    ensures res == Ok ==> len <= FreePages(fs) * fs.g.dataSize && fs.freeBlocks >= 1
    ensures res == ErrFull ==> len > FreePages(fs) * fs.g.dataSize
    ensures res != ErrNotFound ==> fs.drift == old(fs.drift) + Wasted(fs.g, gc)
    ensures gc.blocks == [] ==> unchanged(fs)
    ensures old(fs.g.Wf() && Fits(fs, len)) ==> res == Ok && gc.blocks == []
  {
    hide SameOpen, Spiffs.FlashOk, Consistent, FdsOk, SameContents, Spiffs.TablesOk, Halfway, Counted, Picked, Succeeds,
         Cleans, Collecting, Collects, WasFree, WastedRuns, StateOf, FitsIn, Hopeless, FreePagesIn, FreePages;
    SameContentsRefl(fs.Disk(), fs.files);
    SameOpenRefl(fs.fds);
    SoundCounted(fs);
    gc := Collection(len, [StateOf(fs)], [], Ok);
    NoRuns(fs, len);
    var freePages := FreePages(fs);
    if fs.freeBlocks > 3 && len < freePages * fs.g.dataSize {
      return Ok, gc;
    }
    var neededPages := (len + fs.g.dataSize - 1) / fs.g.dataSize;
    if neededPages > freePages + fs.statsDeleted {
      return ErrFull, gc.(code := ErrFull);
    }
    var tries := 0;
    ghost var s, b;
    while true
      invariant 0 <= tries < MAX_RUNS && fs.Sound() && !fs.cleaning && freePages == FreePages(fs)
      invariant SameContents(old(fs.Disk()), old(fs.files), fs.Disk(), fs.files) && SameOpen(old(fs.fds), fs.fds)
      invariant Collecting(fs.g, gc, StateOf(fs)) && |gc.blocks| == tries && gc.len == len
      invariant FromTo(gc, old(StateOf(fs)), StateOf(fs)) && fs.drift == old(fs.drift) + Wasted(fs.g, gc)
      decreases MAX_RUNS - tries
    {
      var prevFreePages := freePages;
      ghost var v, files, fds := fs.Disk(), fs.files, fs.fds;
      s := StateOf(fs);
      StateRead(fs);
      res, b := CollectOnce(fs);
      StateRead(fs);
      SameOpenTrans(old(fs.fds), fds, fs.fds);
      NextRun(fs.g, gc, s, b, StateOf(fs));
      gc := OneMore(gc, b, StateOf(fs));
      if res != Ok {
        HalfwayFrom(fs.g, fs.Disk(), v, files, old(fs.Disk()), old(fs.files));
        gc := gc.(code := res);
        return;
      }
      SameContentsTrans(old(fs.Disk()), old(fs.files), v, files, fs.Disk(), fs.files);
      freePages := FreePages(fs);
      tries := tries + 1;
      if (prevFreePages <= 0 && prevFreePages == freePages)
         || !(tries < MAX_RUNS && (fs.freeBlocks <= 2 || len > freePages * fs.g.dataSize)) {
        break;
      }
    }
    res := if len > freePages * fs.g.dataSize then ErrFull else Ok;
    gc := gc.(code := res);
  }

  /** How an operation that has collected garbage first has come to its result: the collection has failed, and nothing
      was done after it, or there was room, and if pages have run out later, they have now. */
  ghost predicate Ended(fs: Spiffs, gc: Collection, res: Code)
    reads fs
  {
    && |gc.states| == |gc.blocks| + 1
    && (gc.code != Ok ==> res == gc.code && StateOf(fs) == gc.states[|gc.blocks|])
    && (gc.code == Ok && (res == ErrFull || res == ErrNotFound) ==> fs.Stuck() == Some(res))
  }

  /** The operation has started with a collection for len bytes. */
  ghost predicate Collected(fs: Spiffs, before: GcState, gc: Collection, len: nat, res: Code)
    reads fs
  {
    fs.g.Wf() && Collects(fs.g, gc) && gc.len == len && gc.states[0] == before && Ended(fs, gc, res)
  }

  lemma GcFailed(fs: Spiffs, before: GcState, gc: Collection, len: nat, res: Code)
    requires fs.g.Wf() && Collects(fs.g, gc) && gc.len == len && FromTo(gc, before, StateOf(fs)) && gc.code == res != Ok
    ensures Collected(fs, before, gc, len, res)
  {
    hide Collects;
  }

  lemma GcDone(fs: Spiffs, before: GcState, after: GcState, gc: Collection, len: nat, free: int, res: Code)
    requires fs.g.Wf() && Collects(fs.g, gc) && gc.len == len && FromTo(gc, before, after) && gc.code == Ok
    requires free >= 1 && fs.Ran(free, res)
    ensures Collected(fs, before, gc, len, res)
  {
    hide Collects, Spiffs.Stuck;
  }

  lemma SoundTables(fs: Spiffs)
    requires fs.Sound()
    ensures fs.g.Wf() && fs.TablesOk()
  {}
}
