/** The parts that the operations on objects share (spiffs_nucleus.c): loading index pages into the
    work buffer and storing them. */
module Objects {
  import opened Wrappers
  import opened Nor
  import opened Layout
  import opened Lookup
  import opened Volumes
  import opened Contents
  import opened Flash
  import opened Nucleus
  import opened Gc
  import opened Editing
  import opened Remains

  predicate Open(fds: seq<Fd>, h: nat, o: nat) {
    h < |fds| && fds[h].fileNbr != 0 && fds[h].objId == o + IX_FLAG && 1 <= o < IX_FLAG - 1
  }

  /** File o is being changed through descriptor h, and index page k is in the work buffer. */
  ghost predicate Writing(fs: Spiffs, h: nat, o: nat, k: nat, x: nat, v0: Volume, files0: Files, pd: seq<seq<Byte>>)
    reads fs
  {
    && fs.g.Wf() && fs.FlashOk() && !fs.cleaning && Open(fs.fds, h, o)
    && Draft(fs.g, fs.Disk(), fs.files, fs.fds, o, k, x, fs.work)
    && Progress(v0, files0, Pending(fs.Disk(), x, o, fs.work), fs.files, o, pd)
  }

  /** File o is being changed through descriptor h, and all its index pages are on the flash. */
  ghost predicate Resting(fs: Spiffs, h: nat, o: nat, v0: Volume, files0: Files, pd: seq<seq<Byte>>)
    reads fs
  {
    && fs.g.Wf() && fs.FlashOk() && !fs.cleaning && Open(fs.fds, h, o)
    && o in fs.files && Saved(fs.g, fs.Disk(), fs.files, fs.fds, o)
    && Progress(v0, files0, fs.Disk(), fs.files, o, pd)
  }

  /** What holds however an operation ends: nothing of the other files has changed. */
  ghost predicate Safe(fs: Spiffs, o: nat, v0: Volume, files0: Files)
    reads fs
  {
    fs.g.Wf() && fs.FlashOk() && !fs.cleaning && Kept(v0, files0, fs.Disk(), fs.files, o)
  }

  /** Every open descriptor of the object has the given size. */
  ghost predicate SizesAre(fds: seq<Fd>, o: nat, size: nat) {
    forall i :: 0 <= i < |fds| && Base(fds[i].objId) == o && fds[i].fileNbr != 0 ==> fds[i].size == size
  }

  lemma WritingSafe(fs: Spiffs, h: nat, o: nat, k: nat, x: nat, v0: Volume, files0: Files, pd: seq<seq<Byte>>)
    requires Writing(fs, h, o, k, x, v0, files0, pd)
    ensures Safe(fs, o, v0, files0)
  {
    PendingKept(v0, files0, fs.Disk(), fs.files, o, k, x, fs.work);
  }

  /** The index page that descriptor h believes to be the header is. */
  lemma HeaderOf(g: Geometry, v: Volume, files: Files, fds: seq<Fd>, h: nat, o: nat)
    requires g.Wf() && Saved(g, v, files, fds, o) && Open(fds, h, o)
    ensures |files[o].ixp| > 0 && fds[h].hdrPix == files[o].ixp[0] && fds[h].score > 0
    ensures fds[h].cursorSpix < |files[o].ixp| ==> fds[h].cursorPix == files[o].ixp[fds[h].cursorSpix]
  {
    assert FdLinked(fds[h], files);
  }

  /** Events other than deletion leave a descriptor open. */
  lemma StaysOpen(fds: seq<Fd>, h: nat, o: nat, ev: Event, raw: nat, k: nat, q: nat, newSize: nat)
    requires Open(fds, h, o) && ev != IxDel
    ensures Open(FdsAfter(fds, ev, raw, k, q, newSize), h, o) && SameOpen(fds, FdsAfter(fds, ev, raw, k, q, newSize))
  {}

  /** After the header has been announced with a size, all descriptors have it. */
  lemma SizesSet(fds: seq<Fd>, files: Files, h: nat, o: nat, ev: Event, raw: nat, q: nat, size: nat)
    requires FdsLinked(fds, files) && ev != IxDel && Base(raw) == o && Open(fds, h, o)
    ensures size != 0 ==> SizesAre(FdsAfter(fds, ev, raw, 0, q, size), o, size)
    ensures HdrMoved(FdsAfter(fds, ev, raw, 0, q, size), Some(h), q) == FdsAfter(fds, ev, raw, 0, q, size)
  {
    forall i | 0 <= i < |fds|
      ensures FdLinked(fds[i], files)
    {}
  }

  /** The files after the header of file o has moved to page q. */
  ghost function HeaderAt(files: Files, o: nat, q: nat): Files
    requires o in files && |files[o].ixp| > 0
  {
    files[o := files[o].(ixp := files[o].ixp[0 := q])]
  }

  /** The header in the buffer has been stored in page q, with a new size unless that is 0. */
  lemma HeaderStored(g: Geometry, v0: Volume, files0: Files, v: Volume, files: Files, fds: seq<Fd>, h: nat, o: nat,
      x: nat, work: Page,
                     pd: seq<seq<Byte>>, size: Word, q: nat, ev: Event)
    requires g.Wf() && Draft(g, v, files, fds, o, 0, x, work)
    requires Progress(v0, files0, Pending(v, x, o, work), files, o, pd)
    requires Open(fds, h, o) && q !in v && q < g.Pages() && ev != IxDel
    ensures var work' := work.(size := if size != 0 then size else work.size);
            var v', files', fds' := (v - {x})[q := Cell(o + IX_FLAG, work')], HeaderAt(files, o, q),
                                    HdrMoved(FdsAfter(fds, ev, o + IX_FLAG, 0, q, work'.size), Some(h), q);
            && Saved(g, v', files', fds', o) && Progress(v0, files0, v', files', o, pd)
            && Open(fds', h, o) && SameOpen(fds, fds') && IndexAt(v', files', o, 0, q)
            && (work'.size != 0 ==> SizesAre(fds', o, work'.size)) && HeaderSize(v', files'[o]) == work'.size
  {
    hide Saved, Progress, FdsAfter;
    var work' := work.(size := if size != 0 then size else work.size);
    Retouch(g, v0, files0, v, files, fds, o, 0, x, work, pd, work');
    StoredAway(g, v0, files0, v, files, fds, o, 0, x, work', pd, q, ev, o + IX_FLAG, work'.size);
    SizesSet(fds, files, h, o, ev, o + IX_FLAG, q, work'.size) by { DraftFds(g, v, files, fds, o, 0, x, work); }
    StaysOpen(fds, h, o, ev, o + IX_FLAG, 0, q, work'.size);
  }

  lemma DraftFds(g: Geometry, v: Volume, files: Files, fds: seq<Fd>, o: nat, k: nat, x: nat, work: Page)
    requires g.Wf() && Draft(g, v, files, fds, o, k, x, work)
    ensures FdsLinked(fds, files)
  {}

  lemma DraftSaved(g: Geometry, v: Volume, files: Files, fds: seq<Fd>, o: nat, k: nat, x: nat, work: Page)
    requires g.Wf() && Draft(g, v, files, fds, o, k, x, work)
    ensures Saved(g, Pending(v, x, o, work), files, fds, o) && IndexAt(v, files, o, k, x)
  {}

  /** Writes the buffer over the index page. */
  method StoreInPlace(fs: Spiffs, h: nat, o: nat, k: nat, x: nat, ghost v0: Volume, ghost files0: Files,
      ghost pd: seq<seq<Byte>>)
    requires Writing(fs, h, o, k, x, v0, files0, pd) && FillsIn(fs.Disk()[x].page, fs.work)
    modifies fs`pages
    ensures Resting(fs, h, o, v0, files0, pd)
    ensures x in fs.Disk() && fs.Disk()[x] == Cell(o + IX_FLAG, fs.work)
    ensures fs.Disk() == Pending(old(fs.Disk()), x, o, fs.work)
  {
    hide Spiffs.FlashOk, Saved, Progress, FillsIn;
    StoredInPlace(fs.g, fs.Disk(), fs.files, fs.fds, o, k, x, fs.work);
    fs.WriteIndex(x, fs.work);
  }

  /** Stores the header in the work buffer in a new page, with the size unless that is 0. */
  method StoreHeader(fs: Spiffs, h: nat, o: nat, x: nat, size: Word, ghost v0: Volume, ghost files0: Files,
      ghost pd: seq<seq<Byte>>)
    returns (res: Code)
    requires Writing(fs, h, o, 0, x, v0, files0, pd)
    modifies fs
    ensures Paid(old(fs.Budget()), 1, res == Ok, fs.Budget())
    ensures SameOpen(old(fs.fds), fs.fds)
    ensures Safe(fs, o, v0, files0) && (res == Ok || res == ErrFull || res == ErrNotFound)
    ensures res == Ok ==> Resting(fs, h, o, v0, files0, pd)
    ensures res != Ok ==> fs.Disk() == old(fs.Disk())
    ensures res == Ok ==> fs.work == old(fs.work).(size := if size != 0 then size else old(fs.work).size)
    ensures res == Ok ==>
              IndexAt(fs.Disk(), fs.files, o, 0, fs.files[o].ixp[0]) && fs.Disk()[fs.files[o].ixp[0]].page == fs.work
    ensures res == Ok && fs.work.size != 0 ==> SizesAre(fs.fds, o, fs.work.size)
    ensures res == Ok ==>
              && fs.files == old(fs.files)[o := old(fs.files)[o].(ixp := fs.files[o].ixp)]
              && |fs.files[o].ixp| == |old(fs.files)[o].ixp|
    ensures fs.Ran(old(fs.freeBlocks), res) && fs.StillStuck(old(fs.Stuck()), res)
  {
    hide Spiffs.Budget, Spiffs.Stuck, Spiffs.FlashOk, Draft, Pending, VolumeOf, Saved, Progress, FdsAfter, Kept,
         SizesAre, SameOpen;
    ghost var v, files, fds, work := fs.Disk(), fs.files, fs.fds, fs.work;
    WritingSafe(fs, h, o, 0, x, v0, files0, pd);
    SameOpenRefl(fds);
    DraftIndex(fs.g, v, files, fds, o, 0, x, work);
    DraftSaved(fs.g, v, files, fds, o, 0, x, work);
    HeaderOf(fs.g, Pending(v, x, o, work), files, fds, h, o);
    var newPix;
    res, newPix := fs.UpdateIndexHdr(Some(h), fs.fds[h].objId, fs.fds[h].hdrPix, true, size);
    if res == Ok {
      HeaderStored(fs.g, v0, files0, v, files, fds, h, o, x, work, pd, size, newPix, IxUpd);
      fs.files := HeaderAt(files, o, newPix);
      RestingSafe(fs, h, o, v0, files0, pd);
    }
  }

  lemma RestingSafe(fs: Spiffs, h: nat, o: nat, v0: Volume, files0: Files, pd: seq<seq<Byte>>)
    requires Resting(fs, h, o, v0, files0, pd)
    ensures Safe(fs, o, v0, files0)
  {}

  /** With all index pages on the flash the file reads as what its header promises of its data pages. */
  lemma RestingReads(fs: Spiffs, h: nat, o: nat, v0: Volume, files0: Files, pd: seq<seq<Byte>>, size: nat)
    requires Resting(fs, h, o, v0, files0, pd) && o in files0 && HeaderLive(v0, files0[o])
    requires HeaderSize(fs.Disk(), fs.files[o]) == size && Length(size) <= Times(|pd|, fs.g.dataSize)
    ensures Reads(fs.g, fs.Disk(), o, Flatten(pd, fs.g.dataSize, Length(size)))
  {
    hide Reads, Flatten, PageData;
    SavedParts(fs.g, fs.Disk(), fs.files, fs.fds, o);
    LinkedReads(fs.g, fs.Disk(), o, fs.files[o]);
  }

  lemma SavedParts(g: Geometry, v: Volume, files: Files, fds: seq<Fd>, o: nat)
    requires g.Wf() && Saved(g, v, files, fds, o)
    ensures FileLinked(g, v, o, files[o]) && forall s :: 0 <= s < |files[o].dap| ==> files[o].dap[s] < FREE
  {
    assert FileLinked(g, v, o, files[o]);
    forall s | 0 <= s < |files[o].dap|
      ensures files[o].dap[s] < FREE
    {
      assert HasFile(g, v, files, files[o].dap[s]);
    }
  }

  /** Every file of a file system in order reads as its bytes. */
  lemma SoundReads(fs: Spiffs, o: nat)
    requires fs.Sound() && o in fs.files
    ensures fs.g.Wf() && Reads(fs.g, fs.Disk(), o, Content(fs, o))
  {
    hide Reads, Flatten, PageData;
    Begin(fs.g, fs.Disk(), fs.files, fs.fds, o);
    SavedParts(fs.g, fs.Disk(), fs.files, fs.fds, o);
    FileReads(fs.g, fs.Disk(), o, fs.files[o]);
  }

  /** Stores the header with a new size; the header page on the flash is read for that. */
  method UpdateSize(fs: Spiffs, h: nat, o: nat, size: Word, ghost v0: Volume, ghost files0: Files,
      ghost pd: seq<seq<Byte>>) returns (res: Code)
    requires Resting(fs, h, o, v0, files0, pd)
    modifies fs
    ensures Paid(old(fs.Budget()), 1, res == Ok, fs.Budget())
    ensures SameOpen(old(fs.fds), fs.fds)
    ensures Safe(fs, o, v0, files0) && (res == Ok || res == ErrFull || res == ErrNotFound)
    ensures res == Ok ==> Resting(fs, h, o, v0, files0, pd)
    ensures res == Ok && size != 0 ==> SizesAre(fs.fds, o, size)
    ensures res == Ok ==>
              && fs.files == old(fs.files)[o := old(fs.files)[o].(ixp := fs.files[o].ixp)]
              && |fs.files[o].ixp| == |old(fs.files)[o].ixp|
    ensures res != Ok ==> fs.Disk() == old(fs.Disk())
    ensures res == Ok ==> fs.files[o].ixp[1..] == old(fs.files)[o].ixp[1..]
    ensures res == Ok ==>
              IndexAt(fs.Disk(), fs.files, o, 0, fs.files[o].ixp[0]) && fs.Disk()[fs.files[o].ixp[0]].page == fs.work
    ensures res == Ok && size != 0 ==> fs.work.size == size
    ensures fs.Ran(old(fs.freeBlocks), res) && fs.StillStuck(old(fs.Stuck()), res)
  {
    hide Spiffs.Budget, Spiffs.Stuck, Spiffs.FlashOk, Pending, VolumeOf, Saved, Progress, FdsAfter, Kept, SizesAre,
         SameOpen;
    ghost var v, files, fds := fs.Disk(), fs.files, fs.fds;
    SameOpenRefl(fds);
    RestingSafe(fs, h, o, v0, files0, pd);
    HeaderOf(fs.g, v, files, fds, h, o);
    SavedIndex(fs.g, v, files, fds, o, 0);
    ghost var x := files[o].ixp[0];
    ghost var work := v[x].page;
    var newPix;
    res, newPix := fs.UpdateIndexHdr(Some(h), fs.fds[h].objId, fs.fds[h].hdrPix, false, size);
    if res == Ok {
      HeaderStored(fs.g, v0, files0, v, files, fds, h, o, x, work, pd, size, newPix, IxUpdHdr);
      fs.files := HeaderAt(files, o, newPix);
      RestingSafe(fs, h, o, v0, files0, pd);
    }
  }

  /** Finds index page k of the file and loads it: the header and, if asked for, the page the
      cursor is on are known, others are searched for. */
  method LoadIndex(fs: Spiffs, h: nat, o: nat, k: nat, useCursor: bool, ghost v0: Volume, ghost files0: Files,
      ghost pd: seq<seq<Byte>>)
    returns (res: Code, x: nat)
    requires Resting(fs, h, o, v0, files0, pd) && k < |fs.files[o].ixp| && k <= HALF_MAX
    modifies fs`work, fs`cursorBlock, fs`cursorEntry
    ensures res == Ok && Writing(fs, h, o, k, x, v0, files0, pd) && Pending(fs.Disk(), x, o, fs.work) == fs.Disk()
    ensures fs.work == fs.Disk()[x].page
  {
    hide FreeSuffix, FreeBlank, CursorOk, DeletedPages, FreeBlocks, VolumeOf, LuShape, Saved, Progress, FdsAfter,
         Kept, SizesAre, Matches, Draft, Pending;
    ghost var v := fs.Disk();
    FlashSearchable(fs);
    HeaderOf(fs.g, v, fs.files, fs.fds, h, o);
    SavedIndex(fs.g, v, fs.files, fs.fds, o, k);
    if k == 0 {
      x := fs.fds[h].hdrPix;
    } else if useCursor && fs.fds[h].cursorSpix == k {
      x := fs.fds[h].cursorPix;
    } else {
      res, x := fs.FindIdAndSpan(fs.fds[h].objId, k, 0);
      assert fs.files[o].ixp[k] in fs.Disk();
      SavedFound(fs.g, v, fs.files, fs.fds, o, k, x);
    }
    Loaded(fs, x);
    fs.work := fs.pages[x];
    res := ValidObjIx(fs.work, fs.fds[h].objId, k);
  }

  lemma FlashSearchable(fs: Spiffs)
    requires fs.FlashOk()
    ensures LuShape(fs.g, fs.lu) && |fs.pages| == |fs.lu| && fs.cursorBlock < fs.g.blocks
  {}

  /** Reading a live page into the buffer leaves everything else in order. */
  lemma Loaded(fs: Spiffs, x: nat)
    requires fs.FlashOk() && x in fs.Disk()
    ensures x < |fs.pages| && fs.pages[x] == fs.Disk()[x].page && PageShape(fs.g, fs.pages[x])
  {}

  /** spiffs_page_data_check and spiffs_page_index_check: what is known of a page index before the
      page is looked at. */
  function PageCheck(g: Geometry, pix: nat): Code
    requires g.Wf()
  {
    if pix == FREE then ErrIndexRefFree
    else if g.IsLookupPage(pix) then ErrIndexRefLu
    else if pix > g.Pages() then ErrIndexRefInvalid
    else Ok
  }

  /** Live pages pass the check. */
  lemma LivePage(fs: Spiffs, p: nat)
    requires fs.FlashOk() && p in fs.Disk()
    ensures p < fs.g.Pages() && PageCheck(fs.g, p) == Ok
  {
    assert !fs.g.IsLookupPage(p);
  }

  /** The bytes of a file. */
  ghost function Bytes(g: Geometry, v: Volume, files: Files, o: nat): seq<Byte>
    requires g.Wf() && o in files
  {
    Flatten(PageData(v, files[o]), g.dataSize, Length(files[o].size))
  }

  ghost function Content(fs: Spiffs, o: nat): seq<Byte>
    requires fs.g.Wf() && o in fs.files
    reads fs`lu, fs`pages, fs`files
  {
    Bytes(fs.g, fs.Disk(), fs.files, o)
  }

  /** What a descriptor of a file in order says of it. */
  lemma OpenFile(fs: Spiffs, h: nat)
    requires fs.Sound() && h < |fs.fds| && fs.fds[h].fileNbr != 0
    ensures fs.g.Wf() && Base(fs.fds[h].objId) in fs.files && Open(fs.fds, h, Base(fs.fds[h].objId))
    ensures Length(fs.fds[h].size) == Length(fs.files[Base(fs.fds[h].objId)].size)
    ensures fs.fds[h].size <= UNDEFINED_LEN
  {
    assert FdLinked(fs.fds[h], fs.files);
    ConsistentFile(fs.g, fs.Disk(), fs.files, Base(fs.fds[h].objId));
    assert FdSized(fs.fds[h], fs.files);
  }

  /** A search for an index page of an object would come back with page p. */
  predicate Finds(v: Volume, id: nat, span: nat, p: nat) {
    p in v && v[p].id == id && Matches(v[p].page, id, span, 0, p)
  }

  /** On a file system in order each index page of a file, and no other page, is found by a search. */
  lemma FindsIndex(g: Geometry, v: Volume, files: Files, o: nat, k: nat, p: nat)
    requires g.Wf() && Consistent(g, v, files) && o in files && 1 <= o < IX_FLAG - 1
    ensures Finds(v, o + IX_FLAG, k, p) <==> k < |files[o].ixp| && files[o].ixp[k] == p
  {
    ConsistentFile(g, v, files, o);
    if k < |files[o].ixp| {
      IndexOf(g, v, o, files[o], k);
    }
  }

  /** What an open descriptor remembers is what a fresh search finds: its header page is the one live header of its
      object, and its cursor page the one live index page at the cursor's span, if there is any. */
  lemma DescriptorAgrees(fs: Spiffs, h: nat, p: nat, q: nat)
    requires fs.Sound() && h < |fs.fds| && fs.fds[h].fileNbr != 0
    ensures var fd := fs.fds[h];
            && (Finds(fs.Disk(), fd.objId, 0, p) <==> p == fd.hdrPix)
            && (Finds(fs.Disk(), fd.objId, fd.cursorSpix, q) ==>
                (Finds(fs.Disk(), fd.objId, fd.cursorSpix, p) <==> p == fd.cursorPix))
  {
    hide Consistent, Finds;
    var fd := fs.fds[h];
    var o := Base(fd.objId);
    OpenFile(fs, h);
    assert FdLinked(fd, fs.files);
    FindsIndex(fs.g, fs.Disk(), fs.files, o, 0, p);
    FindsIndex(fs.g, fs.Disk(), fs.files, o, fd.cursorSpix, p);
    FindsIndex(fs.g, fs.Disk(), fs.files, o, fd.cursorSpix, q);
  }
}
