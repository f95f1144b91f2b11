/** Creating and opening files (spiffs_object_create, spiffs_object_open_by_page). */
module Create {
  import opened Nor
  import opened Layout
  import opened Lookup
  import opened Volumes
  import opened Flash
  import opened Nucleus
  import opened Gc
  import opened Collect
  import opened Editing
  import opened Objects
  import opened Stopped
  import opened Append

  const NEW_HEADER_FLAGS := Flags(false, false, false, true, true)

  /** A free page becomes the header of an object that refers to nothing and whose size has not been set. */
  method WriteNewHeader(fs: Spiffs, objId: Half) returns (res: Code, pix: nat)
    requires fs.g.Wf() && fs.FlashOk() && Live(objId) && objId < FREE
    modifies fs`lu, fs`pages, fs`eraseCounts, fs`freeBlocks, fs`maxEraseCount, fs`drift, fs`statsDeleted
    modifies fs`statsAllocated
    modifies fs`freeCursorBlock, fs`freeCursorEntry
    ensures fs.FlashOk() && fs.drift == old(fs.drift) && (res == Ok || res == ErrFull || res == ErrNotFound)
    ensures res != Ok ==> fs.Disk() == old(fs.Disk())
    ensures !fs.cleaning ==> Paid(old(fs.Budget()), 1, res == Ok, fs.Budget())
    ensures res == Ok ==> pix !in old(fs.Disk()) && pix < fs.g.Pages()
    ensures res == Ok ==>
              fs.Disk() ==
              old(fs.Disk())[pix := Cell(objId, Blank(fs.g).(id := objId, span := 0, flags := NEW_HEADER_FLAGS))]
    ensures !fs.cleaning ==> fs.Ran(old(fs.freeBlocks), res)
  {
    hide Spiffs.AheadNow, Capacity, LuShape, FreeSuffix, FreeBlank, CursorOk, DeletedPages, FreeBlocks, VolumeOf,
         FirstFree, ProgramHeader, Spiffs.FlashOk;
    pix := 0;
    var b, e;
    res, b, e := fs.FindFree();
    if res == Ok {
      pix := PutNewHeader(fs, b, e, objId);
    }
  }

  /** The header goes into the page that has been found. */
  method PutNewHeader(fs: Spiffs, b: nat, e: nat, objId: Half) returns (pix: nat)
    requires fs.g.Wf() && fs.Reserved(b, e) && Live(objId) && objId < FREE
    modifies fs`lu, fs`pages, fs`statsAllocated
    ensures fs.FlashOk() && pix !in old(fs.Disk()) && pix < fs.g.Pages()
    ensures fs.Disk() ==
            old(fs.Disk())[pix := Cell(objId, Blank(fs.g).(id := objId, span := 0, flags := NEW_HEADER_FLAGS))]
    ensures fs.statsAllocated == old(fs.statsAllocated) + 1
  {
    hide LuShape, FreeSuffix, FreeBlank, CursorOk, DeletedPages, FreeBlocks, VolumeOf, FirstFree, ProgramHeader,
         Spiffs.FlashOk;
    ghost var page := Blank(fs.g).(id := objId, span := 0, flags := NEW_HEADER_FLAGS);
    fs.Occupied(b, e, objId, page);
    pix := fs.g.Pix(b, e);
    NewHeaderCell(fs.g, objId);
    var cell := ProgramHeader(fs.pages[pix], objId, 0,
                              NEW_HEADER_FLAGS).(size := And(fs.pages[pix].size, UNDEFINED_LEN));
    assert cell == page;
    fs.Occupy(b, e, objId, cell);
  }

  lemma NewHeaderCell(g: Geometry, objId: Half)
    ensures ProgramHeader(Blank(g), objId, 0, NEW_HEADER_FLAGS).(size := And(WORD_MAX, UNDEFINED_LEN))
            == Blank(g).(id := objId, span := 0, flags := NEW_HEADER_FLAGS)
  {
    ProgramHeaderBlank(g, objId, 0, NEW_HEADER_FLAGS);
    AndWord(UNDEFINED_LEN);
  }

  /** The new file is in order, and so is everything else. */
  lemma CreateStep(g: Geometry, v: Volume, fs: Files, fds: seq<Fd>, o: nat, q: nat, c: Cell, raw: nat)
    requires g.Wf() && Consistent(g, v, fs) && FdsOk(fds, fs) && o !in fs && 1 <= o < IX_FLAG - 1
    requires q !in v && q < g.Pages() && Base(raw) == o
    requires c == Cell(o + IX_FLAG, Blank(g).(id := o + IX_FLAG, span := 0, flags := NEW_HEADER_FLAGS))
    ensures var v', fs', fds' := v[q := c], fs[o := File(UNDEFINED_LEN, [q], [])],
            FdsAfter(fds, IxNew, raw, 0, q, UNDEFINED_LEN);
            && Consistent(g, v', fs') && FdsOk(fds', fs') && Kept(v, fs, v', fs', o)
            && SameOpen(fds, fds') && Bytes(g, v', fs', o) == []
  {
    var v', fs' := v[q := c], fs[o := File(UNDEFINED_LEN, [q], [])];
    CreateFile(g, v, fs, o, q, c);
    SettledOthers(g, v, fs, o);
    KeptFiles(g, v, fs, v', fs', o);
    assert Settled(g, v', fs'[o]);
    EventsKeepOpen(fds, IxNew, raw, 0, q, UNDEFINED_LEN);
    forall i | 0 <= i < |fds|
      ensures var fd := FdAfter(fds[i], IxNew, raw, 0, q, UNDEFINED_LEN);
              && FdLinked(fd, fs')
              && (Base(fd.objId) != 0 ==> FdSized(fd, fs'))
    {
      assert FdLinked(fds[i], fs);
      if Base(fds[i].objId) != 0 {
        assert FdSized(fds[i], fs);
      }
    }
  }

  /** spiffs_object_create: a new, empty file. When a cleaning has failed, one other file may be torn. */
  method CreateObject(fs: Spiffs, o: Half) returns (res: Code, hdrPix: nat, ghost gc: Collection)
    requires fs.Sound() && !fs.cleaning && 1 <= o < IX_FLAG - 1 && o !in fs.files
    modifies fs
    ensures !fs.cleaning && SameOpen(old(fs.fds), fs.fds)
    ensures res == Ok ==> fs.Sound() && o in fs.files && Content(fs, o) == [] && fs.files[o].ixp[..] == [hdrPix]
    ensures res == ErrFull ==> fs.Sound() && o !in fs.files
    ensures fs.g.Wf() && Paid(old(fs.Budget()), 2, res == Ok, fs.Budget())
    ensures fs.FlashOk() && (res == Ok || res == ErrFull || res == ErrNotFound)
    ensures Collected(fs, old(StateOf(fs)), gc, fs.g.dataSize, res)
    ensures res != ErrNotFound ==> OthersSame(fs.g, old(fs.Disk()), old(fs.files), fs.Disk(), fs.files, o)
    ensures res == ErrNotFound ==> Spared(fs.g, fs.Disk(), old(fs.Disk()), old(fs.files), o)
  {
    hide Spared, Halfway, Spiffs.Budget, Spiffs.FlashOk, Consistent, FdsOk, SameContents, OthersSame, Kept, SameOpen,
         Bytes, VolumeOf, Collects, Collected, Spiffs.Ran, FromTo, StateOf;
    ghost var v00, files00, fds00, s00 := fs.Disk(), fs.files, fs.fds, StateOf(fs);
    hdrPix := 0;
    SoundTables(fs);
    RoomFits(fs, 1);
    assert fs.g.dataSize * 1 == fs.g.dataSize;
    res, gc := GcCheck(fs, fs.g.dataSize);
    ghost var s, free := StateOf(fs), fs.freeBlocks;
    if res != Ok {
      GcFailed(fs, s00, gc, fs.g.dataSize, res);
    }
    if res == ErrNotFound {
      HalfwayLeaves(fs.g, fs.Disk(), v00, files00, o);
      return;
    }
    ghost var v, files, fds := fs.Disk(), fs.files, fs.fds;
    SameKeys(v00, files00, v, files);
    KeptRefl(v, files, o);
    if res == Ok {
      res, hdrPix := PlaceHeader(fs, o);
      GcDone(fs, s00, s, gc, fs.g.dataSize, free, res);
      SameOpenTrans(fds00, fds, fs.fds);
    }
    OthersAreSame(fs.g, v00, files00, v, files, fs.Disk(), fs.files, o);
    SameIsSpared(fs, v00, files00, o);
  }

  /** Writes the header of a new file, and announces it. */
  method PlaceHeader(fs: Spiffs, o: Half) returns (res: Code, hdrPix: nat)
    requires fs.Sound() && 1 <= o < IX_FLAG - 1 && o !in fs.files
    modifies fs`lu, fs`pages, fs`eraseCounts, fs`freeBlocks, fs`maxEraseCount, fs`drift, fs`statsDeleted
    modifies fs`statsAllocated
    modifies fs`freeCursorBlock, fs`freeCursorEntry, fs`files, fs`fds
    ensures (res == Ok || res == ErrFull || res == ErrNotFound) && SameOpen(old(fs.fds), fs.fds)
    ensures !fs.cleaning ==> fs.g.Wf() && Paid(old(fs.Budget()), 1, res == Ok, fs.Budget())
    ensures fs.Sound() && Kept(old(fs.Disk()), old(fs.files), fs.Disk(), fs.files, o)
    ensures if res == Ok then fs.files == old(fs.files)[o := File(UNDEFINED_LEN, [hdrPix], [])]
            && Bytes(fs.g, fs.Disk(), fs.files, o) == []
            else fs.files == old(fs.files) && fs.Disk() == old(fs.Disk())
    ensures !fs.cleaning ==> fs.Ran(old(fs.freeBlocks), res)
  {
    hide Spiffs.Budget, Spiffs.Stuck, Spiffs.FlashOk, Consistent, FdsOk, Kept, SameOpen, FdsAfter, Bytes, VolumeOf;
    ghost var v, files, fds := fs.Disk(), fs.files, fs.fds;
    KeptRefl(v, files, o);
    SameOpenRefl(fds);
    FlashWf(fs);
    res, hdrPix := WriteNewHeader(fs, o + IX_FLAG);
    if res == Ok {
      CreateStep(fs.g, v, files, fds, o, hdrPix, fs.Disk()[hdrPix], o + IX_FLAG);
      fs.ObjectEvent(IxNew, o + IX_FLAG, 0, hdrPix, UNDEFINED_LEN);
      fs.files := files[o := File(UNDEFINED_LEN, [hdrPix], [])];
    }
  }

  lemma FlashWf(fs: Spiffs)
    requires fs.FlashOk()
    ensures fs.g.Wf()
  {}

  lemma SameKeys(v: Volume, fs: Files, v': Volume, fs': Files)
    requires SameContents(v, fs, v', fs')
    ensures fs.Keys == fs'.Keys
  {}

  /** spiffs_object_open_by_page with the header page of a file, for a descriptor just taken. */
  method OpenByPage(fs: Spiffs, h: nat, pix: nat, fileNbr: nat, score: nat) returns (res: Code)
    requires fs.Sound() && h < |fs.fds| && fs.fds[h].fileNbr == 0 && fileNbr > 0 && score > 0
    requires exists o {:trigger fs.files[o]} :: o in fs.files && |fs.files[o].ixp| > 0 && fs.files[o].ixp[0] == pix
    modifies fs`fds
    ensures res == Ok && fs.Sound()
    ensures |fs.fds| == |old(fs.fds)| && forall i :: 0 <= i < |fs.fds| && i != h ==> fs.fds[i] == old(fs.fds)[i]
    ensures fs.fds[h].fileNbr == fileNbr && Base(fs.fds[h].objId) in fs.files
    ensures var f := fs.files[Base(fs.fds[h].objId)]; |f.ixp| > 0 && f.ixp[0] == pix
  {
    hide FreeSuffix, FreeBlank, CursorOk, DeletedPages, FreeBlocks, Consistent;
    ghost var o :| o in fs.files && |fs.files[o].ixp| > 0 && fs.files[o].ixp[0] == pix;
    HeaderFacts(fs, o);
    fs.SourcePage(pix);
    var hdr, objId := fs.pages[pix], fs.lu[pix];
    ghost var fds := fs.fds;
    fs.fds := fs.fds[h := Fd(fileNbr, score, objId, hdr.size, pix, pix, 0)];
    assert FdsOk(fs.fds, fs.files) by {
      forall i | 0 <= i < |fs.fds|
        ensures FdLinked(fs.fds[i], fs.files) && (Base(fs.fds[i].objId) != 0 ==> FdSized(fs.fds[i], fs.files))
      {
        if i != h {
          assert FdLinked(fds[i], fs.files);
        }
      }
    }
    res := ValidObjIx(hdr, objId, 0);
  }

  lemma HeaderFacts(fs: Spiffs, o: nat)
    requires fs.Sound() && o in fs.files
    ensures 1 <= o < IX_FLAG - 1 && |fs.files[o].ixp| > 0 && fs.files[o].ixp[0] in fs.Disk()
    ensures var c := fs.Disk()[fs.files[o].ixp[0]];
            && c.id == o + IX_FLAG && c.page.size == fs.files[o].size
            && ValidObjIx(c.page, o + IX_FLAG, 0) == Ok
  {
    ConsistentFile(fs.g, fs.Disk(), fs.files, o);
    IndexOf(fs.g, fs.Disk(), o, fs.files[o], 0);
  }
}
