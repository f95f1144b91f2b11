/** Appending to a file (spiffs_object_append). */
module Append {
  import opened Wrappers
  import opened Nor
  import opened Layout
  import opened Volumes
  import opened Contents
  import opened Flash
  import opened Nucleus
  import opened Gc
  import opened Collect
  import opened Editing
  import opened Remains
  import opened Objects
  import opened Stopped

  // ---------- sizes and bytes ----------

  /** The page and the offset in it where byte n of a file goes, if the file ends before it. */
  lemma SizedSpan(g: Geometry, pd: seq<seq<Byte>>, n: nat)
    requires g.Wf() && Sized(g, pd, n)
    ensures n == Times(Quot(n, g.dataSize), g.dataSize) + Rem(n, g.dataSize) && Rem(n, g.dataSize) < g.dataSize
    ensures |pd| == if Rem(n, g.dataSize) == 0 then Quot(n, g.dataSize) else Quot(n, g.dataSize) + 1
    ensures n > 0 ==> Quot(n - 1, g.dataSize) == |pd| - 1
  {
    QuotRem(n, g.dataSize);
    if n > 0 {
      var s := |pd| - 1;
      var r := n - Times(s, g.dataSize);
      QuotUnique(n - 1, g.dataSize, s, r - 1);
      if r == g.dataSize {
        QuotUnique(n, g.dataSize, s + 1, 0);
      } else {
        QuotUnique(n, g.dataSize, s, r);
      }
    }
  }

  lemma SizeBound(g: Geometry, pd: seq<seq<Byte>>, n: nat)
    requires g.Wf() && Sized(g, pd, n) && |pd| <= FREE
    ensures n < UNDEFINED_LEN
  {
    TimesIs(|pd|, g.dataSize);
    if |pd| > 0 {
      MulNonneg(FREE - |pd|, g.dataSize);
      assert |pd| * g.dataSize <= FREE * g.dataSize;
    }
  }

  /** A new page at the end. */
  lemma ChunkAdded(g: Geometry, pd: seq<seq<Byte>>, n: nat, chunk: seq<Byte>, page: seq<Byte>)
    requires g.Wf() && n == Times(|pd|, g.dataSize) && 0 < |chunk| <= g.dataSize
    requires |page| == g.dataSize && chunk <= page && forall i :: |chunk| <= i < g.dataSize ==> page[i] == 0xff
    ensures Sized(g, pd + [page], n + |chunk|)
    ensures Flatten(pd + [page], g.dataSize, n + |chunk|) == Flatten(pd, g.dataSize, n) + chunk
  {
    hide Flatten, Geometry.Wf;
    var pd' := pd + [page];
    assert |pd'| - 1 == |pd| && pd'[|pd|] == page && Times(|pd'|, g.dataSize) == n + g.dataSize;
    FlattenAppend(pd, g.dataSize, chunk, page);
  }

  /** More bytes in the last page. */
  lemma ChunkFilledIn(g: Geometry, pd: seq<seq<Byte>>, n: nat, po: nat, chunk: seq<Byte>)
    requires g.Wf() && Sized(g, pd, n) && |pd| > 0 && n == Times(|pd| - 1, g.dataSize) + po && 0 < po
    requires po + |chunk| <= g.dataSize
    ensures var last := pd[|pd| - 1]; |last| == g.dataSize && forall i :: po <= i < g.dataSize ==> last[i] == 0xff
    ensures var pd' := pd[|pd| - 1 := Patch(pd[|pd| - 1], po, chunk)];
            && Sized(g, pd', n + |chunk|)
            && Flatten(pd', g.dataSize, n + |chunk|) == Flatten(pd, g.dataSize, n) + chunk
  {
    FlattenPatch(pd, g.dataSize, n, n + |chunk|, |pd| - 1, po, chunk);
    assert Write(Flatten(pd, g.dataSize, n), n, chunk) == Flatten(pd, g.dataSize, n) + chunk;
  }

  // ---------- a new index page ----------

  /** Adds index page k, and has it in the work buffer. */
  method NewIndex(fs: Spiffs, h: nat, o: nat, k: nat, ghost n: nat, ghost v0: Volume, ghost files0: Files,
      ghost pd: seq<seq<Byte>>) returns (res: Code, x: nat)
    requires Resting(fs, h, o, v0, files0, pd) && k == |fs.files[o].ixp| && k <= HALF_MAX
    modifies fs
    ensures Paid(old(fs.Budget()), 1, res == Ok, fs.Budget())
    ensures SameOpen(old(fs.fds), fs.fds)
    ensures Safe(fs, o, v0, files0) && (res == Ok || res == ErrFull || res == ErrNotFound)
    ensures res == Ok ==>
              && Writing(fs, h, o, k, x, v0, files0, pd) && Pending(fs.Disk(), x, o, fs.work) == fs.Disk()
              && fs.work == fs.Disk()[x].page
    ensures res == Ok ==> fs.files == old(fs.files)[o := old(fs.files)[o].(ixp := old(fs.files)[o].ixp + [x])]
    ensures StillReads(fs.g, old(fs.Disk()), fs.Disk(), o, n)
    ensures fs.Ran(old(fs.freeBlocks), res)
  {
    hide Spiffs.Budget, Spiffs.Stuck, Spiffs.FlashOk, Saved, Progress, FdsAfter, Kept, StillReads;
    ghost var v, files, fds := fs.Disk(), fs.files, fs.fds;
    SavedParts(fs.g, v, files, fds, o);
    StillReadsRefl(fs.g, v, o, n);
    RestingSafe(fs, h, o, v0, files0, pd);
    var hdr := Header(fs.fds[h].objId, k, Flags(true, false, false, true, true));
    res, x, hdr := fs.AllocateData(fs.fds[h].objId, hdr, None, 0, true);
    if res == Ok {
      // the new index page needs no reading: its fields are put together in the buffer
      var page := Blank(fs.g).(id := hdr.id, span := hdr.span, flags := hdr.flags);
      NoteIndex(fs, page, IxNew, fs.fds[h].objId, k, x, files[o := files[o].(ixp := files[o].ixp + [x])]);
      NewIndexStep(fs.g, v0, files0, v, files, fds, o, pd, x, Cell(o + IX_FLAG, fs.work), o + IX_FLAG);
      IndexPageAdded(fs.g, v, o, files[o], x, Cell(o + IX_FLAG, fs.work), n);
      StaysOpen(fds, h, o, IxNew, o + IX_FLAG, k, x, 0);
      RestingSafe(fs, h, o, v0, files0, pd);
      SavedIndex(fs.g, fs.Disk(), fs.files, fs.fds, o, k);
    }
  }

  /** The index page stored is in the buffer, and the descriptors are told. */
  method NoteIndex(fs: Spiffs, page: Page, ev: Event, objId: Half, k: nat, x: nat, ghost files: Files)
    requires fs.FlashOk() && PageShape(fs.g, page)
    modifies fs`work, fs`fds, fs`files
    ensures fs.FlashOk() && fs.work == page && fs.files == files
    ensures fs.fds == FdsAfter(old(fs.fds), ev, objId, k, x, 0)
  {
    hide Spiffs.FlashOk, FdsAfter;
    fs.SetWork(page);
    fs.ObjectEvent(ev, objId, k, x, 0);
    fs.files := files;
  }

  // ---------- data ----------

  /** Whether the buffer can be written over index page k in place, as will be done with all pages
      but the header of a file that had bytes before. */
  ghost predicate InPlace(p: Page, work: Page, k: nat, off: nat) {
    k > 0 || off == 0 ==>
      && FillsIn(p, work.(size := p.size))
      && (if k == 0 then p.size == WORD_MAX else p.size == work.size)
  }

  /** The first n bytes of the file have been written, and index page k, its last one, is in the buffer. */
  ghost predicate Appending(fs: Spiffs, h: nat, o: nat, k: nat, x: nat, v0: Volume, files0: Files, pd: seq<seq<Byte>>,
      off: nat, n: nat)
    reads fs
  {
    && fs.g.Wf() && Writing(fs, h, o, k, x, v0, files0, pd)
    && |fs.files[o].ixp| == k + 1
    && Sized(fs.g, pd, n)
    && InPlace(fs.Disk()[x].page, fs.work, k, off)
    && o in files0 && HeaderLive(v0, files0[o])
  }

  lemma EntryFilled(p: Page, work: Page, k: nat, off: nat, e: nat, q: Half)
    requires InPlace(p, work, k, off) && e < |work.ix| && work.ix[e] == FREE
    ensures InPlace(p, work.(ix := work.ix[e := q]), k, off)
  {}

  /** A chunk at the start of a page goes into a new data page. */
  method AddPage(fs: Spiffs, h: nat, o: nat, k: nat, x: nat, dataSpix: Half, chunk: seq<Byte>,
                 ghost v0: Volume, ghost files0: Files, ghost pd: seq<seq<Byte>>, ghost off: nat, ghost n: nat)
    returns (res: Code, ghost pd': seq<seq<Byte>>)
    requires Appending(fs, h, o, k, x, v0, files0, pd, off, n) && 0 < |chunk| <= fs.g.dataSize
    requires dataSpix == |pd| && n == Times(dataSpix, fs.g.dataSize) && k == fs.g.IxSpan(dataSpix)
    modifies fs
    ensures Paid(old(fs.Budget()), 1, res == Ok, fs.Budget())
    ensures res == Ok || res == ErrFull || res == ErrNotFound
    ensures fs.work.size == old(fs.work.size) && fs.fds == old(fs.fds)
    ensures res != Ok ==> Appending(fs, h, o, k, x, v0, files0, pd, off, n)
    ensures res == Ok ==> Appending(fs, h, o, k, x, v0, files0, pd', off, n + |chunk|)
    ensures res == Ok ==>
              Flatten(pd', fs.g.dataSize, n + |chunk|) == Flatten(pd, fs.g.dataSize, n) + chunk && |pd'| == |pd| + 1
    ensures StillReads(fs.g, old(fs.Disk()), fs.Disk(), o, n)
    ensures fs.Ran(old(fs.freeBlocks), res)
  {
    hide Spiffs.Budget, Spiffs.Stuck, Spiffs.FlashOk, Draft, Pending, VolumeOf, Progress, Kept, Sized, InPlace,
         StillReads, HeaderLive, Flatten;
    ghost var v, files, work := fs.Disk(), fs.files, fs.work;
    pd' := pd;
    StillReadsRefl(fs.g, v, o, n);
    DraftIndex(fs.g, v, files, fs.fds, o, k, x, work);
    var hdr := Header(Base(fs.fds[h].objId), dataSpix, Flags(true, false, true, true, true));
    var q;
    res, q, hdr := fs.AllocateData(Base(fs.fds[h].objId), hdr, Some(chunk), 0, true);
    if res == Ok {
      ghost var c := fs.Disk()[q];
      pd' := pd + [c.page.data];
      assert |files[o].dap| == |pd| by { ProgressLen(v0, files0, Pending(v, x, o, work), files, o, pd); }
      AppendStep(fs.g, v0, files0, v, files, fs.fds, o, k, x, work, pd, q, c);
      PageAdded(fs.g, v, o, q, c, n);
      EntryFilled(v[x].page, work, k, off, fs.g.IxEntry(dataSpix), q);
      ChunkAdded(fs.g, pd, n, chunk, c.page.data);
      NoteEntry(fs, fs.g.IxEntry(dataSpix), q, files[o := files[o].(dap := files[o].dap + [q])]);
    }
  }

  lemma ProgressLen(v0: Volume, fs0: Files, v: Volume, fs: Files, o: nat, pd: seq<seq<Byte>>)
    requires Progress(v0, fs0, v, fs, o, pd)
    ensures o in fs && |fs[o].dap| == |pd| && PageData(v, fs[o]) == pd
  {}

  /** A chunk that does not start a page is written into the last data page, which is still erased there. */
  method FillPage(fs: Spiffs, h: nat, o: nat, k: nat, x: nat, dataSpix: Half, pageOffs: nat, chunk: seq<Byte>,
                  ghost v0: Volume, ghost files0: Files, ghost pd: seq<seq<Byte>>, ghost off: nat, ghost n: nat)
    returns (res: Code, ghost pd': seq<seq<Byte>>)
    requires Appending(fs, h, o, k, x, v0, files0, pd, off, n) && 0 < pageOffs && pageOffs + |chunk| <= fs.g.dataSize
    requires dataSpix == |pd| - 1 && n == Times(dataSpix, fs.g.dataSize) + pageOffs && k == fs.g.IxSpan(dataSpix)
    modifies fs
    ensures Paid(old(fs.Budget()), 0, res == Ok, fs.Budget())
    ensures res == Ok && fs.work == old(fs.work) && fs.fds == old(fs.fds)
    ensures Appending(fs, h, o, k, x, v0, files0, pd', off, n + |chunk|)
    ensures Flatten(pd', fs.g.dataSize, n + |chunk|) == Flatten(pd, fs.g.dataSize, n) + chunk && |pd'| == |pd|
    ensures StillReads(fs.g, old(fs.Disk()), fs.Disk(), o, n)
    ensures fs.Ran(old(fs.freeBlocks), res)
  {
    hide Spiffs.Budget, Spiffs.Stuck, Spiffs.FlashOk, Draft, Pending, VolumeOf, Progress, Kept, Sized, InPlace,
         StillReads, HeaderLive, Flatten;
    ghost var v, files, work := fs.Disk(), fs.files, fs.work;
    ProgressLen(v0, files0, Pending(v, x, o, work), files, o, pd);
    DraftIndex(fs.g, v, files, fs.fds, o, k, x, work);
    DraftData(fs.g, v, files, fs.fds, o, k, x, work, dataSpix);
    var dataPix := fs.work.ix[fs.g.IxEntry(dataSpix)];
    LivePage(fs, dataPix);
    res := PageCheck(fs.g, dataPix);
    ChunkFilledIn(fs.g, pd, n, pageOffs, chunk);
    fs.WriteData(dataPix, pageOffs, chunk);
    ghost var c := fs.Disk()[dataPix];
    pd' := pd[dataSpix := c.page.data];
    PatchStep(fs.g, v0, files0, v, files, fs.fds, o, k, x, work, pd, dataSpix, c);
    PageFilled(fs.g, v, o, dataPix, dataSpix, c, n, pageOffs);
    fs.SetWorkEntry(fs.g.IxEntry(dataSpix), dataPix);
    assert fs.work == work;
  }

  /** The size the header in the buffer gives is not looked at before it is stored. */
  lemma SizeTouched(g: Geometry, v0: Volume, files0: Files, v: Volume, files: Files, fds: seq<Fd>, o: nat, k: nat,
      x: nat, work: Page,
                    pd: seq<seq<Byte>>, off: nat, size: Word)
    requires g.Wf() && Draft(g, v, files, fds, o, 0, x, work)
    requires Progress(v0, files0, Pending(v, x, o, work), files, o, pd)
    requires InPlace(v[x].page, work, 0, off)
    ensures var work' := work.(size := size);
            && Draft(g, v, files, fds, o, 0, x, work') && Progress(v0, files0, Pending(v, x, o, work'), files, o, pd)
            && InPlace(v[x].page, work', 0, off)
            && (off == 0 ==> FillsIn(v[x].page, work'))
  {
    Retouch(g, v0, files0, v, files, fds, o, 0, x, work, pd, work.(size := size));
  }

  /** The cursor and the size of the descriptor are brought up to date. */
  method SetCursor(fs: Spiffs, h: nat, o: nat, k: nat, x: nat, size: nat, ghost v0: Volume, ghost files0: Files,
      ghost pd: seq<seq<Byte>>)
    requires Writing(fs, h, o, k, x, v0, files0, pd)
    modifies fs`fds
    ensures SameOpen(old(fs.fds), fs.fds)
    ensures Writing(fs, h, o, k, x, v0, files0, pd)
    ensures fs.fds == old(fs.fds)[h := old(fs.fds)[h].(cursorPix := x, cursorSpix := k, size := size)]
  {
    hide Spiffs.FlashOk, Progress, Saved;
    CursorSet(fs.g, Pending(fs.Disk(), x, o, fs.work), fs.files, fs.fds, o, h, k, size);
    fs.fds := fs.fds[h := fs.fds[h].(cursorPix := x, cursorSpix := k, size := size)];
  }

  /** Stores the header after bytes were written that it refers to: in place if the file was
      empty, else in a new page. */
  method StoreFirst(fs: Spiffs, h: nat, o: nat, x: nat, off: nat, n: Word,
                    ghost v0: Volume, ghost files0: Files, ghost pd: seq<seq<Byte>>) returns (res: Code)
    requires Appending(fs, h, o, 0, x, v0, files0, pd, off, n) && (off > 0 ==> n > 0) && n < UNDEFINED_LEN
    modifies fs
    ensures Paid(old(fs.Budget()), 1, res == Ok, fs.Budget())
    ensures SameOpen(old(fs.fds), fs.fds)
    ensures Safe(fs, o, v0, files0) && (res == Ok || res == ErrFull || res == ErrNotFound)
    ensures res == Ok ==> Resting(fs, h, o, v0, files0, pd) && |fs.files[o].ixp| == 1
    ensures res == Ok ==> fs.files == old(fs.files)[o := old(fs.files)[o].(ixp := fs.files[o].ixp)]
    ensures res == Ok ==>
              fs.work.size == n && fs.files[o].ixp[0] in fs.Disk() && fs.Disk()[fs.files[o].ixp[0]].page.size == n
    ensures res == Ok && off > 0 ==> SizesAre(fs.fds, o, n)
    ensures res == Ok && off == 0 ==> fs.files == old(fs.files)
    ensures StoredOrNot(fs.g, old(fs.Disk()), fs.Disk(), o, res == Ok, pd, n) && (res == Ok ==> HeaderHeld(fs, o))
    ensures fs.Ran(old(fs.freeBlocks), res) && (old(fs.Stuck()).Some? ==> fs.Stuck() == old(fs.Stuck()))
  {
    hide Spiffs.Budget, Spiffs.Stuck, Spiffs.FlashOk, Saved, Progress, Kept, Sized, InPlace, FillsIn, SizesAre,
         StoredOrNot, HeaderLive;
    ghost var v := fs.Disk();
    SizeTouched(fs.g, v0, files0, fs.Disk(), fs.files, fs.fds, o, 0, x, fs.work, pd, off, n);
    fs.SetWorkSize(n);
    if off == 0 {
      // the size field is still erased, so the header can be written over in place
      LivePage(fs, x);
      res := PageCheck(fs.g, x);
      StoreInPlace(fs, h, o, 0, x, v0, files0, pd);
      RestingSafe(fs, h, o, v0, files0, pd);
    } else {
      // a size is there already, so the header moves to a new page
      res := StoreHeader(fs, h, o, x, n, v0, files0, pd);
    }
    if res == Ok {
      HasBeenStored(fs, h, o, v0, files0, v, pd, n);
    } else {
      NotStored(fs.g, v, o, pd, n);
    }
  }

  /** The work buffer holds the header of the file. */
  ghost predicate HeaderHeld(fs: Spiffs, o: nat)
    reads fs
  {
    && o in fs.files && |fs.files[o].ixp| > 0 && fs.files[o].ixp[0] in fs.Disk()
    && fs.Disk()[fs.files[o].ixp[0]].page == fs.work
  }

  /** After storing what has been written so far, the file reads as that; else as before. */
  ghost predicate StoredOrNot(g: Geometry, v: Volume, v': Volume, o: nat, ok: bool, pd: seq<seq<Byte>>, n: nat)
    requires g.Wf()
  {
    if ok then Reads(g, v', o, Flatten(pd, g.dataSize, n)) else StillReads(g, v, v', o, n)
  }

  lemma HasBeenStored(fs: Spiffs, h: nat, o: nat, v0: Volume, files0: Files, v: Volume, pd: seq<seq<Byte>>, n: nat)
    requires Resting(fs, h, o, v0, files0, pd) && o in files0 && HeaderLive(v0, files0[o]) && Sized(fs.g, pd, n)
    requires fs.files[o].ixp[0] in fs.Disk() && fs.Disk()[fs.files[o].ixp[0]].page.size == n < UNDEFINED_LEN
    ensures StoredOrNot(fs.g, v, fs.Disk(), o, true, pd, n)
  {
    RestingReads(fs, h, o, v0, files0, pd, n);
  }

  lemma NotStored(g: Geometry, v: Volume, o: nat, pd: seq<seq<Byte>>, n: nat)
    requires g.Wf()
    ensures StoredOrNot(g, v, v, o, false, pd, n)
  {}

  lemma AsBefore(g: Geometry, v: Volume, v': Volume, o: nat, pd: seq<seq<Byte>>, n: nat)
    requires g.Wf() && StillReads(g, v, v', o, n)
    ensures StoredOrNot(g, v, v', o, false, pd, n)
  {}

  /** Stores an index page other than the header in place, announces it, and stores the new size. */
  method StoreNext(fs: Spiffs, h: nat, o: nat, k: nat, x: nat, off: nat, n: Word,
                   ghost v0: Volume, ghost files0: Files, ghost pd: seq<seq<Byte>>) returns (res: Code)
    requires Appending(fs, h, o, k, x, v0, files0, pd, off, n) && k > 0 && 0 < n < UNDEFINED_LEN
    modifies fs
    ensures Paid(old(fs.Budget()), 1, res == Ok, fs.Budget())
    ensures SameOpen(old(fs.fds), fs.fds)
    ensures Safe(fs, o, v0, files0) && (res == Ok || res == ErrFull || res == ErrNotFound)
    ensures res == Ok ==> Resting(fs, h, o, v0, files0, pd) && |fs.files[o].ixp| == k + 1
    ensures res == Ok ==> fs.files == old(fs.files)[o := old(fs.files)[o].(ixp := fs.files[o].ixp)]
    ensures res == Ok ==> fs.files[o].ixp[0] in fs.Disk() && fs.Disk()[fs.files[o].ixp[0]].page.size == n
    ensures res == Ok ==> SizesAre(fs.fds, o, n) && HeaderHeld(fs, o)
    ensures StoredOrNot(fs.g, old(fs.Disk()), fs.Disk(), o, res == Ok, pd, n)
    ensures fs.Ran(old(fs.freeBlocks), res) && fs.StillStuck(old(fs.Stuck()), res)
  {
    hide Spiffs.Budget, Spiffs.Stuck, Spiffs.FlashOk, Saved, Progress, Kept, Sized, FdsAfter, FillsIn, SizesAre,
         StillReads, HeaderLive, StoredOrNot;
    ghost var v := fs.Disk();
    NextStored(fs, h, o, k, x, v0, files0, pd, n);
    DraftIndex(fs.g, fs.Disk(), fs.files, fs.fds, o, k, x, fs.work);
    LivePage(fs, x);
    res := PageCheck(fs.g, x);
    assert fs.work.(size := fs.Disk()[x].page.size) == fs.work;
    StoreInPlace(fs, h, o, k, x, v0, files0, pd);
    Announced(fs.g, fs.Disk(), fs.files, fs.fds, o, k, IxUpd, fs.fds[h].objId, 0);
    StaysOpen(fs.fds, h, o, IxUpd, fs.fds[h].objId, k, x, 0);
    fs.ObjectEvent(IxUpd, fs.fds[h].objId, fs.work.span, x, 0);
    res := UpdateSize(fs, h, o, n, v0, files0, pd);
    if res == Ok {
      HasBeenStored(fs, h, o, v0, files0, v, pd, n);
    } else {
      AsBefore(fs.g, v, fs.Disk(), o, pd, n);
    }
  }

  lemma NextStored(fs: Spiffs, h: nat, o: nat, k: nat, x: nat, v0: Volume, files0: Files, pd: seq<seq<Byte>>, n: nat)
    requires Writing(fs, h, o, k, x, v0, files0, pd) && k > 0
    ensures StillReads(fs.g, fs.Disk(), Pending(fs.Disk(), x, o, fs.work), o, n)
  {
    hide StillReads;
    SavedParts(fs.g, Pending(fs.Disk(), x, o, fs.work), fs.files, fs.fds, o);
    IndexPageStored(fs.g, fs.Disk(), o, fs.files[o], k, fs.work, n);
  }

  // ---------- going from index page to index page ----------

  lemma FreshInPlace(p: Page, k: nat, off: nat)
    requires k == 0 && off == 0 ==> p.size == WORD_MAX
    ensures InPlace(p, p, k, off)
  {}

  /** Before anything has been written: the file as the collection left it. */
  ghost predicate Starting(fs: Spiffs, h: nat, o: nat, v0: Volume, files0: Files, pd: seq<seq<Byte>>, off: nat)
    reads fs
  {
    && fs.g.Wf() && Resting(fs, h, o, v0, files0, pd) && Sized(fs.g, pd, off)
    && |fs.files[o].ixp| == (if |pd| == 0 then 1 else fs.g.IxSpan(|pd| - 1) + 1)
    && fs.files[o].ixp[0] in fs.Disk() && (off == 0 ==> fs.Disk()[fs.files[o].ixp[0]].page.size == WORD_MAX)
    && (off > 0 ==> fs.fds[h].size == off)
    && o in files0 && HeaderLive(v0, files0[o])
  }

  lemma IxSpanStep(g: Geometry, s: nat)
    requires g.Wf()
    ensures g.IxSpan(s + 1) == g.IxSpan(s) || g.IxSpan(s + 1) == g.IxSpan(s) + 1
    ensures g.IxSpan(s) <= s
  {
    var k := g.IxSpan(s);
    IxSpanBound(g, s, k);
    IxSpanBound(g, s, k + 1);
    IxSpanBound(g, s + 1, k);
    IxSpanBound(g, s + 1, k + 1);
    IxSpanBound(g, s + 1, k + 2);
    FirstSpanStep(g, k + 1);
    if k > 0 {
      TimesAtLeast(k - 1, g.ixLen);
    }
  }

  /** The index page that the end of a file belongs to is its last one or comes right after it. */
  lemma LastIndex(g: Geometry, pd: seq<seq<Byte>>, n: nat)
    requires g.Wf() && Sized(g, pd, n)
    ensures var k, last := g.IxSpan(Quot(n, g.dataSize)), if |pd| == 0 then 0 else g.IxSpan(|pd| - 1);
            && (k == last || k == last + 1) && (k > 0 ==> n > 0 && last == g.IxSpan(Quot(n - 1, g.dataSize)))
            && (k == 0 ==> last == 0)
  {
    SizedSpan(g, pd, n);
    if |pd| > 0 {
      IxSpanStep(g, |pd| - 1);
    }
  }

  /** Adds index page k, and puts the cursor on it. */
  method BeginIndex(fs: Spiffs, h: nat, o: nat, k: nat, off: nat, n: Word, ghost v0: Volume, ghost files0: Files,
      ghost pd: seq<seq<Byte>>)
    returns (res: Code, x: nat)
    requires fs.g.Wf() && Resting(fs, h, o, v0, files0, pd) && 0 < k == |fs.files[o].ixp| && Sized(fs.g, pd, n)
    requires o in files0 && HeaderLive(v0, files0[o])
    modifies fs
    ensures Paid(old(fs.Budget()), 1, res == Ok, fs.Budget())
    ensures SameOpen(old(fs.fds), fs.fds)
    ensures Safe(fs, o, v0, files0) && (res == Ok || res == ErrFull || res == ErrNotFound)
    ensures res == Ok ==> Appending(fs, h, o, k, x, v0, files0, pd, off, n)
    ensures StillReads(fs.g, old(fs.Disk()), fs.Disk(), o, n)
    ensures fs.Ran(old(fs.freeBlocks), res)
  {
    hide Spiffs.Budget, Spiffs.Stuck, Spiffs.FlashOk, Saved, Progress, Kept, Sized, InPlace, StillReads, HeaderLive,
         Draft, SameOpen, Safe;
    ghost var fds := fs.fds;
    PageBound(fs.g, fs.Disk(), fs.files, fs.fds, o);
    res, x := NewIndex(fs, h, o, k, n, v0, files0, pd);
    if res == Ok {
      ghost var fds1 := fs.fds;
      FreshInPlace(fs.work, k, off);
      SetCursor(fs, h, o, k, x, n, v0, files0, pd);
      WritingSafe(fs, h, o, k, x, v0, files0, pd);
      SameOpenTrans(fds, fds1, fs.fds);
    }
  }

  /** Loads the last index page, and puts the cursor on it unless it is the header. */
  method LoadLast(fs: Spiffs, h: nat, o: nat, k: nat, off: nat, ghost v0: Volume, ghost files0: Files,
      ghost pd: seq<seq<Byte>>)
    returns (res: Code, x: nat)
    requires fs.g.Wf() && Starting(fs, h, o, v0, files0, pd, off) && k + 1 == |fs.files[o].ixp| && k <= HALF_MAX
    modifies fs
    ensures res == Ok && fs.Budget() == old(fs.Budget()) && fs.freeBlocks == old(fs.freeBlocks)
            && fs.Disk() == old(fs.Disk())
    ensures SameOpen(old(fs.fds), fs.fds) && Safe(fs, o, v0, files0)
    ensures Appending(fs, h, o, k, x, v0, files0, pd, off, off)
  {
    hide Spiffs.Budget, Spiffs.Stuck, Spiffs.FlashOk, Saved, Progress, Kept, Sized, InPlace, HeaderLive, Safe;
    HeaderThere(fs, h, o, v0, files0, pd);
    res, x := LoadIndex(fs, h, o, k, k > 0, v0, files0, pd);
    FreshInPlace(fs.work, k, off);
    if k > 0 {
      SetCursor(fs, h, o, k, x, off, v0, files0, pd);
    }
    WritingSafe(fs, h, o, k, x, v0, files0, pd);
  }

  lemma HeaderThere(fs: Spiffs, h: nat, o: nat, v0: Volume, files0: Files, pd: seq<seq<Byte>>)
    requires Resting(fs, h, o, v0, files0, pd)
    ensures o in fs.files && |fs.files[o].ixp| > 0
  {}

  /** First pass: loads the last index page, or adds one if it is full. */
  method FirstIndex(fs: Spiffs, h: nat, o: nat, k: nat, off: nat, ghost v0: Volume, ghost files0: Files,
      ghost pd: seq<seq<Byte>>)
    returns (res: Code, x: nat)
    requires Starting(fs, h, o, v0, files0, pd, off) && k == fs.g.IxSpan(Quot(off, fs.g.dataSize))
    modifies fs
    ensures Paid(old(fs.Budget()), 1, res == Ok, fs.Budget())
    ensures SameOpen(old(fs.fds), fs.fds)
    ensures Safe(fs, o, v0, files0) && (res == Ok || res == ErrFull || res == ErrNotFound)
    ensures res == Ok ==> Appending(fs, h, o, k, x, v0, files0, pd, off, off)
    ensures StillReads(fs.g, old(fs.Disk()), fs.Disk(), o, off)
    ensures fs.Ran(old(fs.freeBlocks), res)
  {
    hide Spiffs.Budget, Spiffs.Stuck, Spiffs.FlashOk, Saved, Progress, Kept, InPlace, StillReads, HeaderLive, Appending,
         Safe, SameOpen;
    StillReadsRefl(fs.g, fs.Disk(), o, off);
    StartSizes(fs, h, o, v0, files0, pd, off);
    LastIndex(fs.g, pd, off);
    if k > 0 && k > fs.g.IxSpan(Quot(fs.fds[h].size - 1, fs.g.dataSize)) {
      res, x := BeginIndex(fs, h, o, k, off, off, v0, files0, pd);
    } else {
      res, x := LoadLast(fs, h, o, k, off, v0, files0, pd);
    }
  }

  lemma StartSizes(fs: Spiffs, h: nat, o: nat, v0: Volume, files0: Files, pd: seq<seq<Byte>>, off: nat)
    requires Starting(fs, h, o, v0, files0, pd, off)
    ensures fs.g.Wf() && o in fs.files && Sized(fs.g, pd, off) && off < UNDEFINED_LEN && |fs.files[o].ixp| <= HALF_MAX
  {
    hide Saved, Progress;
    ProgressLen(v0, files0, fs.Disk(), fs.files, o, pd);
    PageBound(fs.g, fs.Disk(), fs.files, fs.fds, o);
    SizeBound(fs.g, pd, off);
  }

  /** The descriptor has the size reached so far. */
  method NoteSize(fs: Spiffs, h: nat, o: nat, ghost j: nat, n: Word, ghost v0: Volume, ghost files0: Files,
      ghost pd: seq<seq<Byte>>)
    requires Resting(fs, h, o, v0, files0, pd) && j < |fs.files[o].ixp|
    modifies fs`fds
    ensures Resting(fs, h, o, v0, files0, pd) && SameOpen(old(fs.fds), fs.fds)
  {
    hide Spiffs.FlashOk, Saved, Progress;
    CursorSet(fs.g, fs.Disk(), fs.files, fs.fds, o, h, j, n);
    fs.fds := fs.fds[h := fs.fds[h].(size := n)];
  }

  /** The file reads as what has been written so far, or as before. */
  ghost predicate Grown(g: Geometry, v: Volume, v': Volume, o: nat, pd: seq<seq<Byte>>, n: nat)
    requires g.Wf()
  {
    Reads(g, v', o, Flatten(pd, g.dataSize, n)) || StillReads(g, v, v', o, n)
  }

  lemma GrownNow(g: Geometry, v: Volume, v': Volume, o: nat, ok: bool, pd: seq<seq<Byte>>, n: nat)
    requires g.Wf() && StoredOrNot(g, v, v', o, ok, pd, n)
    ensures Grown(g, v, v', o, pd, n)
    ensures ok ==> Reads(g, v', o, Flatten(pd, g.dataSize, n))
  {}

  lemma GrownStill(g: Geometry, v: Volume, v': Volume, o: nat, pd: seq<seq<Byte>>, n: nat)
    requires g.Wf() && Reads(g, v, o, Flatten(pd, g.dataSize, n)) && StillReads(g, v, v', o, n)
    ensures Reads(g, v', o, Flatten(pd, g.dataSize, n))
  {}

  lemma GrownRead(g: Geometry, v: Volume, v': Volume, o: nat, pd: seq<seq<Byte>>, n: nat)
    requires g.Wf() && (Reads(g, v', o, Flatten(pd, g.dataSize, n)) || StillReads(g, v, v', o, n))
    ensures Grown(g, v, v', o, pd, n)
  {}

  /** Later passes: stores the index page that is full now, and adds the next one. */
  method NextIndex(fs: Spiffs, h: nat, o: nat, j: nat, y: nat, off: nat, n: Word, ghost v0: Volume,
      ghost files0: Files, ghost pd: seq<seq<Byte>>)
    returns (res: Code, x: nat)
    requires Appending(fs, h, o, j, y, v0, files0, pd, off, n) && 0 < n < UNDEFINED_LEN
    modifies fs
    ensures Paid(old(fs.Budget()), 2, res == Ok, fs.Budget())
    ensures SameOpen(old(fs.fds), fs.fds)
    ensures Safe(fs, o, v0, files0) && (res == Ok || res == ErrFull || res == ErrNotFound)
    ensures res == Ok ==> Appending(fs, h, o, j + 1, x, v0, files0, pd, off, n)
    ensures Grown(fs.g, old(fs.Disk()), fs.Disk(), o, pd, n)
    ensures fs.Ran(old(fs.freeBlocks), res)
  {
    hide Spiffs.Budget, Spiffs.Stuck, Spiffs.FlashOk, Kept, Sized, FillsIn, StillReads, Reads, Grown, HeaderLive,
         HeaderHeld, StoredOrNot, Appending, Resting, Safe, SameOpen;
    ghost var v, fds := fs.Disk(), fs.fds;
    AppendingParts(fs, h, o, j, y, v0, files0, pd, off, n);
    x := y;
    if j == 0 {
      res := StoreFirst(fs, h, o, y, off, n, v0, files0, pd);
    } else {
      res := StoreNext(fs, h, o, j, y, off, n, v0, files0, pd);
    }
    GrownNow(fs.g, v, fs.Disk(), o, res == Ok, pd, n);
    if res != Ok {
      return;
    }
    ghost var fds1 := fs.fds;
    RestingWf(fs, h, o, v0, files0, pd);
    NoteSize(fs, h, o, j, n, v0, files0, pd);
    ghost var v1, fds2 := fs.Disk(), fs.fds;
    res, x := BeginIndex(fs, h, o, j + 1, off, n, v0, files0, pd);
    GrownStill(fs.g, v1, fs.Disk(), o, pd, n);
    GrownRead(fs.g, v, fs.Disk(), o, pd, n);
    SameOpenTrans(fds, fds1, fds2);
    SameOpenTrans(fds, fds2, fs.fds);
  }

  lemma AppendingParts(fs: Spiffs, h: nat, o: nat, k: nat, x: nat, v0: Volume, files0: Files,
      pd: seq<seq<Byte>>, off: nat, n: nat)
    requires Appending(fs, h, o, k, x, v0, files0, pd, off, n)
    ensures fs.g.Wf() && Sized(fs.g, pd, n) && o in files0 && HeaderLive(v0, files0[o])
    ensures o in fs.files && |fs.files[o].ixp| == k + 1
  {}

  /** Stores the last index page and the size at the end. */
  method Finalize(fs: Spiffs, h: nat, o: nat, k: nat, x: nat, off: nat, n: Word, ghost v0: Volume,
      ghost files0: Files, ghost pd: seq<seq<Byte>>)
    returns (res: Code)
    requires Appending(fs, h, o, k, x, v0, files0, pd, off, n) && (off > 0 || k > 0 ==> n > 0) && n < UNDEFINED_LEN
    modifies fs
    ensures Paid(old(fs.Budget()), 1, res == Ok, fs.Budget())
    ensures SameOpen(old(fs.fds), fs.fds)
    ensures Safe(fs, o, v0, files0) && (res == Ok || res == ErrFull || res == ErrNotFound)
    ensures res == Ok ==> Resting(fs, h, o, v0, files0, pd) && |fs.files[o].ixp| == k + 1
    ensures res == Ok ==> fs.files[o].ixp[0] in fs.Disk() && fs.Disk()[fs.files[o].ixp[0]].page.size == n
    ensures res == Ok && n > 0 ==> SizesAre(fs.fds, o, n)
    ensures StoredOrNot(fs.g, old(fs.Disk()), fs.Disk(), o, res == Ok, pd, n) && (res == Ok ==> HeaderHeld(fs, o))
    ensures fs.Ran(old(fs.freeBlocks), res) && (old(fs.Stuck()).Some? ==> fs.Stuck() == old(fs.Stuck()))
  {
    hide Spiffs.Budget, Spiffs.Stuck, Spiffs.FlashOk, Saved, Progress, Kept, Sized, FillsIn, InPlace, FdsAfter,
         SizesAre, StoredOrNot, HeaderLive;
    if k != 0 {
      res := StoreNext(fs, h, o, k, x, off, n, v0, files0, pd);
    } else {
      res := StoreFirst(fs, h, o, x, off, n, v0, files0, pd);
      if res == Ok && off == 0 {
        // the descriptors learn of the new place and size
        HeaderOf(fs.g, fs.Disk(), fs.files, fs.fds, h, o);
        Announced(fs.g, fs.Disk(), fs.files, fs.fds, o, 0, IxUpdHdr, fs.fds[h].objId, n);
        StaysOpen(fs.fds, h, o, IxUpdHdr, fs.fds[h].objId, 0, x, n);
        SizesSet(fs.fds, fs.files, h, o, IxUpdHdr, fs.fds[h].objId, x, n) by {
          SavedFds(fs.g, fs.Disk(), fs.files, fs.fds, o);
        }
        fs.ObjectEvent(IxUpdHdr, fs.fds[h].objId, 0, x, n);
        RestingSafe(fs, h, o, v0, files0, pd);
      }
    }
  }

  lemma SavedFds(g: Geometry, v: Volume, files: Files, fds: seq<Fd>, o: nat)
    requires g.Wf() && Saved(g, v, files, fds, o)
    ensures FdsLinked(fds, files)
  {}

  /** Byte n of the file goes to offset pageOffs of data page dataSpix. */
  predicate NextByte(g: Geometry, n: nat, dataSpix: nat, pageOffs: nat)
    requires g.Wf()
  {
    dataSpix == Quot(n, g.dataSize) && pageOffs == Rem(n, g.dataSize)
  }

  /** Writes the next chunk of the data: as much as fits into the page. */
  method WriteChunk(fs: Spiffs, h: nat, o: nat, k: nat, x: nat, dataSpix: nat, pageOffs: nat, off: nat, n: nat,
      rest: seq<Byte>,
                    ghost v0: Volume, ghost files0: Files, ghost pd: seq<seq<Byte>>)
    returns (res: Code, toWrite: nat, ghost pd': seq<seq<Byte>>)
    requires fs.g.Wf() && NextByte(fs.g, n, dataSpix, pageOffs) && k == fs.g.IxSpan(dataSpix) && |rest| > 0
    requires pageOffs < fs.g.dataSize && Appending(fs, h, o, k, x, v0, files0, pd, off, n)
    modifies fs
    ensures res == Ok || res == ErrFull || res == ErrNotFound
    ensures res == Ok ==> 0 < toWrite == Min(|rest|, fs.g.dataSize - pageOffs)
    ensures res == Ok ==> |pd'| > 0 && k == fs.g.IxSpan(|pd'| - 1)
    ensures res == Ok && toWrite < |rest| ==> NextByte(fs.g, n + toWrite, dataSpix + 1, 0)
    ensures res == Ok ==> Flatten(pd', fs.g.dataSize, n + toWrite) == Flatten(pd, fs.g.dataSize, n) + rest[..toWrite]
    ensures Paid(old(fs.Budget()), 1, res == Ok, fs.Budget()) && SameOpen(old(fs.fds), fs.fds)
    ensures StillReads(fs.g, old(fs.Disk()), fs.Disk(), o, n)
    ensures if res == Ok then Appending(fs, h, o, k, x, v0, files0, pd', off, n + toWrite)
            else Appending(fs, h, o, k, x, v0, files0, pd, off, n)
    ensures fs.Ran(old(fs.freeBlocks), res)
  {
    hide Spiffs.Budget, Spiffs.Stuck, Appending, Sized, StillReads, HeaderLive, Flatten, NextByte, SameOpen;
    AppendingParts(fs, h, o, k, x, v0, files0, pd, off, n);
    ChunkPlace(fs.g, pd, n, dataSpix, pageOffs, |rest|);
    Bounded(fs, h, o, k, x, v0, files0, pd, off, n);
    SameOpenRefl(fs.fds);
    toWrite := Min(|rest|, fs.g.dataSize - pageOffs);
    if pageOffs == 0 {
      // nothing of the chunk fits on an existing page
      res, pd' := AddPage(fs, h, o, k, x, dataSpix, rest[..toWrite], v0, files0, pd, off, n);
    } else {
      // the chunk goes into the erased rest of the last page
      res, pd' := FillPage(fs, h, o, k, x, dataSpix, pageOffs, rest[..toWrite], v0, files0, pd, off, n);
    }
    if res == Ok && k == 0 {
      TouchSize(fs, h, o, x, off, n + toWrite, n, v0, files0, pd');
    }
  }

  /** Where the next chunk goes, and where the one after it would. */
  lemma ChunkPlace(g: Geometry, pd: seq<seq<Byte>>, n: nat, dataSpix: nat, pageOffs: nat, len: nat)
    requires g.Wf() && Sized(g, pd, n) && NextByte(g, n, dataSpix, pageOffs) && len > 0
    ensures pageOffs < g.dataSize && n == Times(dataSpix, g.dataSize) + pageOffs
    ensures dataSpix == if pageOffs == 0 then |pd| else |pd| - 1
    ensures var w := Min(len, g.dataSize - pageOffs);
            0 < w <= len && pageOffs + w <= g.dataSize && (w < len ==> NextByte(g, n + w, dataSpix + 1, 0))
  {
    SizedSpan(g, pd, n);
    var w := Min(len, g.dataSize - pageOffs);
    if w < len {
      QuotUnique(n + w, g.dataSize, dataSpix + 1, 0);
    }
  }

  /** Notes a size in the header in the buffer. */
  method TouchSize(fs: Spiffs, h: nat, o: nat, x: nat, off: nat, ghost n: nat, size: Word, ghost v0: Volume,
      ghost files0: Files, ghost pd: seq<seq<Byte>>)
    requires Appending(fs, h, o, 0, x, v0, files0, pd, off, n)
    modifies fs`work
    ensures Appending(fs, h, o, 0, x, v0, files0, pd, off, n)
  {
    hide Spiffs.FlashOk, Saved, Progress, Sized, InPlace;
    SizeTouched(fs.g, v0, files0, fs.Disk(), fs.files, fs.fds, o, 0, x, fs.work, pd, off, size);
    fs.SetWorkSize(size);
  }

  /** Brings the index page that data page dataSpix belongs to into the buffer. */
  method SwitchIndex(fs: Spiffs, h: nat, o: nat, prev: Option<nat>, y: nat, dataSpix: nat, ghost pageOffs: nat,
      off: nat, n: nat,
                     ghost v0: Volume, ghost files0: Files, ghost pd: seq<seq<Byte>>)
    returns (res: Code, x: nat)
    requires fs.g.Wf() && NextByte(fs.g, n, dataSpix, pageOffs)
    requires prev == None ==> n == off && Starting(fs, h, o, v0, files0, pd, off)
    requires prev.Some? ==> n > 0 && Appending(fs, h, o, prev.value, y, v0, files0, pd, off, n)
    requires prev.Some? ==> |pd| > 0 && prev.value == fs.g.IxSpan(|pd| - 1) && pageOffs == 0
    modifies fs
    ensures Paid(old(fs.Budget()), 2, res == Ok, fs.Budget())
    ensures SameOpen(old(fs.fds), fs.fds)
    ensures res == Ok || res == ErrFull || res == ErrNotFound
    ensures Safe(fs, o, v0, files0)
    ensures res == Ok ==> Appending(fs, h, o, fs.g.IxSpan(dataSpix), x, v0, files0, pd, off, n)
    ensures Grown(fs.g, old(fs.Disk()), fs.Disk(), o, pd, n)
    ensures fs.Ran(old(fs.freeBlocks), res)
  {
    hide Spiffs.Budget, Spiffs.Stuck, Writing, Resting, Safe, Sized, InPlace, StillReads, Reads, Grown, HeaderLive;
    ghost var v := fs.Disk();
    StillReadsRefl(fs.g, v, o, n);
    GrownRead(fs.g, v, v, o, pd, n);
    x := y;
    res := Ok;
    var curObjixSpix := fs.g.IxSpan(dataSpix);
    if prev == None {
      res, x := FirstIndex(fs, h, o, curObjixSpix, off, v0, files0, pd);
      GrownRead(fs.g, v, fs.Disk(), o, pd, n);
    } else if prev.value != curObjixSpix {
      SizedSpan(fs.g, pd, n);
      IxSpanStep(fs.g, |pd| - 1);
      Bounded(fs, h, o, prev.value, y, v0, files0, pd, off, n);
      res, x := NextIndex(fs, h, o, prev.value, y, off, n, v0, files0, pd);
    } else {
      WritingSafe(fs, h, o, curObjixSpix, x, v0, files0, pd);
    }
  }

  /** Between two chunks: the first bytes are written, the next one goes to offset pageOffs of data page dataSpix, and
      index page prev, if the loop has come to one, is in the buffer. What is on the flash may be behind. */
  ghost predicate BetweenChunks(fs: Spiffs, h: nat, o: nat, prev: Option<nat>, x: nat, off: nat, data: seq<Byte>,
      written: nat, dataSpix: nat, pageOffs: nat, v0: Volume, files0: Files, pd: seq<seq<Byte>>, c0: seq<Byte>)
    reads fs
  {
    && fs.g.Wf() && written <= |data| && pageOffs < fs.g.dataSize && off == |c0|
    && (prev == None ==> written == 0 && Starting(fs, h, o, v0, files0, pd, off))
    && (prev.Some? ==> AfterChunk(fs, h, o, prev.value, x, off, data, written, pageOffs, v0, files0, pd))
    && (written < |data| ==> NextByte(fs.g, off + written, dataSpix, pageOffs))
    && Flatten(pd, fs.g.dataSize, off + written) == c0 + data[..written]
    && PartWritten(fs.g, fs.Disk(), o, c0, off, data[..written])
  }

  ghost predicate AfterChunk(fs: Spiffs, h: nat, o: nat, k: nat, x: nat, off: nat, data: seq<Byte>, written: nat,
      pageOffs: nat, v0: Volume, files0: Files, pd: seq<seq<Byte>>)
    requires fs.g.Wf()
    reads fs
  {
    && written > 0 && Appending(fs, h, o, k, x, v0, files0, pd, off, off + written)
    && |pd| > 0 && k == fs.g.IxSpan(|pd| - 1) && (written < |data| ==> pageOffs == 0)
  }

  /** The first chunk is about to be written. */
  lemma ChunksBegin(fs: Spiffs, h: nat, o: nat, off: nat, data: seq<Byte>, v0: Volume, files0: Files,
      pd: seq<seq<Byte>>, c0: seq<Byte>)
    requires Starting(fs, h, o, v0, files0, pd, off) && c0 == Flatten(pd, fs.g.dataSize, off)
    requires Reads(fs.g, fs.Disk(), o, c0)
    ensures fs.g.Wf()
    ensures BetweenChunks(fs, h, o, None, 0, off, data, 0, Quot(off, fs.g.dataSize), Rem(off, fs.g.dataSize), v0,
                          files0, pd, c0)
  {
    hide Reads, Flatten, Resting;
    QuotRem(off, fs.g.dataSize);
    WriteEnd(c0, data[..0]);
    assert c0 + data[..0] == c0;
    PartAll(fs.g, fs.Disk(), o, c0, off, data[..0]);
  }

  lemma WriteEnd(c0: seq<Byte>, data: seq<Byte>)
    ensures Write(c0, |c0|, data) == c0 + data
  {}

  /** What the file reads as after going to the next index page. */
  lemma PartGrown(g: Geometry, v: Volume, v': Volume, o: nat, pd: seq<seq<Byte>>, c0: seq<Byte>, data: seq<Byte>)
    requires g.Wf() && PartWritten(g, v, o, c0, |c0|, data) && Grown(g, v, v', o, pd, |c0| + |data|)
    requires Flatten(pd, g.dataSize, |c0| + |data|) == c0 + data
    ensures PartWritten(g, v', o, c0, |c0|, data)
  {
    hide Reads, StillReads, Flatten, PartWritten;
    if Reads(g, v', o, Flatten(pd, g.dataSize, |c0| + |data|)) {
      WriteEnd(c0, data);
      PartAll(g, v', o, c0, |c0|, data);
    } else {
      PartStill(g, v, v', o, c0, data);
    }
  }

  /** One pass of the loop. If it fails directly, an index page could not be stored or added; otherwise the chunk could
      not be written. */
  method NextChunk(fs: Spiffs, h: nat, o: nat, prev: Option<nat>, y: nat, off: nat, data: seq<Byte>, written: nat,
      dataSpix: nat, pageOffs: nat, ghost v0: Volume, ghost files0: Files, ghost pd: seq<seq<Byte>>,
      ghost c0: seq<Byte>)
    returns (direct: bool, res: Code, k: nat, x: nat, toWrite: nat, ghost pd': seq<seq<Byte>>)
    requires BetweenChunks(fs, h, o, prev, y, off, data, written, dataSpix, pageOffs, v0, files0, pd, c0)
    requires written < |data|
    modifies fs
    ensures SameOpen(old(fs.fds), fs.fds) && (res == Ok || res == ErrFull || res == ErrNotFound)
    ensures fs.g.Wf() && Paid(old(fs.Budget()), 3, res == Ok, fs.Budget())
    ensures PartWritten(fs.g, fs.Disk(), o, c0, off, data[..written])
    ensures direct ==> res != Ok && Safe(fs, o, v0, files0)
    ensures res != Ok && !direct ==> pd' == pd && Appending(fs, h, o, k, x, v0, files0, pd, off, off + written)
    ensures res != Ok ==> Flatten(pd, fs.g.dataSize, off + written) == c0 + data[..written]
    ensures k > 0 ==> off + written > 0
    ensures res == Ok ==> 0 < toWrite == Min(|data| - written, fs.g.dataSize - pageOffs)
    ensures res == Ok ==> BetweenChunks(fs, h, o, Some(k), x, off, data, written + toWrite, dataSpix + 1, 0, v0, files0,
                                        pd', c0)
    ensures fs.Ran(old(fs.freeBlocks), res)
  {
    hide Spiffs.Budget, Spiffs.Stuck, BetweenChunks, Starting, Appending, Safe, NextByte, Reads, StillReads, Grown,
         PartWritten, Flatten, SameOpen;
    ghost var fds, v := fs.fds, fs.Disk();
    ChunkStarts(fs, h, o, prev, y, off, data, written, dataSpix, pageOffs, v0, files0, pd, c0);
    direct, pd', toWrite := false, pd, 0;
    // the chunk may belong to another index page than the last one
    res, x := SwitchIndex(fs, h, o, prev, y, dataSpix, pageOffs, off, off + written, v0, files0, pd);
    ghost var fds1, v1 := fs.fds, fs.Disk();
    PartGrown(fs.g, v, v1, o, pd, c0, data[..written]);
    k := fs.g.IxSpan(dataSpix);
    SpanPositive(fs.g, off + written, dataSpix, pageOffs);
    if res != Ok {
      direct := true;
      return;
    }
    ghost var grown;
    res, toWrite, grown := WriteChunk(fs, h, o, k, x, dataSpix, pageOffs, off, off + written, data[written..], v0,
                                      files0, pd);
    SameOpenTrans(fds, fds1, fs.fds);
    PartStill(fs.g, v1, fs.Disk(), o, c0, data[..written]);
    if res == Ok {
      pd' := grown;
      ChunkEnds(fs, h, o, k, x, off, data, written, toWrite, dataSpix, v0, files0, pd, pd', c0);
    }
  }

  lemma ChunkStarts(fs: Spiffs, h: nat, o: nat, prev: Option<nat>, x: nat, off: nat, data: seq<Byte>, written: nat,
      dataSpix: nat, pageOffs: nat, v0: Volume, files0: Files, pd: seq<seq<Byte>>, c0: seq<Byte>)
    requires BetweenChunks(fs, h, o, prev, x, off, data, written, dataSpix, pageOffs, v0, files0, pd, c0)
    requires written < |data|
    ensures fs.g.Wf() && pageOffs < fs.g.dataSize && off == |c0| && NextByte(fs.g, off + written, dataSpix, pageOffs)
    ensures prev == None ==> written == 0 && Starting(fs, h, o, v0, files0, pd, off)
    ensures prev.Some? ==> written > 0 && Appending(fs, h, o, prev.value, x, v0, files0, pd, off, off + written)
    ensures prev.Some? ==> |pd| > 0 && prev.value == fs.g.IxSpan(|pd| - 1) && pageOffs == 0
    ensures Flatten(pd, fs.g.dataSize, off + written) == c0 + data[..written]
    ensures PartWritten(fs.g, fs.Disk(), o, c0, off, data[..written])
  {
    hide Starting, Appending, NextByte, PartWritten, Flatten;
  }

  lemma PrefixGrows(data: seq<Byte>, a: nat, b: nat)
    requires a + b <= |data|
    ensures data[..a + b] == data[..a] + data[a..][..b] && data[..a] <= data[..a + b]
  {}

  lemma PrefixSum(c: seq<Byte>, a: seq<Byte>, b: seq<Byte>)
    ensures c + a + b == c + (a + b)
  {}

  lemma ChunkEnds(fs: Spiffs, h: nat, o: nat, k: nat, x: nat, off: nat, data: seq<Byte>, written: nat, toWrite: nat,
      dataSpix: nat, v0: Volume, files0: Files, pd: seq<seq<Byte>>, pd': seq<seq<Byte>>, c0: seq<Byte>)
    requires fs.g.Wf() && off == |c0| && 0 < toWrite <= |data| - written
    requires Appending(fs, h, o, k, x, v0, files0, pd', off, off + written + toWrite)
    requires |pd'| > 0 && k == fs.g.IxSpan(|pd'| - 1)
    requires toWrite < |data| - written ==> NextByte(fs.g, off + written + toWrite, dataSpix + 1, 0)
    requires Flatten(pd, fs.g.dataSize, off + written) == c0 + data[..written]
    requires Flatten(pd', fs.g.dataSize, off + written + toWrite)
             == Flatten(pd, fs.g.dataSize, off + written) + data[written..][..toWrite]
    requires PartWritten(fs.g, fs.Disk(), o, c0, off, data[..written])
    ensures BetweenChunks(fs, h, o, Some(k), x, off, data, written + toWrite, dataSpix + 1, 0, v0, files0, pd', c0)
  {
    hide Appending, NextByte, PartWritten, Flatten;
    PrefixGrows(data, written, toWrite);
    PrefixSum(c0, data[..written], data[written..][..toWrite]);
    PartGrows(fs.g, fs.Disk(), o, c0, off, data[..written], data[..written + toWrite]);
  }

  /** The loop of the operation. If it is left directly, an index page could not be stored or
      added; otherwise a chunk that could not be written may have ended it. */
  method WriteChunks(fs: Spiffs, h: nat, o: nat, off: nat, data: seq<Byte>, ghost v0: Volume, ghost files0: Files,
      ghost pd0: seq<seq<Byte>>)
    returns (direct: bool, res: Code, k: nat, x: nat, written: nat, ghost pd: seq<seq<Byte>>)
    requires fs.g.Wf() && Starting(fs, h, o, v0, files0, pd0, off) && |data| > 0
    requires Reads(fs.g, fs.Disk(), o, Flatten(pd0, fs.g.dataSize, off))
    modifies fs
    ensures SameOpen(old(fs.fds), fs.fds)
    ensures (res == Ok || res == ErrFull || res == ErrNotFound) && (direct ==> res != Ok && Safe(fs, o, v0, files0))
    ensures written <= |data| && (!direct ==> Appending(fs, h, o, k, x, v0, files0, pd, off, off + written))
    ensures !direct && k > 0 ==> off + written > 0
    ensures res == Ok ==> written == |data| && |pd| > 0 && k == fs.g.IxSpan(|pd| - 1)
    ensures !direct ==> Flatten(pd, fs.g.dataSize, off + written) == Flatten(pd0, fs.g.dataSize, off) + data[..written]
    ensures PartWritten(fs.g, fs.Disk(), o, Flatten(pd0, fs.g.dataSize, off), off, data[..written])
    ensures Paid(old(fs.Budget()), 3 * ChunksAt(fs.g.dataSize, off, |data|), res == Ok, fs.Budget())
    ensures fs.Ran(old(fs.freeBlocks), res)
  {
    hide Spiffs.Budget, Spiffs.Stuck, BetweenChunks, Starting, Appending, Safe, Chunks, OnBudget, Reads, Flatten,
         PartWritten, SameOpen;
    ghost var c0, fds0, before := Flatten(pd0, fs.g.dataSize, off), fs.fds, fs.Budget();
    ChunksBegin(fs, h, o, off, data, v0, files0, pd0, c0);
    QuotRem(off, fs.g.dataSize);
    direct, res, k, x, written, pd := false, Ok, 0, 0, 0, pd0;
    var dataSpix: nat, pageOffs: nat := Quot(off, fs.g.dataSize), Rem(off, fs.g.dataSize);
    var prev: Option<nat> := None;
    ghost var cost := 3 * Chunks(fs.g.dataSize, pageOffs, |data|);
    BudgetBegins(before, 3, fs.g.dataSize, pageOffs, |data|);
    SameOpenRefl(fds0);
    while written < |data|
      invariant res == Ok && 0 <= written <= |data| && !direct && SameOpen(fds0, fs.fds)
      invariant BetweenChunks(fs, h, o, prev, x, off, data, written, dataSpix, pageOffs, v0, files0, pd, c0)
      invariant fs.Ran(old(fs.freeBlocks), Ok)
      invariant if prev.Some? then prev.value == k else written == 0
      invariant pageOffs < fs.g.dataSize
              && OnBudget(before, cost, fs.Budget(), 3, fs.g.dataSize, pageOffs, |data| - written)
      decreases |data| - written
    {
      ghost var b0, fds1 := fs.Budget(), fs.fds;
      var toWrite;
      direct, res, k, x, toWrite, pd :=
          NextChunk(fs, h, o, prev, x, off, data, written, dataSpix, pageOffs, v0, files0, pd, c0);
      SameOpenTrans(fds0, fds1, fs.fds);
      ChunkPaid(before, cost, b0, res == Ok, fs.Budget(), 3, fs.g.dataSize, pageOffs, |data| - written);
      if res != Ok {
        return;
      }
      prev, pageOffs, dataSpix, written := Some(k), 0, dataSpix + 1, written + toWrite;
    }
    ChunksEnd(fs, h, o, prev, x, off, data, written, dataSpix, pageOffs, v0, files0, pd, c0);
    BudgetEnds(before, cost, fs.Budget(), 3, fs.g.dataSize, pageOffs);
  }

  lemma ChunksEnd(fs: Spiffs, h: nat, o: nat, prev: Option<nat>, x: nat, off: nat, data: seq<Byte>, written: nat,
      dataSpix: nat, pageOffs: nat, v0: Volume, files0: Files, pd: seq<seq<Byte>>, c0: seq<Byte>)
    requires BetweenChunks(fs, h, o, prev, x, off, data, written, dataSpix, pageOffs, v0, files0, pd, c0)
    requires written == |data| > 0
    ensures fs.g.Wf() && prev.Some? && Appending(fs, h, o, prev.value, x, v0, files0, pd, off, off + written)
    ensures |pd| > 0 && prev.value == fs.g.IxSpan(|pd| - 1) && off == |c0|
    ensures Flatten(pd, fs.g.dataSize, off + written) == c0 + data[..written]
    ensures PartWritten(fs.g, fs.Disk(), o, c0, off, data[..written])
  {
    hide Starting, Appending, PartWritten, Flatten;
  }

  /** So far no more has been taken than the chunks written cost at most. */
  ghost predicate OnBudget(before: int, cost: nat, now: int, each: nat, d: nat, po: nat, len: nat)
    requires po < d
  {
    before >= cost ==> now - each * Chunks(d, po, len) >= before - cost
  }

  lemma BudgetBegins(before: int, each: nat, d: nat, po: nat, len: nat)
    requires po < d
    ensures each * Chunks(d, po, len) >= 0 && OnBudget(before, each * Chunks(d, po, len), before, each, d, po, len)
  {
    MulNonneg(each, Chunks(d, po, len));
  }

  lemma BudgetEnds(before: int, cost: nat, now: int, each: nat, d: nat, po: nat)
    requires po < d && OnBudget(before, cost, now, each, d, po, 0)
    ensures Paid(before, cost, true, now)
  {}

  /** A chunk that has been paid for. */
  lemma ChunkPaid(before: int, cost: nat, b0: int, ok: bool, b1: int, each: nat, d: nat, po: nat, len: nat)
    requires po < d && len > 0 && OnBudget(before, cost, b0, each, d, po, len) && Paid(b0, each, ok, b1)
    ensures before >= cost ==> ok
    ensures OnBudget(before, cost, b1, each, d, 0, len - Min(len, d - po))
  {
    var rest := Chunks(d, 0, len - Min(len, d - po));
    assert each * (1 + rest) == each + each * rest;
    MulNonneg(each, rest);
  }

  lemma SizedNext(g: Geometry, n: nat)
    requires g.Wf()
    ensures NextByte(g, n, Quot(n, g.dataSize), Rem(n, g.dataSize))
  {}

  lemma SpanPositive(g: Geometry, n: nat, dataSpix: nat, pageOffs: nat)
    requires g.Wf() && NextByte(g, n, dataSpix, pageOffs)
    ensures g.IxSpan(dataSpix) > 0 ==> n > 0
  {}

  /** Sizes and span indices fit into their fields. */
  lemma Bounded(fs: Spiffs, h: nat, o: nat, k: nat, x: nat, v0: Volume, files0: Files, pd: seq<seq<Byte>>, off: nat,
      n: nat)
    requires Appending(fs, h, o, k, x, v0, files0, pd, off, n)
    ensures |pd| <= FREE && n < UNDEFINED_LEN
  {
    ProgressLen(v0, files0, Pending(fs.Disk(), x, o, fs.work), fs.files, o, pd);
    PageBound(fs.g, Pending(fs.Disk(), x, o, fs.work), fs.files, fs.fds, o);
    SizeBound(fs.g, pd, n);
  }

  // ---------- the operation ----------

  /** A file in order is where appending to it starts. */
  lemma Start(fs: Spiffs, h: nat, o: nat)
    requires fs.Sound() && !fs.cleaning && h < |fs.fds| && fs.fds[h].fileNbr != 0 && o == Base(fs.fds[h].objId)
    ensures fs.g.Wf() && o in fs.files && Consistent(fs.g, fs.Disk(), fs.files)
    ensures Starting(fs, h, o, fs.Disk(), fs.files, PageData(fs.Disk(), fs.files[o]), Length(fs.files[o].size))
    ensures HeaderLive(fs.Disk(), fs.files[o])
  {
    OpenFile(fs, h);
    Begin(fs.g, fs.Disk(), fs.files, fs.fds, o);
  }

  /** The end of a write that has gone well. */
  lemma Done(fs: Spiffs, h: nat, o: nat, v0: Volume, files0: Files, pd: seq<seq<Byte>>, n: nat)
    requires Resting(fs, h, o, v0, files0, pd) && Sized(fs.g, pd, n) && 0 < n < UNDEFINED_LEN && o in files0
    requires HeaderLive(v0, files0[o])
    requires |fs.files[o].ixp| == (if |pd| == 0 then 1 else fs.g.IxSpan(|pd| - 1) + 1)
    requires fs.files[o].ixp[0] in fs.Disk() && fs.Disk()[fs.files[o].ixp[0]].page.size == n && SizesAre(fs.fds, o, n)
    ensures var files' := fs.files[o := fs.files[o].(size := n)];
            && Consistent(fs.g, fs.Disk(), files') && FdsOk(fs.fds, files')
            && Bytes(fs.g, fs.Disk(), files', o) == Flatten(pd, fs.g.dataSize, n)
            && Kept(v0, files0, fs.Disk(), files', o)
  {
    ProgressLen(v0, files0, fs.Disk(), fs.files, o, pd);
    Finish(fs.g, fs.Disk(), fs.files, fs.fds, o, n);
  }

  /** The cursor goes to the end, and the last index page, which is still in the buffer only, is stored. */
  method FinishAppend(fs: Spiffs, h: nat, o: nat, k: nat, x: nat, off: nat, n: Word, ghost v0: Volume,
      ghost files0: Files, ghost pd: seq<seq<Byte>>)
    returns (res: Code)
    requires Appending(fs, h, o, k, x, v0, files0, pd, off, n) && (off > 0 || k > 0 ==> n > 0) && n < UNDEFINED_LEN
    modifies fs
    ensures Paid(old(fs.Budget()), 1, res == Ok, fs.Budget())
    ensures SameOpen(old(fs.fds), fs.fds)
    ensures Safe(fs, o, v0, files0) && (res == Ok || res == ErrFull || res == ErrNotFound)
    ensures res == Ok ==> Resting(fs, h, o, v0, files0, pd) && o in fs.files && |fs.files[o].ixp| == k + 1
    ensures res == Ok ==> fs.files[o].ixp[0] in fs.Disk() && fs.Disk()[fs.files[o].ixp[0]].page.size == n
    ensures res == Ok && n > 0 ==> SizesAre(fs.fds, o, n)
    ensures StoredOrNot(fs.g, old(fs.Disk()), fs.Disk(), o, res == Ok, pd, n) && (res == Ok ==> HeaderHeld(fs, o))
    ensures fs.Ran(old(fs.freeBlocks), res) && (old(fs.Stuck()).Some? ==> fs.Stuck() == old(fs.Stuck()))
  {
    hide Spiffs.Budget, Spiffs.Stuck, Spiffs.FlashOk, Kept, Sized, Saved, Progress, SizesAre, Writing, InPlace,
         StoredOrNot, HeaderLive;
    SetCursor(fs, h, o, k, x, n, v0, files0, pd);
    res := Finalize(fs, h, o, k, x, off, n, v0, files0, pd);
    if res == Ok {
      RestingWf(fs, h, o, v0, files0, pd);
    }
  }

  lemma RestingWf(fs: Spiffs, h: nat, o: nat, v0: Volume, files0: Files, pd: seq<seq<Byte>>)
    requires Resting(fs, h, o, v0, files0, pd)
    ensures fs.g.Wf() && o in fs.files && Open(fs.fds, h, o) && fs.FlashOk() && !fs.cleaning
  {}

  /** The pages appending takes at most: for each chunk its data page, the index page it ends and the one it begins, and
      at the end the header. */
  function AppendCost(g: Geometry, off: nat, len: nat): nat
    requires g.Wf()
  {
    3 * ChunksAt(g.dataSize, off, len) + 1
  }

  /** Appending once there is room. */
  method AppendData(fs: Spiffs, h: nat, o: nat, off: nat, data: seq<Byte>) returns (res: Code)
    requires fs.Sound() && !fs.cleaning && h < |fs.fds| && fs.fds[h].fileNbr != 0 && |data| > 0
    requires o == Base(fs.fds[h].objId) && o in fs.files && off == Length(fs.files[o].size)
    modifies fs
    ensures SameOpen(old(fs.fds), fs.fds)
    ensures Safe(fs, o, old(fs.Disk()), old(fs.files)) && (res == Ok || res == ErrFull || res == ErrNotFound)
    ensures res == Ok ==>
              fs.Sound() && Open(fs.fds, h, o) && o in fs.files && Content(fs, o) == old(Content(fs, o)) + data
    ensures res == Ok ==> fs.files[o].size == off + |data| < UNDEFINED_LEN && HeaderHeld(fs, o)
    ensures fs.g.Wf() && Paid(old(fs.Budget()), AppendCost(fs.g, off, |data|), res == Ok, fs.Budget())
    ensures off == |old(Content(fs, o))|
    ensures res != Ok ==> PartWritten(fs.g, fs.Disk(), o, old(Content(fs, o)), off, data)
    ensures fs.Ran(old(fs.freeBlocks), res)
  {
    hide Spiffs.Budget, Spiffs.Stuck, ChunksAt, Spiffs.FlashOk, Consistent, FdsOk, Starting, Kept, Sized, Saved,
         Progress, SizesAre, Appending, Resting, SameOpen, VolumeOf, Flatten, Reads, PartWritten, StoredOrNot,
         HeaderLive;
    ghost var v0, files0, pd := fs.Disk(), fs.files, PageData(fs.Disk(), fs.files[o]);
    Start(fs, h, o);
    SoundReads(fs, o);
    ghost var c0 := Content(fs, o);
    ghost var fds0 := fs.fds;
    var direct, k, x, written;
    direct, res, k, x, written, pd := WriteChunks(fs, h, o, off, data, v0, files0, pd);
    if direct {
      PartGrows(fs.g, fs.Disk(), o, c0, off, data[..written], data);
      return;
    }
    ghost var fds1, v1 := fs.fds, fs.Disk();
    AppendingNow(fs, h, o, k, x, v0, files0, pd, off, off + written);
    var res2 := FinishAppend(fs, h, o, k, x, off, off + written, v0, files0, pd);
    SameOpenTrans(fds0, fds1, fs.fds);
    PartStored(fs.g, v1, fs.Disk(), o, res2 == Ok, pd, c0, data[..written]);
    PartGrows(fs.g, fs.Disk(), o, c0, off, data[..written], data);
    if res2 != Ok {
      return res2;
    }
    if res == Ok {
      NoteGrown(fs, h, o, v0, files0, pd, off + |data|);
    }
  }

  /** The file has its new size. */
  ghost method NoteGrown(fs: Spiffs, h: nat, o: nat, v0: Volume, files0: Files, pd: seq<seq<Byte>>, n: nat)
    requires Resting(fs, h, o, v0, files0, pd) && Sized(fs.g, pd, n) && 0 < n < UNDEFINED_LEN && o in files0
    requires HeaderLive(v0, files0[o]) && HeaderHeld(fs, o)
    requires |fs.files[o].ixp| == (if |pd| == 0 then 1 else fs.g.IxSpan(|pd| - 1) + 1)
    requires fs.files[o].ixp[0] in fs.Disk() && fs.Disk()[fs.files[o].ixp[0]].page.size == n && SizesAre(fs.fds, o, n)
    modifies fs`files
    ensures fs.Sound() && Open(fs.fds, h, o) && o in fs.files && fs.files[o].size == n
    ensures Content(fs, o) == Flatten(pd, fs.g.dataSize, n) && Safe(fs, o, v0, files0) && HeaderHeld(fs, o)
  {
    hide Spiffs.FlashOk, Consistent, FdsOk, Kept, Sized, Saved, Progress, SizesAre, VolumeOf, Flatten, HeaderLive;
    RestingWf(fs, h, o, v0, files0, pd);
    Done(fs, h, o, v0, files0, pd, n);
    fs.files := fs.files[o := fs.files[o].(size := n)];
  }

  /** What the file reads as in the end. */
  lemma PartStored(g: Geometry, v: Volume, v': Volume, o: nat, ok: bool, pd: seq<seq<Byte>>, c0: seq<Byte>,
      data: seq<Byte>)
    requires g.Wf() && PartWritten(g, v, o, c0, |c0|, data)
    requires StoredOrNot(g, v, v', o, ok, pd, |c0| + |data|) && Flatten(pd, g.dataSize, |c0| + |data|) == c0 + data
    ensures PartWritten(g, v', o, c0, |c0|, data)
  {
    hide PartWritten, Reads, StillReads, Flatten;
    if ok {
      WriteEnd(c0, data);
      PartAll(g, v', o, c0, |c0|, data);
    } else {
      PartStill(g, v, v', o, c0, data);
    }
  }

  lemma AppendingNow(fs: Spiffs, h: nat, o: nat, k: nat, x: nat, v0: Volume, files0: Files, pd: seq<seq<Byte>>,
      off: nat, n: nat)
    requires Appending(fs, h, o, k, x, v0, files0, pd, off, n)
    ensures Writing(fs, h, o, k, x, v0, files0, pd) && Sized(fs.g, pd, n) && n < UNDEFINED_LEN
    ensures |pd| == |fs.files[o].dap| && |fs.files[o].ixp| == k + 1
  {
    Bounded(fs, h, o, k, x, v0, files0, pd, off, n);
  }

  /** spiffs_object_append: adds the data at the end of the file. When space runs out, the file has the first bytes of
      it. When a cleaning has failed, one file may be torn, be it this one or another. */
  method AppendObject(fs: Spiffs, h: nat, offset: nat, data: seq<Byte>) returns (res: Code, ghost gc: Collection)
    requires fs.Sound() && !fs.cleaning && h < |fs.fds| && fs.fds[h].fileNbr != 0 && |data| > 0
    requires Length(fs.fds[h].size) <= offset && (fs.fds[h].size == UNDEFINED_LEN ==> offset == 0)
    modifies fs
    ensures SameOpen(old(fs.fds), fs.fds)
    ensures !fs.cleaning
    ensures res == Ok ==> fs.Sound()
    ensures res == Ok ==> var o := Base(old(fs.fds)[h].objId);
                          && Open(fs.fds, h, o) && o in old(fs.files) && o in fs.files
                          && Content(fs, o) == old(Content(fs, o)) + data
    ensures fs.FlashOk() && (res == Ok || res == ErrFull || res == ErrNotFound)
    ensures res != ErrNotFound ==>
              OthersSame(fs.g, old(fs.Disk()), old(fs.files), fs.Disk(), fs.files, Base(old(fs.fds)[h].objId))
    ensures fs.g.Wf() && Paid(old(fs.Budget()), AppendCost(fs.g, old(Length(fs.fds[h].size)), |data|), res == Ok,
                              fs.Budget())
    ensures res == Ok ==> HeaderHeld(fs, Base(old(fs.fds)[h].objId))
    ensures Collected(fs, old(StateOf(fs)), gc, |data| + fs.g.dataSize, res)
    ensures var o := Base(old(fs.fds)[h].objId);
            && o in old(fs.files)
            && (res == ErrFull ==> PartWritten(fs.g, fs.Disk(), o, old(Content(fs, o)), |old(Content(fs, o))|, data))
            && (res == ErrNotFound ==>
                  && Spared(fs.g, fs.Disk(), old(fs.Disk()), old(fs.files), o)
                  && PartOrTorn(fs.g, fs.Disk(), o, old(Content(fs, o)), |old(Content(fs, o))|, data))
  {
    hide Spiffs.Budget, Spiffs.Stuck, ChunksAt, Spiffs.FlashOk, Consistent, FdsOk, SameContents, OthersSame, Kept,
         Reads, PartWritten, HeaderHeld, Torn, PartOrTorn, Spared, Halfway, Bytes, Collects, Collected, Spiffs.Ran,
         FromTo, StateOf;
    ghost var v00, files00, fds00, s00 := fs.Disk(), fs.files, fs.fds, StateOf(fs);
    OpenFile(fs, h);
    var o := Base(fs.fds[h].objId);
    ghost var c0 := Content(fs, o);
    // an offset past the end is reversed to the size
    var off := if offset > fs.fds[h].size then fs.fds[h].size else offset;
    CostFits(fs, off, data);
    res, gc := GcCheck(fs, |data| + fs.g.dataSize); // one page more, for the index
    ghost var s, free := StateOf(fs), fs.freeBlocks;
    if res != Ok {
      GcFailed(fs, s00, gc, |data| + fs.g.dataSize, res);
    }
    if res == ErrNotFound {
      HalfwayLeaves(fs.g, fs.Disk(), v00, files00, o);
      PartOr(fs.g, fs.Disk(), o, c0, |c0|, data);
      return;
    }
    ghost var v, files := fs.Disk(), fs.files;
    SameBytes(v00, files00, v, files, fs.g, o);
    if res != Ok {
      KeptRefl(v, files, o);
      NothingWritten(fs, o, |Content(fs, o)|, data);
    } else {
      OpenFile(fs, h);
      res := AppendData(fs, h, o, off, data);
      GcDone(fs, s00, s, gc, |data| + fs.g.dataSize, free, res);
    }
    OthersAreSame(fs.g, v00, files00, v, files, fs.Disk(), fs.files, o);
    if res == ErrNotFound {
      SameIsSpared(fs, v00, files00, o);
      PartIs(fs.g, fs.Disk(), o, c0, |c0|, data);
    }
  }

  /** As long as nothing has been written the file reads as it did. */
  lemma NothingWritten(fs: Spiffs, o: nat, off: nat, data: seq<Byte>)
    requires fs.Sound() && o in fs.files && fs.g.Wf() && off <= |Content(fs, o)|
    ensures PartWritten(fs.g, fs.Disk(), o, Content(fs, o), off, data)
  {
    hide Reads, Content, PartWritten;
    SoundReads(fs, o);
    PartNone(fs.g, fs.Disk(), o, Content(fs, o), off, data);
  }

  /** What can be paid for fits without garbage being collected. */
  lemma CostFits(fs: Spiffs, off: nat, data: seq<Byte>)
    requires fs.g.Wf()
    ensures fs.Budget() >= ChunksAt(fs.g.dataSize, off, |data|) + 2 ==> Fits(fs, |data| + fs.g.dataSize)
    ensures data != [] ==> ChunksAt(fs.g.dataSize, off, |data|) >= 1
  {
    hide Spiffs.Budget, Spiffs.Stuck, FreePages;
    var d, n := fs.g.dataSize, ChunksAt(fs.g.dataSize, off, |data|);
    QuotRem(off, d);
    ChunksCover(d, Rem(off, d), |data|);
    TimesIs(n, d);
    BudgetFits(fs, n + 2);
    if fs.Budget() >= n + 2 {
      PagesHold(|data|, n, d, FreePages(fs));
    }
  }

  lemma RoomFits(fs: Spiffs, n: nat)
    requires fs.g.Wf() && n > 0
    ensures fs.Budget() >= n + 1 ==> Fits(fs, fs.g.dataSize * n)
  {
    hide Spiffs.Budget, Spiffs.Stuck, FreePages;
    BudgetFits(fs, n + 1);
    if fs.Budget() >= n + 1 {
      var d := fs.g.dataSize;
      assert d * n == (n - 1) * d + d;
      MulNonneg(n - 1, d);
      PagesHold((n - 1) * d, n - 1, d, FreePages(fs));
    }
  }

  lemma PagesHold(len: nat, n: nat, d: nat, free: int)
    requires len <= n * d && free >= n + 2 && d > 0
    ensures len + d < free * d
  {
    assert (n + 2) * d == n * d + 2 * d;
    MulNonneg(free - (n + 2), d);
    assert (free - (n + 2)) * d == free * d - (n + 2) * d;
  }

  lemma KeptRefl(v: Volume, fs: Files, o: nat)
    ensures Kept(v, fs, v, fs, o)
  {}

  /** Collecting garbage changes neither the size nor the bytes of a file. */
}
