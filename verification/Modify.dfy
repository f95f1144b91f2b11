/** Overwriting bytes of a file (spiffs_object_modify). */
module Modify {
  import opened Wrappers
  import opened Nor
  import opened Layout
  import opened Volumes
  import opened Contents
  import opened Flash
  import opened Nucleus
  import opened Gc
  import opened Collect
  import opened Editing
  import opened Remains
  import opened Objects
  import opened Stopped
  import opened Append
  import opened Rewrite

  /** While index page k is in the buffer. */
  lemma ReadsOrTorn(g: Geometry, v0: Volume, files0: Files, v: Volume, files: Files, fds: seq<Fd>, o: nat, k: nat,
      x: nat, work: Page, pd: seq<seq<Byte>>, size: nat)
    requires g.Wf() && Draft(g, v, files, fds, o, k, x, work)
            && Progress(v0, files0, Pending(v, x, o, work), files, o, pd)
    requires o in files0 && HeaderLive(v0, files0[o]) && Behind(g, files[o].dap, k, v[x].page, work)
    requires HeaderSize(Pending(v, x, o, work), files[o]) == size < UNDEFINED_LEN && size <= Times(|pd|, g.dataSize)
    ensures Reads(g, v, o, Flatten(pd, g.dataSize, size)) || Torn(g, v, o)
  {
    hide Reads, Torn, Flatten, PageData, Saved, Progress;
    var V := Pending(v, x, o, work);
    DraftSaved(g, v, files, fds, o, k, x, work);
    SavedParts(g, V, files, fds, o);
    ProgressLen(v0, files0, V, files, o, pd);
    ProgressLive(v0, files0, V, files, o, pd);
    DraftIndex(g, v, files, fds, o, k, x, work);
    if v[x].page.ix == work.ix {
      assert v == V;
      LinkedReads(g, v, o, files[o]);
    } else {
      var e :| 0 <= e < |work.ix| && v[x].page.ix[e] != work.ix[e];
      Replaced(g, v, o, files[o], k, x, work, e);
      TornEntry(g, v, o, x, e);
    }
  }

  lemma ProgressLive(v0: Volume, files0: Files, v: Volume, files: Files, o: nat, pd: seq<seq<Byte>>)
    requires Progress(v0, files0, v, files, o, pd) && o in files0 && HeaderLive(v0, files0[o])
    ensures o in files && HeaderLive(v, files[o])
  {}

  /** File o is being changed, and its size stays what it is. */
  ghost predicate Modifying(fs: Spiffs, h: nat, o: nat, k: nat, x: nat, v0: Volume, files0: Files, pd: seq<seq<Byte>>,
      m: nat, size: nat)
    reads fs
  {
    && fs.g.Wf() && Writing(fs, h, o, k, x, v0, files0, pd)
    && |fs.files[o].ixp| == m && SizesAre(fs.fds, o, size)
    && HeaderSize(Pending(fs.Disk(), x, o, fs.work), fs.files[o]) == size
    && Behind(fs.g, fs.files[o].dap, k, fs.Disk()[x].page, fs.work)
    && o in files0 && HeaderLive(v0, files0[o])
  }

  /** The same, with all index pages on the flash. */
  ghost predicate Modified(fs: Spiffs, h: nat, o: nat, v0: Volume, files0: Files, pd: seq<seq<Byte>>, m: nat, size: nat)
    reads fs
  {
    && fs.g.Wf() && Resting(fs, h, o, v0, files0, pd)
    && |fs.files[o].ixp| == m && SizesAre(fs.fds, o, size)
    && HeaderSize(fs.Disk(), fs.files[o]) == size
    && o in files0 && HeaderLive(v0, files0[o])
  }

  // ---------- data pages ----------

  /** Three writes that together fill an erased page. */
  lemma PatchedThrice(blank: seq<Byte>, page: seq<Byte>, po: nat, chunk: seq<Byte>)
    requires |blank| == |page| && po + |chunk| <= |page|
    ensures var a := Patch(blank, 0, page[..po]);
            var b := Patch(a, po + |chunk|, page[po + |chunk|..]);
            && (forall i :: po + |chunk| <= i < |page| ==> a[i] == blank[i])
            && (forall i :: po <= i < po + |chunk| ==> b[i] == blank[i])
            && Patch(b, po, chunk) == Patch(page, po, chunk)
  {}

  /** Stores a data page anew: the chunk, and around it what the original page holds. */
  method CopyPage(fs: Spiffs, o: Half, dataSpix: Half, origPix: nat, pageOffs: nat, chunk: seq<Byte>)
    returns (res: Code, dataPix: nat)
    requires fs.g.Wf() && fs.FlashOk() && 1 <= o < IX_FLAG && origPix in fs.Disk()
    requires |fs.Disk()[origPix].page.data| == fs.g.dataSize
    requires pageOffs + |chunk| <= fs.g.dataSize
    modifies fs`lu, fs`pages, fs`eraseCounts, fs`freeBlocks, fs`maxEraseCount, fs`drift, fs`statsDeleted
    modifies fs`statsAllocated
    modifies fs`freeCursorBlock, fs`freeCursorEntry
    ensures !fs.cleaning ==> Paid(old(fs.Budget()), 1, res == Ok, fs.Budget())
    ensures fs.FlashOk() && (res == Ok || res == ErrFull || res == ErrNotFound)
    ensures res != Ok ==> fs.Disk() == old(fs.Disk())
    ensures res == Ok ==> dataPix !in old(fs.Disk()) && dataPix < fs.g.Pages() && dataPix in fs.Disk()
    ensures res == Ok ==>
              && fs.Disk() == old(fs.Disk())[dataPix := fs.Disk()[dataPix]]
              && DataCell(fs.g, fs.Disk()[dataPix], o, dataSpix)
    ensures res == Ok ==> fs.Disk()[dataPix].page.data == Patch(old(fs.Disk())[origPix].page.data, pageOffs, chunk)
    ensures !fs.cleaning ==> fs.Ran(old(fs.freeBlocks), res)
  {
    hide Spiffs.Budget, Spiffs.Stuck, Spiffs.FlashOk, VolumeOf, Patch;
    ghost var page := fs.Disk()[origPix].page.data;
    var hdr := Header(o, dataSpix, Flags(true, true, true, true, true));
    res, dataPix, hdr := fs.AllocateData(o, hdr, None, 0, false);
    if res != Ok {
      return;
    }
    PatchedThrice(Blank(fs.g).data, page, pageOffs, chunk);
    assert page[0..pageOffs] == page[..pageOffs];
    assert page[pageOffs + |chunk|..fs.g.dataSize] == page[pageOffs + |chunk|..];
    // the bytes before and behind the chunk stay as they are
    CopyPart(fs, dataPix, origPix, 0, pageOffs);
    CopyPart(fs, dataPix, origPix, pageOffs + |chunk|, fs.g.dataSize);
    fs.WriteData(dataPix, pageOffs, chunk);
    // finalize
    fs.WriteFlags(dataPix, hdr.flags.(final := false));
  }

  /** Copies bytes of a data page to the same place in another one, where it is still erased. */
  method CopyPart(fs: Spiffs, dst: nat, src: nat, from: nat, end: nat)
    requires fs.g.Wf() && fs.FlashOk() && dst in fs.Disk() && src in fs.Disk() && from <= end <= fs.g.dataSize
    requires |fs.Disk()[dst].page.data| == |fs.Disk()[src].page.data| == fs.g.dataSize
    requires forall i :: from <= i < end ==> fs.Disk()[dst].page.data[i] == BYTE_MAX
    modifies fs`pages
    ensures fs.FlashOk()
    ensures var c, bytes := old(fs.Disk())[dst], old(fs.Disk())[src].page.data[from..end];
            fs.Disk() == old(fs.Disk())[dst := c.(page := c.page.(data := Patch(c.page.data, from, bytes)))]
  {
    hide Spiffs.FlashOk, VolumeOf, Patch;
    Loaded(fs, src);
    if from < end {
      fs.WriteData(dst, from, fs.pages[src].data[from..end]);
    } else {
      PatchNothing(fs.Disk()[dst].page.data, from);
      assert fs.Disk()[src].page.data[from..end] == [];
    }
  }

  lemma PatchNothing(page: seq<Byte>, po: nat)
    requires po <= |page|
    ensures Patch(page, po, []) == page
  {}

  lemma PatchAll(page: seq<Byte>, chunk: seq<Byte>)
    requires |chunk| == |page|
    ensures Patch(page, 0, chunk) == chunk
  {}

  /** Stores a data page with the chunk in it, as a whole new page or as a changed copy. */
  method RenewPage(fs: Spiffs, o: Half, dataSpix: Half, origPix: nat, pageOffs: nat, chunk: seq<Byte>)
    returns (res: Code, dataPix: nat)
    requires fs.g.Wf() && fs.FlashOk() && 1 <= o < IX_FLAG && origPix in fs.Disk()
    requires |fs.Disk()[origPix].page.data| == fs.g.dataSize
    requires pageOffs + |chunk| <= fs.g.dataSize
    modifies fs`lu, fs`pages, fs`eraseCounts, fs`freeBlocks, fs`maxEraseCount, fs`drift, fs`statsDeleted
    modifies fs`statsAllocated
    modifies fs`freeCursorBlock, fs`freeCursorEntry
    ensures !fs.cleaning ==> Paid(old(fs.Budget()), 1, res == Ok, fs.Budget())
    ensures fs.FlashOk() && (res == Ok || res == ErrFull || res == ErrNotFound)
    ensures res != Ok ==> fs.Disk() == old(fs.Disk())
    ensures res == Ok ==> dataPix !in old(fs.Disk()) && dataPix < fs.g.Pages() && dataPix in fs.Disk()
    ensures res == Ok ==>
              && fs.Disk() == old(fs.Disk())[dataPix := fs.Disk()[dataPix]]
              && DataCell(fs.g, fs.Disk()[dataPix], o, dataSpix)
    ensures res == Ok ==> fs.Disk()[dataPix].page.data == Patch(old(fs.Disk())[origPix].page.data, pageOffs, chunk)
    ensures !fs.cleaning ==> fs.Ran(old(fs.freeBlocks), res)
  {
    hide Spiffs.Budget, Spiffs.Stuck, Spiffs.FlashOk, VolumeOf, Patch;
    if pageOffs == 0 && |chunk| == fs.g.dataSize {
      // nothing of the old page is left
      PatchAll(fs.Disk()[origPix].page.data, chunk);
      PatchAll(Blank(fs.g).data, chunk);
      var hdr := Header(o, dataSpix, Flags(true, true, true, true, true));
      res, dataPix, hdr := fs.AllocateData(o, hdr, Some(chunk), 0, true);
    } else {
      LivePage(fs, origPix);
      res := PageCheck(fs.g, origPix);
      res, dataPix := CopyPage(fs, o, dataSpix, origPix, pageOffs, chunk);
    }
  }

  /** Replaces one data page by a new one with the chunk in it. */
  method ModifyPage(fs: Spiffs, h: nat, o: nat, k: nat, x: nat, dataSpix: Half, pageOffs: nat, chunk: seq<Byte>,
                    ghost v0: Volume, ghost files0: Files, ghost pd: seq<seq<Byte>>, ghost m: nat, ghost size: nat)
    returns (res: Code)
    requires Modifying(fs, h, o, k, x, v0, files0, pd, m, size)
    requires dataSpix < |pd| && k == fs.g.IxSpan(dataSpix) && pageOffs + |chunk| <= fs.g.dataSize == |pd[dataSpix]|
    modifies fs
    ensures Paid(old(fs.Budget()), 1, res == Ok, fs.Budget())
    ensures res == Ok || res == ErrFull || res == ErrNotFound
    ensures res != Ok ==> Modifying(fs, h, o, k, x, v0, files0, pd, m, size)
    ensures res == Ok ==> Modifying(fs, h, o, k, x, v0, files0, pd[dataSpix := Patch(pd[dataSpix], pageOffs, chunk)], m,
                                    size)
    ensures fs.fds == old(fs.fds)
    ensures fs.Ran(old(fs.freeBlocks), res)
  {
    hide Spiffs.Budget, Spiffs.Stuck, Spiffs.FlashOk, Draft, Pending, VolumeOf, Progress, Patch, Kept, SizesAre,
         HeaderSize, HeaderLive, DataCell, IndexCell, Behind;
    ghost var v, files, work := fs.Disk(), fs.files, fs.work;
    ProgressLen(v0, files0, Pending(v, x, o, work), files, o, pd);
    DraftIndex(fs.g, v, files, fs.fds, o, k, x, work);
    DraftData(fs.g, v, files, fs.fds, o, k, x, work, dataSpix);
    DataShape(fs.g, v[files[o].dap[dataSpix]], o, dataSpix);
    var origPix := fs.work.ix[fs.g.IxEntry(dataSpix)];
    var dataPix;
    res, dataPix := RenewPage(fs, Base(fs.fds[h].objId), dataSpix, origPix, pageOffs, chunk);
    if res == Ok {
      ghost var c := fs.Disk()[dataPix];
      ReplaceStep(fs.g, v0, files0, v, files, fs.fds, o, k, x, work, pd, dataSpix, dataPix, c);
      BehindStep(fs.g, files[o].dap, k, v[x].page, work, dataSpix, dataPix);
      SwapPage(fs, origPix, fs.g.IxEntry(dataSpix), dataPix,
               files[o := files[o].(dap := files[o].dap[dataSpix := dataPix])]);
    }
  }

  /** Deletes a data page that has been replaced. */
  method SwapPage(fs: Spiffs, origPix: nat, e: nat, dataPix: Half, ghost files: Files)
    requires fs.g.Wf() && fs.FlashOk() && origPix in fs.Disk() && e < |fs.work.ix|
    modifies fs`lu, fs`pages, fs`statsDeleted, fs`statsAllocated, fs`work, fs`files
    ensures fs.FlashOk() && fs.Disk() == old(fs.Disk()) - {origPix} && fs.files == files
    ensures fs.work == old(fs.work).(ix := old(fs.work).ix[e := dataPix]) && fs.Budget() == old(fs.Budget())
            && fs.freeBlocks == old(fs.freeBlocks)
  {
    hide Spiffs.Budget, Spiffs.Stuck, Spiffs.FlashOk, VolumeOf;
    ghost var log := fs.PageDelete(origPix);
    // the entry in the buffer now names the new page
    fs.SetWorkEntry(e, dataPix);
    fs.files := files;
  }

  lemma DataShape(g: Geometry, c: Cell, o: nat, s: nat)
    requires DataCell(g, c, o, s)
    ensures |c.page.data| == g.dataSize
  {}

  // ---------- index pages ----------

  lemma SizesStay(fds: seq<Fd>, o: nat, size: nat, ev: Event, raw: nat, k: nat, q: nat)
    requires SizesAre(fds, o, size) && ev != IxDel
    ensures SizesAre(FdsAfter(fds, ev, raw, k, q, 0), o, size)
  {
    forall i | 0 <= i < |fds|
      ensures var fd := FdAfter(fds[i], ev, raw, k, q, 0);
              && fd.size == fds[i].size && fd.objId == fds[i].objId
              && fd.fileNbr == fds[i].fileNbr
    {}
  }

  /** Stores index page k of file o, which is in the buffer and at page x, in a new page, and announces that. */
  method MoveBuffer(fs: Spiffs, objId: Half, o: nat, k: nat, x: nat) returns (res: Code, newPix: nat)
    requires fs.g.Wf() && fs.FlashOk() && !fs.cleaning && x in fs.Disk() && o in fs.files && k < |fs.files[o].ixp|
    requires fs.work.span == k && !fs.work.flags.used && Live(objId) && objId < FREE
    modifies fs
    ensures fs.FlashOk() && !fs.cleaning && (res == Ok || res == ErrFull || res == ErrNotFound)
    ensures fs.g.Wf() && Paid(old(fs.Budget()), 1, res == Ok, fs.Budget())
    ensures res != Ok ==> fs.Disk() == old(fs.Disk()) && fs.files == old(fs.files) && fs.fds == old(fs.fds)
    ensures res == Ok ==> newPix !in old(fs.Disk()) && newPix < fs.g.Pages()
    ensures res == Ok ==> fs.Disk() == (old(fs.Disk()) - {x})[newPix := Cell(objId, old(fs.work))]
    ensures res == Ok ==> fs.fds == FdsAfter(old(fs.fds), IxUpd, objId, k, newPix, 0)
    ensures res == Ok ==> fs.files == old(fs.files)[o := old(fs.files)[o].(ixp := old(fs.files)[o].ixp[k := newPix])]
    ensures fs.Ran(old(fs.freeBlocks), res) && fs.StillStuck(old(fs.Stuck()), res)
  {
    hide Spiffs.Budget, Spiffs.Stuck, Spiffs.FlashOk, VolumeOf, FdsAfter, PageShape;
    ghost var files, work := fs.files, fs.work;
    LivePage(fs, x);
    res := PageCheck(fs.g, x);
    WorkShape(fs);
    var buf;
    ghost var log;
    res, newPix, buf, log := fs.PageMove(Some(fs.work), objId, x);
    if res == Ok {
      assert buf.value == work;
      NoteIndex(fs, buf.value, IxUpd, objId, buf.value.span, newPix,
                files[o := files[o].(ixp := files[o].ixp[k := newPix])]);
    }
  }

  /** Stores the index page in the buffer in a new page, and announces that. */
  method StoreIndexAway(fs: Spiffs, h: nat, o: nat, k: nat, x: nat,
                        ghost v0: Volume, ghost files0: Files, ghost pd: seq<seq<Byte>>, ghost m: nat, ghost size: nat)
    returns (res: Code, newPix: nat)
    requires Modifying(fs, h, o, k, x, v0, files0, pd, m, size) && k > 0
    modifies fs
    ensures Paid(old(fs.Budget()), 1, res == Ok, fs.Budget())
    ensures SameOpen(old(fs.fds), fs.fds)
    ensures Safe(fs, o, v0, files0) && (res == Ok || res == ErrFull || res == ErrNotFound)
    ensures res == Ok ==> Modified(fs, h, o, v0, files0, pd, m, size) && IndexAt(fs.Disk(), fs.files, o, k, newPix)
    ensures res == Ok ==> fs.files == old(fs.files)[o := old(fs.files)[o].(ixp := fs.files[o].ixp)]
    ensures res != Ok ==> fs.Disk() == old(fs.Disk())
    ensures fs.Ran(old(fs.freeBlocks), res) && fs.StillStuck(old(fs.Stuck()), res)
  {
    hide Spiffs.Budget, Spiffs.Stuck, Spiffs.FlashOk, Draft, Pending, VolumeOf, Saved, Progress, Kept, SizesAre,
         HeaderSize, HeaderLive, FdsAfter, IndexCell, Behind, SameOpen;
    ghost var v, files, fds, work := fs.Disk(), fs.files, fs.fds, fs.work;
    SameOpenRefl(fds);
    WritingSafe(fs, h, o, k, x, v0, files0, pd);
    DraftIndex(fs.g, v, files, fds, o, k, x, work);
    DraftSaved(fs.g, v, files, fds, o, k, x, work);
    res, newPix := MoveBuffer(fs, fs.fds[h].objId, o, k, x);
    if res == Ok {
      StoredAway(fs.g, v0, files0, v, files, fds, o, k, x, work, pd, newPix, IxUpd, o + IX_FLAG, 0);
      SizesStay(fds, o, size, IxUpd, o + IX_FLAG, k, newPix);
      StaysOpen(fds, h, o, IxUpd, o + IX_FLAG, k, newPix, 0);
      RestingSafe(fs, h, o, v0, files0, pd);
    }
  }

  lemma WorkShape(fs: Spiffs)
    requires fs.FlashOk()
    ensures PageShape(fs.g, fs.work)
  {}

  /** Stores the modified index page or header. */
  method StoreModified(fs: Spiffs, h: nat, o: nat, k: nat, x: nat,
                       ghost v0: Volume, ghost files0: Files, ghost pd: seq<seq<Byte>>, ghost m: nat, ghost size: nat)
    returns (res: Code, newPix: nat)
    requires Modifying(fs, h, o, k, x, v0, files0, pd, m, size) && size > 0
    modifies fs
    ensures Paid(old(fs.Budget()), 1, res == Ok, fs.Budget())
    ensures SameOpen(old(fs.fds), fs.fds)
    ensures Safe(fs, o, v0, files0) && (res == Ok || res == ErrFull || res == ErrNotFound)
    ensures res == Ok ==>
              Modified(fs, h, o, v0, files0, pd, m, size) && (k > 0 ==> IndexAt(fs.Disk(), fs.files, o, k, newPix))
    ensures res == Ok ==> fs.files == old(fs.files)[o := old(fs.files)[o].(ixp := fs.files[o].ixp)]
    ensures res != Ok ==> fs.Disk() == old(fs.Disk())
    ensures fs.Ran(old(fs.freeBlocks), res) && fs.StillStuck(old(fs.Stuck()), res)
  {
    hide Spiffs.Budget, Spiffs.Stuck, Spiffs.FlashOk, Saved, Progress, Kept, SizesAre, HeaderLive, Behind, Safe;
    newPix := 0;
    if k == 0 {
      res := StoreHeader(fs, h, o, x, 0, v0, files0, pd);
    } else {
      res, newPix := StoreIndexAway(fs, h, o, k, x, v0, files0, pd, m, size);
    }
  }

  // ---------- the operation ----------

  /** Where byte n of the file is. */
  lemma ByteInside(g: Geometry, pd: seq<seq<Byte>>, size: nat, n: nat, s: nat, po: nat)
    requires g.Wf() && Sized(g, pd, size) && n < size && NextByte(g, n, s, po)
    ensures s < |pd| && po < g.dataSize && n == Times(s, g.dataSize) + po
    ensures s + 1 < |pd| ==> Times(s, g.dataSize) + g.dataSize <= size
  {
    QuotRem(n, g.dataSize);
    if s >= |pd| {
      TimesMono(|pd|, s, g.dataSize);
    } else if s + 1 < |pd| {
      TimesMono(s + 1, |pd| - 1, g.dataSize);
    }
  }

  /** Changing bytes inside the file changes just them. */
  lemma ChunkChanged(g: Geometry, pd: seq<seq<Byte>>, size: nat, s: nat, po: nat, chunk: seq<Byte>)
    requires g.Wf() && Sized(g, pd, size) && s < |pd| && |pd[s]| == g.dataSize && po + |chunk| <= g.dataSize
    requires Times(s, g.dataSize) + po + |chunk| <= size
    ensures var pd' := pd[s := Patch(pd[s], po, chunk)];
            && Sized(g, pd', size)
            && Flatten(pd', g.dataSize, size) == Write(Flatten(pd, g.dataSize, size), Times(s, g.dataSize) + po, chunk)
  {
    FlattenPatch(pd, g.dataSize, size, size, s, po, chunk);
  }

  /** All data pages are full pages on the flash. */
  lemma PagesFull(fs: Spiffs, h: nat, o: nat, k: nat, x: nat, v0: Volume, files0: Files, pd: seq<seq<Byte>>, s: nat)
    requires Writing(fs, h, o, k, x, v0, files0, pd) && s < |pd|
    ensures |pd[s]| == fs.g.dataSize && |pd| <= FREE && |pd| == |fs.files[o].dap|
  {
    var V := Pending(fs.Disk(), x, o, fs.work);
    ProgressLen(v0, files0, V, fs.files, o, pd);
    DraftData(fs.g, fs.Disk(), fs.files, fs.fds, o, k, x, fs.work, s);
    PageBound(fs.g, V, fs.files, fs.fds, o);
  }

  /** Before or between the chunks of a modification that has written the bytes so far. */
  ghost predicate ModifiedSoFar(g: Geometry, pd: seq<seq<Byte>>, m: nat, size: nat, c: seq<Byte>)
    requires g.Wf()
  {
    Sized(g, pd, size) && |pd| > 0 && m == g.IxSpan(|pd| - 1) + 1 && Flatten(pd, g.dataSize, size) == c
  }

  lemma SizesCursor(fds: seq<Fd>, o: nat, size: nat, h: nat, x: nat, k: nat)
    requires SizesAre(fds, o, size) && h < |fds|
    ensures SizesAre(fds[h := fds[h].(cursorPix := x, cursorSpix := k, size := fds[h].size)], o, size)
  {}

  /** Brings the index page that data page dataSpix belongs to into the buffer. */
  method NextToModify(fs: Spiffs, h: nat, o: nat, prev: Option<nat>, y: nat, k: nat,
                      ghost v0: Volume, ghost files0: Files, ghost pd: seq<seq<Byte>>, ghost m: nat, ghost size: nat)
    returns (res: Code, x: nat)
    requires prev == None ==> Modified(fs, h, o, v0, files0, pd, m, size)
    requires prev.Some? ==> Modifying(fs, h, o, prev.value, y, v0, files0, pd, m, size)
    requires k < m <= HALF_MAX && size > 0 && prev != Some(k)
    modifies fs
    ensures Paid(old(fs.Budget()), 1, res == Ok, fs.Budget())
    ensures SameOpen(old(fs.fds), fs.fds)
    ensures Safe(fs, o, v0, files0) && (res == Ok || res == ErrFull || res == ErrNotFound)
    ensures res == Ok ==> Modifying(fs, h, o, k, x, v0, files0, pd, m, size)
    ensures res != Ok ==> prev.Some? && fs.Disk() == old(fs.Disk())
    ensures fs.Ran(old(fs.freeBlocks), res)
  {
    hide Spiffs.Budget, Spiffs.Stuck, Spiffs.FlashOk, Saved, Progress, Kept, SizesAre, HeaderSize, HeaderLive, Safe;
    x := y;
    if prev.Some? {
      var stored;
      res, stored := StoreModified(fs, h, o, prev.value, y, v0, files0, pd, m, size);
      if res != Ok {
        return;
      }
    }
    res, x := LoadIndex(fs, h, o, k, true, v0, files0, pd);
    SizesCursor(fs.fds, o, size, h, x, k);
    SetCursor(fs, h, o, k, x, fs.fds[h].size, v0, files0, pd);
    WritingSafe(fs, h, o, k, x, v0, files0, pd);
  }

  /** Between two chunks, as for appending: index page prev, if the loop has come to one, is in the buffer. */
  ghost predicate BetweenMods(fs: Spiffs, h: nat, o: nat, prev: Option<nat>, x: nat, off: nat, data: seq<Byte>,
      written: nat, dataSpix: nat, pageOffs: nat, v0: Volume, files0: Files, pd: seq<seq<Byte>>, m: nat, size: nat,
      c0: seq<Byte>)
    reads fs
  {
    && fs.g.Wf() && written <= |data| && off + |data| <= size == |c0| && pageOffs < fs.g.dataSize
    && (prev == None ==> written == 0 && Modified(fs, h, o, v0, files0, pd, m, size))
    && (prev.Some? ==> Modifying(fs, h, o, prev.value, x, v0, files0, pd, m, size))
    && (written < |data| ==> NextByte(fs.g, off + written, dataSpix, pageOffs))
    && ModifiedSoFar(fs.g, pd, m, size, Write(c0, off, data[..written]))
  }

  /** While an index page is in the buffer: what the file reads as. */
  lemma ModifyingReads(fs: Spiffs, h: nat, o: nat, k: nat, x: nat, v0: Volume, files0: Files, pd: seq<seq<Byte>>,
      m: nat, size: nat, c0: seq<Byte>, off: nat, data: seq<Byte>)
    requires Modifying(fs, h, o, k, x, v0, files0, pd, m, size) && off <= |c0| && size < UNDEFINED_LEN
    requires ModifiedSoFar(fs.g, pd, m, size, Write(c0, off, data))
    ensures fs.g.Wf() && PartOrTorn(fs.g, fs.Disk(), o, c0, off, data)
  {
    hide Reads, Torn, Flatten, Draft, Progress, Write, PartWritten, Behind, HeaderLive, HeaderSize;
    ReadsOrTorn(fs.g, v0, files0, fs.Disk(), fs.files, fs.fds, o, k, x, fs.work, pd, size);
    if !Torn(fs.g, fs.Disk(), o) {
      PartAll(fs.g, fs.Disk(), o, c0, off, data);
    }
  }

  lemma ModifiedReads(fs: Spiffs, h: nat, o: nat, v0: Volume, files0: Files, pd: seq<seq<Byte>>, m: nat, size: nat,
      c0: seq<Byte>, off: nat, data: seq<Byte>)
    requires Modified(fs, h, o, v0, files0, pd, m, size) && off <= |c0| && size < UNDEFINED_LEN
    requires ModifiedSoFar(fs.g, pd, m, size, Write(c0, off, data))
    ensures fs.g.Wf() && PartWritten(fs.g, fs.Disk(), o, c0, off, data)
  {
    hide Reads, Flatten, Resting, Write, PartWritten, HeaderLive, HeaderSize;
    RestingReads(fs, h, o, v0, files0, pd, size);
    PartAll(fs.g, fs.Disk(), o, c0, off, data);
  }

  /** One pass of the loop, as for appending. */
  method NextMod(fs: Spiffs, h: nat, o: nat, prev: Option<nat>, y: nat, off: nat, data: seq<Byte>, written: nat,
      dataSpix: nat, pageOffs: nat, ghost v0: Volume, ghost files0: Files, ghost pd: seq<seq<Byte>>, ghost m: nat,
      ghost size: nat, ghost c0: seq<Byte>)
    returns (direct: bool, res: Code, k: nat, x: nat, toWrite: nat, ghost pd': seq<seq<Byte>>)
    requires BetweenMods(fs, h, o, prev, y, off, data, written, dataSpix, pageOffs, v0, files0, pd, m, size, c0)
    requires written < |data| && m <= HALF_MAX && size < UNDEFINED_LEN
    modifies fs
    ensures SameOpen(old(fs.fds), fs.fds) && (res == Ok || res == ErrFull || res == ErrNotFound)
    ensures fs.g.Wf() && Paid(old(fs.Budget()), 2, res == Ok, fs.Budget()) && off <= |c0|
    ensures direct ==> res != Ok && Safe(fs, o, v0, files0) && PartOrTorn(fs.g, fs.Disk(), o, c0, off, data[..written])
    ensures res != Ok && !direct ==> pd' == pd && Modifying(fs, h, o, k, x, v0, files0, pd, m, size)
    ensures res != Ok && !direct ==> ModifiedSoFar(fs.g, pd, m, size, Write(c0, off, data[..written]))
    ensures res == Ok ==> 0 < toWrite == Min(|data| - written, fs.g.dataSize - pageOffs)
    ensures res == Ok ==> BetweenMods(fs, h, o, Some(k), x, off, data, written + toWrite, dataSpix + 1, 0, v0, files0,
                                      pd', m, size, c0)
    ensures fs.Ran(old(fs.freeBlocks), res)
  {
    hide Spiffs.Budget, Spiffs.Stuck, Modified, Modifying, ModifiedSoFar, Safe, Write, SameOpen, PartOrTorn, NextByte;
    ghost var fds := fs.fds;
    SameOpenRefl(fds);
    direct, pd', toWrite, res, x := false, pd, 0, Ok, y;
    // the chunk may belong to another index page than the last one
    k := fs.g.IxSpan(dataSpix);
    IndexInside(fs.g, pd, m, size, Write(c0, off, data[..written]), off + written, dataSpix, pageOffs);
    if prev != Some(k) {
      if prev.Some? {
        ModifyingReads(fs, h, o, prev.value, y, v0, files0, pd, m, size, c0, off, data[..written]);
      }
      res, x := NextToModify(fs, h, o, prev, y, k, v0, files0, pd, m, size);
      if res != Ok {
        direct := true;
        return;
      }
    }
    ghost var fds1 := fs.fds;
    toWrite := Min(|data| - written, fs.g.dataSize - pageOffs);
    ghost var changed;
    res, changed := ModifyChunk(fs, h, o, k, x, dataSpix, pageOffs, off + written, data[written..written + toWrite], v0,
                                files0, pd, m, size, Write(c0, off, data[..written]));
    SameOpenTrans(fds, fds1, fs.fds);
    if res == Ok {
      pd' := changed;
      WriteStep(c0, off, data, written, toWrite);
      ChunkNext(fs.g, off + written, dataSpix, pageOffs, |data| - written);
    }
  }

  lemma ChunkNext(g: Geometry, n: nat, dataSpix: nat, pageOffs: nat, len: nat)
    requires g.Wf() && NextByte(g, n, dataSpix, pageOffs) && len > 0
    ensures pageOffs < g.dataSize
    ensures var w := Min(len, g.dataSize - pageOffs); w < len ==> NextByte(g, n + w, dataSpix + 1, 0)
  {
    QuotRem(n, g.dataSize);
    var w := Min(len, g.dataSize - pageOffs);
    if w < len {
      QuotUnique(n + w, g.dataSize, dataSpix + 1, 0);
    }
  }

  /** The loop of the operation, as for appending. */
  method ModifyChunks(fs: Spiffs, h: nat, o: nat, off: nat, data: seq<Byte>,
                      ghost v0: Volume, ghost files0: Files, ghost pd0: seq<seq<Byte>>, ghost m: nat, ghost size: nat,
                      ghost c0: seq<Byte>)
    returns (direct: bool, res: Code, k: nat, x: nat, written: nat, ghost pd: seq<seq<Byte>>)
    requires fs.g.Wf() && m <= HALF_MAX && |data| > 0 && off + |data| <= size == |c0| < UNDEFINED_LEN
    requires Modified(fs, h, o, v0, files0, pd0, m, size) && ModifiedSoFar(fs.g, pd0, m, size, c0)
    modifies fs
    ensures SameOpen(old(fs.fds), fs.fds) && written <= |data|
    ensures (res == Ok || res == ErrFull || res == ErrNotFound) && (direct ==> res != Ok && Safe(fs, o, v0, files0))
    ensures direct ==> PartOrTorn(fs.g, fs.Disk(), o, c0, off, data[..written])
    ensures !direct ==> Modifying(fs, h, o, k, x, v0, files0, pd, m, size)
    ensures !direct ==> ModifiedSoFar(fs.g, pd, m, size, Write(c0, off, data[..written]))
    ensures res == Ok ==> written == |data|
    ensures Paid(old(fs.Budget()), 2 * ChunksAt(fs.g.dataSize, off, |data|), res == Ok, fs.Budget())
    ensures fs.Ran(old(fs.freeBlocks), res)
  {
    hide Spiffs.Budget, Spiffs.Stuck, BetweenMods, Modified, Modifying, ModifiedSoFar, Safe, Write, Chunks, OnBudget,
         SameOpen, PartOrTorn;
    ghost var fds0, before := fs.fds, fs.Budget();
    ModsBegin(fs, h, o, off, data, v0, files0, pd0, m, size, c0);
    QuotRem(off, fs.g.dataSize);
    direct, res, k, x, written, pd := false, Ok, 0, 0, 0, pd0;
    var dataSpix: nat, pageOffs: nat := Quot(off, fs.g.dataSize), Rem(off, fs.g.dataSize);
    ghost var cost := 2 * Chunks(fs.g.dataSize, pageOffs, |data|);
    BudgetBegins(before, 2, fs.g.dataSize, pageOffs, |data|);
    var prev: Option<nat> := None;
    SameOpenRefl(fds0);
    while written < |data|
      invariant res == Ok && 0 <= written <= |data| && !direct && SameOpen(fds0, fs.fds)
      invariant BetweenMods(fs, h, o, prev, x, off, data, written, dataSpix, pageOffs, v0, files0, pd, m, size, c0)
      invariant fs.Ran(old(fs.freeBlocks), Ok)
      invariant if prev.Some? then prev.value == k else written == 0
      invariant pageOffs < fs.g.dataSize
              && OnBudget(before, cost, fs.Budget(), 2, fs.g.dataSize, pageOffs, |data| - written)
      decreases |data| - written
    {
      ghost var b0, fds1 := fs.Budget(), fs.fds;
      var toWrite;
      direct, res, k, x, toWrite, pd :=
          NextMod(fs, h, o, prev, x, off, data, written, dataSpix, pageOffs, v0, files0, pd, m, size, c0);
      SameOpenTrans(fds0, fds1, fs.fds);
      ChunkPaid(before, cost, b0, res == Ok, fs.Budget(), 2, fs.g.dataSize, pageOffs, |data| - written);
      if res != Ok {
        return;
      }
      prev, pageOffs, dataSpix, written := Some(k), 0, dataSpix + 1, written + toWrite;
    }
    ModsEnd(fs, h, o, prev, x, off, data, written, dataSpix, pageOffs, v0, files0, pd, m, size, c0);
    BudgetEnds(before, cost, fs.Budget(), 2, fs.g.dataSize, pageOffs);
  }

  lemma ModsBegin(fs: Spiffs, h: nat, o: nat, off: nat, data: seq<Byte>, v0: Volume, files0: Files, pd: seq<seq<Byte>>,
      m: nat, size: nat, c0: seq<Byte>)
    requires fs.g.Wf() && Modified(fs, h, o, v0, files0, pd, m, size) && ModifiedSoFar(fs.g, pd, m, size, c0)
    requires off + |data| <= size == |c0|
    ensures BetweenMods(fs, h, o, None, 0, off, data, 0, Quot(off, fs.g.dataSize), Rem(off, fs.g.dataSize), v0, files0,
                        pd, m, size, c0)
  {
    hide Modified, ModifiedSoFar;
    QuotRem(off, fs.g.dataSize);
    WriteNothing(c0, off, data);
  }

  lemma ModsEnd(fs: Spiffs, h: nat, o: nat, prev: Option<nat>, x: nat, off: nat, data: seq<Byte>, written: nat,
      dataSpix: nat, pageOffs: nat, v0: Volume, files0: Files, pd: seq<seq<Byte>>, m: nat, size: nat, c0: seq<Byte>)
    requires BetweenMods(fs, h, o, prev, x, off, data, written, dataSpix, pageOffs, v0, files0, pd, m, size, c0)
    requires written == |data| > 0
    ensures fs.g.Wf() && prev.Some? && Modifying(fs, h, o, prev.value, x, v0, files0, pd, m, size)
    ensures off <= |c0| && ModifiedSoFar(fs.g, pd, m, size, Write(c0, off, data[..written]))
  {
    hide Modified, Modifying, ModifiedSoFar, Write;
  }

  /** The pages modifying takes at most: for each chunk a data page and the index page it ends, and at the end the last
      index page. */
  function ModifyCost(g: Geometry, off: nat, len: nat): nat
    requires g.Wf()
  {
    2 * ChunksAt(g.dataSize, off, len) + 1
  }

  lemma WriteNothing(c0: seq<Byte>, off: nat, data: seq<Byte>)
    requires off <= |c0|
    ensures Write(c0, off, data[..0]) == c0
  {}

  lemma WriteStep(c0: seq<Byte>, off: nat, data: seq<Byte>, written: nat, toWrite: nat)
    requires off + |data| <= |c0| && written + toWrite <= |data|
    ensures Write(Write(c0, off, data[..written]), off + written, data[written..written + toWrite]) ==
            Write(c0, off, data[..written + toWrite])
  {
    WriteWrite(c0, off, data[..written], data[written..written + toWrite]);
    assert data[..written] + data[written..written + toWrite] == data[..written + toWrite];
  }

  /** The index page of a byte inside the file exists, and the byte is where the chunk goes. */
  lemma IndexInside(g: Geometry, pd: seq<seq<Byte>>, m: nat, size: nat, c: seq<Byte>, n: nat, s: nat, po: nat)
    requires g.Wf() && ModifiedSoFar(g, pd, m, size, c) && n < size && NextByte(g, n, s, po)
    ensures g.IxSpan(s) < m && s < |pd| && po < g.dataSize && n == Times(s, g.dataSize) + po
  {
    ByteInside(g, pd, size, n, s, po);
    IxSpanBound(g, |pd| - 1, m);
    IxSpanBound(g, s, m);
  }

  /** Writes one chunk. */
  method ModifyChunk(fs: Spiffs, h: nat, o: nat, k: nat, x: nat, dataSpix: nat, pageOffs: nat, ghost n: nat,
      chunk: seq<Byte>,
                     ghost v0: Volume, ghost files0: Files, ghost pd: seq<seq<Byte>>, ghost m: nat, ghost size: nat,
                     ghost c: seq<Byte>)
    returns (res: Code, ghost pd': seq<seq<Byte>>)
    requires Modifying(fs, h, o, k, x, v0, files0, pd, m, size) && ModifiedSoFar(fs.g, pd, m, size, c)
    requires dataSpix < |pd| && k == fs.g.IxSpan(dataSpix) && pageOffs + |chunk| <= fs.g.dataSize
    requires n == Times(dataSpix, fs.g.dataSize) + pageOffs && n + |chunk| <= size == |c|
    modifies fs
    ensures Paid(old(fs.Budget()), 1, res == Ok, fs.Budget())
    ensures SameOpen(old(fs.fds), fs.fds)
    ensures res == Ok || res == ErrFull || res == ErrNotFound
    ensures res != Ok ==> Modifying(fs, h, o, k, x, v0, files0, pd, m, size)
    ensures res == Ok ==>
              && Modifying(fs, h, o, k, x, v0, files0, pd', m, size)
              && ModifiedSoFar(fs.g, pd', m, size, Write(c, n, chunk))
    ensures fs.Ran(old(fs.freeBlocks), res)
  {
    hide Spiffs.Budget, Spiffs.Stuck, Spiffs.FlashOk, Writing, Sized, SizesAre, HeaderSize, Patch, Write;
    PagesFull(fs, h, o, k, x, v0, files0, pd, dataSpix);
    ChunkChanged(fs.g, pd, size, dataSpix, pageOffs, chunk);
    pd' := pd[dataSpix := Patch(pd[dataSpix], pageOffs, chunk)];
    res := ModifyPage(fs, h, o, k, x, dataSpix, pageOffs, chunk, v0, files0, pd, m, size);
  }

  /** A file in order is where modifying it starts. */
  lemma ModifyStart(fs: Spiffs, h: nat, o: nat)
    requires fs.Sound() && !fs.cleaning && h < |fs.fds| && fs.fds[h].fileNbr != 0 && o == Base(fs.fds[h].objId)
    requires o in fs.files && 0 < Length(fs.files[o].size)
    ensures fs.g.Wf()
    ensures var v, files, size := fs.Disk(), fs.files, fs.files[o].size;
            var pd, m := PageData(v, files[o]), |files[o].ixp|;
            && Modified(fs, h, o, v, files, pd, m, size) && m <= HALF_MAX && HeaderLive(v, files[o])
            && ModifiedSoFar(fs.g, pd, m, size, Bytes(fs.g, v, files, o))
                && |Bytes(fs.g, v, files, o)| == size < UNDEFINED_LEN
  {
    OpenFile(fs, h);
    Begin(fs.g, fs.Disk(), fs.files, fs.fds, o);
    PageBound(fs.g, fs.Disk(), fs.files, fs.fds, o);
    forall i | 0 <= i < |fs.fds| && Base(fs.fds[i].objId) == o && fs.fds[i].fileNbr != 0
      ensures fs.fds[i].size == fs.files[o].size
    {
      assert FdSized(fs.fds[i], fs.files);
    }
  }

  /** The end of a modification that has gone well. */
  lemma ModifyDone(fs: Spiffs, h: nat, o: nat, v0: Volume, files0: Files, pd: seq<seq<Byte>>, m: nat, size: nat,
      c: seq<Byte>)
    requires Modified(fs, h, o, v0, files0, pd, m, size) && ModifiedSoFar(fs.g, pd, m, size, c)
    requires 0 < size < UNDEFINED_LEN
    requires o in files0 && HeaderLive(v0, files0[o])
    ensures var files' := fs.files[o := fs.files[o].(size := size)];
            && Consistent(fs.g, fs.Disk(), files') && FdsOk(fs.fds, files')
            && Bytes(fs.g, fs.Disk(), files', o) == c
            && Kept(v0, files0, fs.Disk(), files', o)
  {
    ProgressLen(v0, files0, fs.Disk(), fs.files, o, pd);
    Done(fs, h, o, v0, files0, pd, size);
  }

  /** A file's cursor may be on any of its index pages. */
  method SetStoredCursor(fs: Spiffs, h: nat, o: nat, k: nat, x: nat,
                         ghost v0: Volume, ghost files0: Files, ghost pd: seq<seq<Byte>>, ghost m: nat, ghost size: nat)
    requires Modified(fs, h, o, v0, files0, pd, m, size) && IndexAt(fs.Disk(), fs.files, o, k, x)
    modifies fs`fds
    ensures SameOpen(old(fs.fds), fs.fds)
    ensures Modified(fs, h, o, v0, files0, pd, m, size)
  {
    hide Spiffs.FlashOk, Progress, Saved, SizesAre;
    SizesCursor(fs.fds, o, size, h, x, k);
    CursorSet(fs.g, fs.Disk(), fs.files, fs.fds, o, h, k, fs.fds[h].size);
    fs.fds := fs.fds[h := fs.fds[h].(cursorPix := x, cursorSpix := k)];
  }

  /** Stores the last index page changed. */
  method FinishModify(fs: Spiffs, h: nat, o: nat, k: nat, x: nat,
                      ghost v0: Volume, ghost files0: Files, ghost pd: seq<seq<Byte>>, ghost m: nat,
                      ghost size: nat) returns (res: Code)
    requires Modifying(fs, h, o, k, x, v0, files0, pd, m, size) && size > 0
    modifies fs
    ensures Paid(old(fs.Budget()), 1, res == Ok, fs.Budget())
    ensures SameOpen(old(fs.fds), fs.fds)
    ensures Safe(fs, o, v0, files0) && (res == Ok || res == ErrFull || res == ErrNotFound)
    ensures res == Ok ==> Modified(fs, h, o, v0, files0, pd, m, size)
    ensures res != Ok ==> fs.Disk() == old(fs.Disk())
    ensures fs.Ran(old(fs.freeBlocks), res) && fs.StillStuck(old(fs.Stuck()), res)
  {
    hide Spiffs.Budget, Spiffs.Stuck, Spiffs.FlashOk, Kept, Saved, Progress, SizesAre, Draft, HeaderSize, HeaderLive,
         Behind;
    SizesCursor(fs.fds, o, size, h, x, k);
    SetCursor(fs, h, o, k, x, fs.fds[h].size, v0, files0, pd);
    // the last index page is still in the buffer only
    var newPix;
    res, newPix := StoreModified(fs, h, o, k, x, v0, files0, pd, m, size);
    if res == Ok {
      if k != 0 {
        SetStoredCursor(fs, h, o, k, newPix, v0, files0, pd, m, size);
      }
      RestingSafe(fs, h, o, v0, files0, pd);
    }
  }

  /** Modifying once there is room. */
  method ModifyData(fs: Spiffs, h: nat, o: nat, off: nat, data: seq<Byte>) returns (res: Code)
    requires fs.Sound() && !fs.cleaning && h < |fs.fds| && fs.fds[h].fileNbr != 0 && |data| > 0
    requires o == Base(fs.fds[h].objId) && o in fs.files && off + |data| <= Length(fs.files[o].size)
    modifies fs
    ensures SameOpen(old(fs.fds), fs.fds)
    ensures Safe(fs, o, old(fs.Disk()), old(fs.files)) && (res == Ok || res == ErrFull || res == ErrNotFound)
    ensures res == Ok ==> fs.Sound() && Open(fs.fds, h, o) && o in fs.files && fs.files[o].size == old(fs.files)[o].size
    ensures res == Ok ==> Content(fs, o) == Write(old(Content(fs, o)), off, data)
    ensures fs.g.Wf() && Paid(old(fs.Budget()), ModifyCost(fs.g, off, |data|), res == Ok, fs.Budget())
    ensures off <= |old(Content(fs, o))|
            && (res != Ok ==> PartOrTorn(fs.g, fs.Disk(), o, old(Content(fs, o)), off, data))
    ensures fs.Ran(old(fs.freeBlocks), res)
  {
    hide Spiffs.Budget, Spiffs.Stuck, ChunksAt, Spiffs.FlashOk, Consistent, FdsOk, Kept, ModifiedSoFar, Saved, Progress,
         SizesAre, Draft, HeaderSize, HeaderLive, Write, Behind, PartOrTorn, SameOpen, VolumeOf, Bytes, Pending;
    ghost var fds0 := fs.fds;
    ModifyStart(fs, h, o);
    ghost var v0, files0, size, m, pd := fs.Disk(), fs.files, fs.files[o].size, |fs.files[o].ixp|,
        PageData(fs.Disk(), fs.files[o]);
    ghost var c0 := Bytes(fs.g, v0, files0, o);
    var direct, k, x, written;
    direct, res, k, x, written, pd := ModifyChunks(fs, h, o, off, data, v0, files0, pd, m, size, c0);
    ghost var fds1 := fs.fds;
    if direct {
      PartOrTornGrows(fs.g, fs.Disk(), o, c0, off, data[..written], data);
      return;
    }
    ModifyingReads(fs, h, o, k, x, v0, files0, pd, m, size, c0, off, data[..written]);
    PartOrTornGrows(fs.g, fs.Disk(), o, c0, off, data[..written], data);
    var res2 := FinishModify(fs, h, o, k, x, v0, files0, pd, m, size);
    SameOpenTrans(fds0, fds1, fs.fds);
    if res2 != Ok {
      return res2;
    }
    ModifiedReads(fs, h, o, v0, files0, pd, m, size, c0, off, data[..written]);
    PartGrows(fs.g, fs.Disk(), o, c0, off, data[..written], data);
    PartIs(fs.g, fs.Disk(), o, c0, off, data);
    if res == Ok {
      assert data[..written] == data;
      ModifyDone(fs, h, o, v0, files0, pd, m, size, Write(c0, off, data));
      fs.files := fs.files[o := fs.files[o].(size := size)];
    }
  }

  /** The same without any bytes to write. */
  method ModifyNothing(fs: Spiffs, h: nat, o: nat, ghost off: nat) returns (res: Code, intact: bool)
    requires fs.Sound() && !fs.cleaning && h < |fs.fds| && fs.fds[h].fileNbr != 0
    requires o == Base(fs.fds[h].objId) && o in fs.files && off < Length(fs.files[o].size)
    modifies fs
    ensures SameOpen(old(fs.fds), fs.fds)
    ensures Safe(fs, o, old(fs.Disk()), old(fs.files))
    ensures res == Ok && intact ==>
            fs.Sound() && Open(fs.fds, h, o) && o in fs.files && fs.files[o].size == old(fs.files)[o].size
    ensures res == Ok && intact ==> Content(fs, o) == Write(old(Content(fs, o)), off, [])
    ensures old(fs.fds)[h].hdrPix in old(fs.Disk())
    ensures intact == HoldsHeader(old(fs.work), old(fs.Disk())[old(fs.fds)[h].hdrPix].page)
    ensures res == Ok && !intact ==> !Reads(fs.g, fs.Disk(), o, old(Content(fs, o)))
    ensures fs.g.Wf() && off <= |old(Content(fs, o))|
    ensures old(ValidObjIx(fs.work, fs.fds[h].objId, 0)) == Ok ==> Paid(old(fs.Budget()), 1, res == Ok, fs.Budget())
    ensures res != Ok ==> PartOrTorn(fs.g, fs.Disk(), o, old(Content(fs, o)), off, [])
    ensures fs.Ran(old(fs.freeBlocks), res)
  {
    hide Spiffs.Budget, Spiffs.Stuck, Spiffs.FlashOk, Consistent, FdsOk, SameContents, OthersSame, Kept, Write, Reads,
         HoldsHeader, Bytes, VolumeOf, PartOrTorn, PartWritten;
    ghost var v, files := fs.Disk(), fs.files;
    OpenFile(fs, h);
    BytesLength(fs.g, v, files, o);
    res, intact := StoreBuffer(fs, h);
    if res != Ok {
      KeptRefl(v, files, o);
      NothingWritten(fs, o, off, []);
      PartIs(fs.g, fs.Disk(), o, Content(fs, o), off, []);
    } else if intact {
      SameBytes(v, files, fs.Disk(), fs.files, fs.g, o);
      OpenFile(fs, h);
      BytesLength(fs.g, v, files, o);
      WriteNothing(Bytes(fs.g, v, files, o), off, []);
    }
  }

  lemma SafeKept(fs: Spiffs, o: nat, v0: Volume, files0: Files)
    requires Safe(fs, o, v0, files0)
    ensures fs.g.Wf() && fs.FlashOk() && !fs.cleaning && Kept(v0, files0, fs.Disk(), fs.files, o)
  {}

  /** Once there is room: with bytes to write, or without. */
  method ModifyWithRoom(fs: Spiffs, h: nat, o: nat, off: nat, data: seq<Byte>) returns (res: Code, intact: bool)
    requires fs.Sound() && !fs.cleaning && h < |fs.fds| && fs.fds[h].fileNbr != 0
    requires o == Base(fs.fds[h].objId) && o in fs.files && off + |data| <= Length(fs.files[o].size)
    requires off < Length(fs.files[o].size)
    modifies fs
    ensures SameOpen(old(fs.fds), fs.fds)
    ensures Safe(fs, o, old(fs.Disk()), old(fs.files))
    ensures res == Ok && intact ==>
            fs.Sound() && Open(fs.fds, h, o) && o in fs.files && fs.files[o].size == old(fs.files)[o].size
    ensures res == Ok && intact ==> Content(fs, o) == Write(old(Content(fs, o)), off, data)
    ensures data != [] ==> intact
    ensures data != [] ==> Paid(old(fs.Budget()), ModifyCost(fs.g, off, |data|), res == Ok, fs.Budget())
    ensures res == Ok && !intact ==> !Reads(fs.g, fs.Disk(), o, old(Content(fs, o)))
    ensures old(fs.fds)[h].hdrPix in old(fs.Disk())
    ensures data == [] ==> intact == HoldsHeader(old(fs.work), old(fs.Disk())[old(fs.fds)[h].hdrPix].page)
    ensures fs.g.Wf() && off <= |old(Content(fs, o))|
    ensures data == [] && old(ValidObjIx(fs.work, fs.fds[h].objId, 0)) == Ok ==>
            Paid(old(fs.Budget()), 1, res == Ok, fs.Budget())
    ensures res != Ok ==> PartOrTorn(fs.g, fs.Disk(), o, old(Content(fs, o)), off, data)
    ensures fs.Ran(old(fs.freeBlocks), res)
  {
    hide Spiffs.Budget, Spiffs.Stuck, ChunksAt, Spiffs.FlashOk, Consistent, FdsOk, Kept, Write, Reads, HoldsHeader,
         Bytes, VolumeOf, SameOpen, PartOrTorn;
    HeaderPlace(fs, h);
    OpenFile(fs, h);
    BytesLength(fs.g, fs.Disk(), fs.files, o);
    if data != [] {
      intact := true;
      res := ModifyData(fs, h, o, off, data);
    } else {
      res, intact := ModifyNothing(fs, h, o, off);
    }
  }

  /** spiffs_object_modify: overwrites bytes inside the file. When space runs out, either the first bytes of the data
      are there and the rest of the file is as it was, or the file is torn: pages have been replaced, but the index page
      that names the new ones could not be stored. Given no bytes, it stores the work buffer as the header of the file,
      which leaves the file as it was exactly if the buffer held the header (intact); unless garbage has been collected,
      the buffer is what it was before the call. When a cleaning has failed, one more file may be torn. */
  method ModifyObject(fs: Spiffs, h: nat, offset: nat, data: seq<Byte>)
    returns (res: Code, intact: bool, ghost gc: Collection)
    requires fs.Sound() && !fs.cleaning && h < |fs.fds| && fs.fds[h].fileNbr != 0
    requires offset + |data| <= Length(fs.fds[h].size) && offset < Length(fs.fds[h].size)
    modifies fs
    ensures SameOpen(old(fs.fds), fs.fds)
    ensures !fs.cleaning
    ensures res == Ok && intact ==> fs.Sound()
    ensures res == Ok && intact ==> var o := Base(old(fs.fds)[h].objId);
                          && Open(fs.fds, h, o) && o in old(fs.files) && o in fs.files
                          && fs.files[o].size == old(fs.files)[o].size
                          && offset <= |old(Content(fs, o))|
                              && Content(fs, o) == Write(old(Content(fs, o)), offset, data)
    ensures fs.FlashOk() && (res != ErrNotFound ==>
              OthersSame(fs.g, old(fs.Disk()), old(fs.files), fs.Disk(), fs.files, Base(old(fs.fds)[h].objId)))
    ensures Collected(fs, old(StateOf(fs)), gc, |data| + fs.g.dataSize, res)
    ensures data != [] ==> intact
    ensures data != [] ==> fs.g.Wf() && Paid(old(fs.Budget()), ModifyCost(fs.g, offset, |data|), res == Ok, fs.Budget())
    ensures var o := Base(old(fs.fds)[h].objId);
            && fs.g.Wf() && o in old(fs.files) && old(fs.fds)[h].hdrPix in old(fs.Disk())
            && (res == Ok && !intact ==> !Reads(fs.g, fs.Disk(), o, old(Content(fs, o))))
            && (old(Fits(fs, fs.g.dataSize)) && data == [] ==>
                  intact == HoldsHeader(old(fs.work), old(fs.Disk())[old(fs.fds)[h].hdrPix].page))
            && (old(Fits(fs, fs.g.dataSize) && ValidObjIx(fs.work, fs.fds[h].objId, 0) == Ok) && data == [] ==>
                  Paid(old(fs.Budget()), 1, res == Ok, fs.Budget()))
            && offset <= |old(Content(fs, o))|
            && (res != Ok ==> PartOrTorn(fs.g, fs.Disk(), o, old(Content(fs, o)), offset, data))
            && (res == ErrNotFound ==> Spared(fs.g, fs.Disk(), old(fs.Disk()), old(fs.files), o))
  {
    hide Spiffs.Budget, Spiffs.Stuck, ChunksAt, Spiffs.FlashOk, Consistent, FdsOk, SameContents, OthersSame, Kept,
         Write, Reads, HoldsHeader, Bytes, VolumeOf, Safe, PartOrTorn, PartWritten, Torn, Spared, Halfway, Collects,
         Collected, Spiffs.Ran, FromTo, StateOf;
    ghost var v00, files00, s00 := fs.Disk(), fs.files, StateOf(fs);
    HeaderPlace(fs, h);
    OpenFile(fs, h);
    var o := Base(fs.fds[h].objId);
    BytesLength(fs.g, v00, files00, o);
    CostFits(fs, offset, data);
    res, gc := GcCheck(fs, |data| + fs.g.dataSize);
    ghost var s, free := StateOf(fs), fs.freeBlocks;
    intact := true;
    if res != Ok {
      GcFailed(fs, s00, gc, |data| + fs.g.dataSize, res);
    }
    if res == ErrNotFound {
      HalfwayLeaves(fs.g, fs.Disk(), v00, files00, o);
      PartOr(fs.g, fs.Disk(), o, Bytes(fs.g, v00, files00, o), offset, data);
      return;
    }
    ghost var v, files := fs.Disk(), fs.files;
    SameBytes(v00, files00, v, files, fs.g, o);
    if res != Ok {
      KeptRefl(v, files, o);
      NothingWritten(fs, o, offset, data);
      PartIs(fs.g, v, o, Content(fs, o), offset, data);
    } else {
      OpenFile(fs, h);
      res, intact := ModifyWithRoom(fs, h, o, offset, data);
      SafeKept(fs, o, v, files);
      GcDone(fs, s00, s, gc, |data| + fs.g.dataSize, free, res);
    }
    OthersAreSame(fs.g, v00, files00, v, files, fs.Disk(), fs.files, o);
    SameIsSpared(fs, v00, files00, o);
  }
}
