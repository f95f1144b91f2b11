/** Emptying a file, or removing it altogether (spiffs_object_truncate to size 0). */
module Truncate {
  import opened Wrappers
  import opened Nor
  import opened Layout
  import opened Volumes
  import opened Flash
  import opened Writes
  import opened Nucleus
  import opened Gc
  import opened Collect
  import opened Editing
  import opened Remains
  import opened Objects
  import opened Stopped
  import opened Append
  import opened Modify

  /** The header on the flash promises more bytes than n data pages hold. */
  ghost predicate Promises(fs: Spiffs, o: nat, n: nat)
    reads fs
  {
    o in fs.files && Length(HeaderSize(fs.Disk(), fs.files[o])) > Times(n, fs.g.dataSize)
  }

  /** The header page of the file, and whether it is not marked as being removed. */
  ghost function HeaderMark(fs: Spiffs, o: nat): Option<(nat, bool)>
    reads fs
  {
    if o in fs.files && |fs.files[o].ixp| > 0 && fs.files[o].ixp[0] in fs.Disk()
    then Some((fs.files[o].ixp[0], fs.Disk()[fs.files[o].ixp[0]].page.flags.ixdele))
    else None
  }

  /** With fewer data pages than promised the file is torn. */
  lemma TornPromise(fs: Spiffs, h: nat, o: nat, v0: Volume, files0: Files, pd: seq<seq<Byte>>)
    requires Resting(fs, h, o, v0, files0, pd) && Promises(fs, o, |pd|)
    ensures Torn(fs.g, fs.Disk(), o)
  {
    hide Torn;
    SavedParts(fs.g, fs.Disk(), fs.files, fs.fds, o);
    ProgressLen(v0, files0, fs.Disk(), fs.files, o, pd);
    TornFile(fs.g, fs.Disk(), o, fs.files[o], fs.Disk());
  }

  /** With none at all too, even if the buffer has a version of the header that knows. */
  lemma TornEmpty(fs: Spiffs, h: nat, o: nat, x: nat, v0: Volume, files0: Files)
    requires Writing(fs, h, o, 0, x, v0, files0, []) && Promises(fs, o, 0) && fs.Disk()[x].page.span == 0
    ensures Torn(fs.g, fs.Disk(), o)
  {
    hide Torn;
    var V := Pending(fs.Disk(), x, o, fs.work);
    SavedParts(fs.g, V, fs.files, fs.fds, o);
    ProgressLen(v0, files0, V, fs.files, o, []);
    TornFile(fs.g, V, o, fs.files[o], fs.Disk());
  }

  lemma TornFile(g: Geometry, V: Volume, o: nat, f: File, v: Volume)
    requires g.Wf() && FileLinked(g, V, o, f) && |f.ixp| > 0 && f.ixp[0] in v && v[f.ixp[0]].id == o + IX_FLAG
    requires v[f.ixp[0]].page.span == 0 && Length(v[f.ixp[0]].page.size) > Times(|f.dap|, g.dataSize)
    requires forall p :: p in v && p != f.ixp[0] ==> p in V && V[p] == v[p]
    ensures Torn(g, v, o)
  {
    hide Torn, IndexLinked, DataLinked;
    forall p | p in v && v[p].id == o
      ensures v[p].page.span < |f.dap|
    {
      assert V[p] == v[p];
    }
    TornShort(g, v, o, f.ixp[0], |f.dap|);
  }

  // ---------- data pages ----------

  /** The last data page has been deleted, and the buffer does not refer to it any more. */
  lemma DropStep(g: Geometry, v0: Volume, fs0: Files, v: Volume, fs: Files, fds: seq<Fd>, o: nat, k: nat, x: nat,
      work: Page, pd: seq<seq<Byte>>)
    requires g.Wf() && Draft(g, v, fs, fds, o, k, x, work) && Progress(v0, fs0, Pending(v, x, o, work), fs, o, pd)
    requires |fs[o].dap| > 0 && k == g.IxSpan(|fs[o].dap| - 1)
    ensures var s := |fs[o].dap| - 1;
            && g.IxEntry(s) < |work.ix|
            && var v', fs', work' := v - {fs[o].dap[s]}, fs[o := fs[o].(dap := fs[o].dap[..s])],
                work.(ix := work.ix[g.IxEntry(s) := FREE]);
            && Draft(g, v', fs', fds, o, k, x, work')
            && Progress(v0, fs0, Pending(v', x, o, work'), fs', o, pd[..s])
  {
    hide FileLinked, Linked;
    var V, f, s := Pending(v, x, o, work), fs[o], |fs[o].dap| - 1;
    DraftIndex(g, v, fs, fds, o, k, x, work);
    DraftData(g, v, fs, fds, o, k, x, work, s);
    SpanRoundTrip(g, s);
    DropData(g, V, fs, o);
    var fs', work' := fs[o := f.(dap := f.dap[..s])], work.(ix := work.ix[g.IxEntry(s) := FREE]);
    var V' := DataDropped(g, V, o, f);
    assert V' == Pending(v - {f.dap[s]}, x, o, work');
    DraftStep(g, V, fs, fds, o, V', fs');
    KeptTrans(v0, fs0, V, fs, V', fs', o);
    HeaderKept(g, V, f, V', fs'[o]);
  }

  /** The index page in the buffer has the span it had. */
  ghost predicate SpanKept(v: Volume, v': Volume, x: nat) {
    x in v && x in v' && v'[x].page.span == v[x].page.span
  }

  /** A page that is not the header does not matter to the size in it. */
  lemma SizeStays(v: Volume, f: File, p: nat, f': File)
    requires p !in f.ixp && f'.ixp == f.ixp
    ensures HeaderSize(v - {p}, f') == HeaderSize(v, f)
  {}

  /** Deletes a live page. */
  method DeleteLive(fs: Spiffs, pix: nat, ghost files: Files) returns (res: Code)
    requires fs.g.Wf() && fs.FlashOk() && pix in fs.Disk()
    modifies fs`lu, fs`pages, fs`statsDeleted, fs`statsAllocated, fs`files
    ensures res == Ok && fs.FlashOk() && fs.files == files
    ensures pix in old(fs.Disk()) && pix < |fs.pages|
            && fs.pages[pix].flags.ixdele == old(fs.Disk())[pix].page.flags.ixdele
    ensures fs.Disk() == old(fs.Disk()) - {pix}
    ensures fs.Budget() == old(fs.Budget()) && fs.freeBlocks == old(fs.freeBlocks)
  {
    hide Spiffs.Budget, Spiffs.Stuck, Spiffs.FlashOk, VolumeOf;
    LivePage(fs, pix);
    res := PageCheck(fs.g, pix);
    Loaded(fs, pix);
    ghost var s := fs.FlashNow();
    ghost var log := fs.PageDelete(pix);
    DeleteLeaves(s, pix);
    fs.files := files;
  }

  /** Deletes the last data page of the file. */
  method DropPage(fs: Spiffs, h: nat, o: nat, k: nat, x: nat, dataSpix: nat, ghost v0: Volume, ghost files0: Files,
      ghost pd: seq<seq<Byte>>)
    returns (res: Code)
    requires Writing(fs, h, o, k, x, v0, files0, pd) && |pd| == dataSpix + 1 && k == fs.g.IxSpan(dataSpix)
    modifies fs
    ensures res == Ok && Writing(fs, h, o, k, x, v0, files0, pd[..dataSpix])
    ensures fs.fds == old(fs.fds) && o in fs.files && |fs.files[o].ixp| == |old(fs.files[o]).ixp|
    ensures fs.Budget() == old(fs.Budget()) && fs.freeBlocks == old(fs.freeBlocks)
    ensures HeaderSize(fs.Disk(), fs.files[o]) == old(HeaderSize(fs.Disk(), fs.files[o]))
    ensures HeaderMark(fs, o) == old(HeaderMark(fs, o))
    ensures SpanKept(old(fs.Disk()), fs.Disk(), x)
  {
    hide Spiffs.Budget, Spiffs.Stuck, Spiffs.FlashOk, VolumeOf, Pending, Draft, Saved, Progress, IndexCell, HeaderSize;
    ghost var v, files, work := fs.Disk(), fs.files, fs.work;
    ProgressLen(v0, files0, Pending(v, x, o, work), files, o, pd);
    DraftIndex(fs.g, v, files, fs.fds, o, k, x, work);
    DropStep(fs.g, v0, files0, v, files, fs.fds, o, k, x, work, pd);
    DraftData(fs.g, v, files, fs.fds, o, k, x, work, dataSpix);
    var dataPix := fs.work.ix[fs.g.IxEntry(dataSpix)];
    fs.SetWorkEntry(fs.g.IxEntry(dataSpix), FREE);
    ghost var f := files[o].(dap := files[o].dap[..dataSpix]);
    SizeStays(v, files[o], dataPix, f);
    res := DeleteLive(fs, dataPix, files[o := f]);
  }

  // ---------- index pages ----------

  lemma IndexGone(fds: seq<Fd>, fs: Files, raw: nat, q: nat)
    requires FdsLinked(fds, fs) && Base(raw) in fs && |fs[Base(raw)].ixp| > 1
    ensures var o := Base(raw); var k := |fs[o].ixp| - 1;
            FdsLinked(FdsAfter(fds, IxDel, raw, k, q, 0), fs[o := fs[o].(ixp := fs[o].ixp[..k])])
  {
    var o := Base(raw);
    var k := |fs[o].ixp| - 1;
    var fs' := fs[o := fs[o].(ixp := fs[o].ixp[..k])];
    forall i | 0 <= i < |fds|
      ensures FdLinked(FdAfter(fds[i], IxDel, raw, k, q, 0), fs')
    {
      assert FdLinked(fds[i], fs);
    }
  }

  lemma SizesGone(fds: seq<Fd>, fs: Files, fs': Files, raw: nat, k: nat, q: nat, o: nat)
    requires FdsSizedBut(fds, fs, o) && fs'.Keys == fs.Keys && Base(raw) == o && k > 0
    requires forall o2 :: o2 in fs && o2 != o ==> fs'[o2].size == fs[o2].size
    ensures FdsSizedBut(FdsAfter(fds, IxDel, raw, k, q, 0), fs', o)
  {
    forall i | 0 <= i < |fds| && Base(FdAfter(fds[i], IxDel, raw, k, q, 0).objId) != o
      ensures FdSized(FdAfter(fds[i], IxDel, raw, k, q, 0), fs')
    {
      assert FdSized(fds[i], fs);
    }
  }

  /** The last index page, which refers to nothing any more, has been deleted, and that was announced. */
  lemma DropIndexStep(g: Geometry, v0: Volume, fs0: Files, v: Volume, fs: Files, fds: seq<Fd>, o: nat, k: nat, x: nat,
      work: Page, pd: seq<seq<Byte>>, raw: nat)
    requires g.Wf() && Draft(g, v, fs, fds, o, k, x, work) && Progress(v0, fs0, Pending(v, x, o, work), fs, o, pd)
    requires k > 0 && |fs[o].ixp| == k + 1 && |fs[o].dap| <= g.FirstSpan(k) && Base(raw) == o
    ensures var v', fs' := v - {x}, fs[o := fs[o].(ixp := fs[o].ixp[..k])];
            && Saved(g, v', fs', FdsAfter(fds, IxDel, raw, k, x, 0), o)
            && Progress(v0, fs0, v', fs', o, pd)
  {
    hide FileLinked, Linked, IndexCell;
    var V, f := Pending(v, x, o, work), fs[o];
    DraftIndex(g, v, fs, fds, o, k, x, work);
    DropIndex(g, V, fs, o);
    var v', fs' := v - {x}, fs[o := f.(ixp := f.ixp[..k])];
    assert V - {x} == v';
    KeptFiles(g, V, fs, v', fs', o);
    IndexGone(fds, fs, raw, x);
    SizesGone(fds, fs, fs', raw, k, x, o);
    KeptTrans(v0, fs0, V, fs, v', fs', o);
    IndexApart(g, V, o, f, k);
  }

  lemma HeaderOther(fs: Spiffs, h: nat, o: nat, k: nat, x: nat, v0: Volume, files0: Files, pd: seq<seq<Byte>>)
    requires Writing(fs, h, o, k, x, v0, files0, pd) && k > 0
    ensures HasHeader(fs.Disk(), fs.files[o]) && fs.files[o].ixp[0] != x
  {
    var V := Pending(fs.Disk(), x, o, fs.work);
    SavedParts(fs.g, V, fs.files, fs.fds, o);
    IndexApart(fs.g, V, o, fs.files[o], k);
  }

  /** Deletes the last index page, and announces that. */
  method DropIndexPage(fs: Spiffs, h: nat, o: nat, k: nat, x: nat, ghost v0: Volume, ghost files0: Files,
      ghost pd: seq<seq<Byte>>)
    returns (res: Code)
    requires fs.g.Wf() && |pd| <= fs.g.FirstSpan(k) && o in fs.files && k > 0 && |fs.files[o].ixp| == k + 1
    requires Writing(fs, h, o, k, x, v0, files0, pd)
    modifies fs
    ensures res == Ok && o in fs.files && |fs.files[o].ixp| == k && SameOpen(old(fs.fds), fs.fds)
    ensures h < |fs.fds| && h < old(|fs.fds|) && fs.fds[h].size == old(fs.fds[h].size)
    ensures fs.Budget() == old(fs.Budget()) && fs.freeBlocks == old(fs.freeBlocks)
    ensures old(HasHeader(fs.Disk(), fs.files[o])) && HasHeader(fs.Disk(), fs.files[o])
    ensures HeaderSize(fs.Disk(), fs.files[o]) == old(HeaderSize(fs.Disk(), fs.files[o]))
    ensures HeaderMark(fs, o) == old(HeaderMark(fs, o))
    ensures Resting(fs, h, o, v0, files0, pd)
  {
    hide Spiffs.Budget, Spiffs.Stuck, Spiffs.FlashOk, Saved, Progress, FdsAfter, IndexCell, VolumeOf, Pending, Draft,
         SameOpen;
    HeaderOther(fs, h, o, k, x, v0, files0, pd);
    ghost var v, files, fds, work := fs.Disk(), fs.files, fs.fds, fs.work;
    ProgressLen(v0, files0, Pending(v, x, o, work), files, o, pd);
    DraftIndex(fs.g, v, files, fds, o, k, x, work);
    DropIndexStep(fs.g, v0, files0, v, files, fds, o, k, x, work, pd, fs.fds[h].objId);
    StaysOpenGone(fds, h, o, fs.fds[h].objId, k, x);
    res := DeleteLive(fs, x, files[o := files[o].(ixp := files[o].ixp[..k])]);
    fs.ObjectEvent(IxDel, fs.fds[h].objId, fs.work.span, x, 0);
  }

  lemma StaysOpenGone(fds: seq<Fd>, h: nat, o: nat, raw: nat, k: nat, q: nat)
    requires Open(fds, h, o) && k > 0
    ensures SameOpen(fds, FdsAfter(fds, IxDel, raw, k, q, 0))
    ensures Open(FdsAfter(fds, IxDel, raw, k, q, 0), h, o) && FdsAfter(fds, IxDel, raw, k, q, 0)[h].size == fds[h].size
  {}

  /** Notes a size in the descriptor. */
  method SetSize(fs: Spiffs, h: nat, o: nat, k: nat, x: nat, size: nat, ghost v0: Volume, ghost files0: Files,
      ghost pd: seq<seq<Byte>>)
    requires Writing(fs, h, o, k, x, v0, files0, pd)
    modifies fs`fds
    ensures SameOpen(old(fs.fds), fs.fds)
    ensures Writing(fs, h, o, k, x, v0, files0, pd)
    ensures fs.fds == old(fs.fds)[h := old(fs.fds)[h].(size := size)]
  {
    hide Spiffs.FlashOk, Progress, Saved;
    CursorSet(fs.g, Pending(fs.Disk(), x, o, fs.work), fs.files, fs.fds, o, h, k, size);
    fs.fds := fs.fds[h := fs.fds[h].(size := size)];
  }

  // ---------- the loop ----------

  /** Before the last data page, data page s, is dropped. */
  lemma LastPage(g: Geometry, pd: seq<seq<Byte>>, size: nat)
    requires g.Wf() && Sized(g, pd, size) && size > 0
    requires |pd| > 1 ==> |pd[|pd| - 2]| == g.dataSize
    ensures |pd| > 0 && Quot(size - 1, g.dataSize) == |pd| - 1
    ensures var size' := if Rem(size, g.dataSize) == 0 then size - g.dataSize else size - Rem(size, g.dataSize);
            size' == Times(|pd| - 1, g.dataSize) && Sized(g, pd[..|pd| - 1], size')
  {
    SizedSpan(g, pd, size);
    var n := |pd| - 1;
    if n > 0 {
      assert Times(n, g.dataSize) == Times(n - 1, g.dataSize) + g.dataSize;
    }
  }

  lemma IndexEmptied(g: Geometry, n: nat)
    requires g.Wf() && n > 0 && g.IxSpan(n - 1) != g.IxSpan(n)
    ensures g.IxSpan(n) == g.IxSpan(n - 1) + 1 && g.FirstSpan(g.IxSpan(n)) == n
  {
    IxSpanStep(g, n - 1);
    IxSpanBound(g, n - 1, g.IxSpan(n));
    IxSpanBound(g, n, g.IxSpan(n));
  }

  /** Deletes the index page in the buffer, which is empty now. The header is brought up to date
      unless the whole file is to go. */
  method LeaveIndex(fs: Spiffs, h: nat, o: nat, k: nat, x: nat, curSize: Word, removeFull: bool,
                    ghost v0: Volume, ghost files0: Files, ghost pd: seq<seq<Byte>>) returns (res: Code)
    requires fs.g.Wf() && |pd| <= fs.g.FirstSpan(k) && o in fs.files && k > 0 && |fs.files[o].ixp| == k + 1
    requires Writing(fs, h, o, k, x, v0, files0, pd) && 0 < curSize < UNDEFINED_LEN
    modifies fs
    ensures SameOpen(old(fs.fds), fs.fds)
    ensures Safe(fs, o, v0, files0) && (res == Ok || res == ErrFull || res == ErrNotFound)
    ensures res == Ok ==> Resting(fs, h, o, v0, files0, pd) && |fs.files[o].ixp| == k
    ensures res != Ok && old(Promises(fs, o, |pd|)) ==> Torn(fs.g, fs.Disk(), o)
    ensures res == Ok && !removeFull ==> HeaderSize(fs.Disk(), fs.files[o]) == curSize
    ensures removeFull ==> HeaderMark(fs, o) == old(HeaderMark(fs, o))
    ensures if removeFull then res == Ok && fs.Budget() == old(fs.Budget())
            else Paid(old(fs.Budget()), 1, res == Ok, fs.Budget())
    ensures fs.Ran(old(fs.freeBlocks), res)
  {
    hide Spiffs.Budget, Spiffs.Stuck, Spiffs.FlashOk, VolumeOf, Saved, Progress, Draft, SameOpen, Kept, SizesAre, Torn,
         Pending;
    ghost var fds := fs.fds;
    res := DropIndexPage(fs, h, o, k, x, v0, files0, pd);
    RestingSafe(fs, h, o, v0, files0, pd);
    if Promises(fs, o, |pd|) {
      TornPromise(fs, h, o, v0, files0, pd);
    }
    if !removeFull {
      ghost var fds1 := fs.fds;
      res := UpdateSize(fs, h, o, curSize, v0, files0, pd);
      SameOpenTrans(fds, fds1, fs.fds);
      if res != Ok {
        return;
      }
    }
    ghost var fds2 := fs.fds;
    NoteSize(fs, h, o, 0, curSize, v0, files0, pd);
    SameOpenTrans(fds, fds2, fs.fds);
    RestingSafe(fs, h, o, v0, files0, pd);
  }

  lemma SameOpenSize(fds: seq<Fd>, fds': seq<Fd>, h: nat, size: nat)
    requires SameOpen(fds, fds') && h < |fds'|
    ensures SameOpen(fds, fds'[h := fds'[h].(size := size)])
  {}

  /** Brings the index page of the data page that is to go next into the buffer. */
  method NextToTruncate(fs: Spiffs, h: nat, o: nat, prev: Option<nat>, y: nat, k: nat, curSize: Word, removeFull: bool,
                        ghost v0: Volume, ghost files0: Files, ghost pd: seq<seq<Byte>>)
    returns (res: Code, x: nat)
    requires fs.g.Wf() && o in fs.files && |fs.files[o].ixp| == (if prev.Some? then prev.value + 1 else k + 1)
    requires prev == None ==> Resting(fs, h, o, v0, files0, pd)
    requires prev.Some? ==> Writing(fs, h, o, prev.value, y, v0, files0, pd)
    requires prev.Some? ==> prev.value == k + 1 && |pd| <= fs.g.FirstSpan(k + 1)
    requires k <= HALF_MAX && 0 < curSize < UNDEFINED_LEN && |pd| > 0 && Sized(fs.g, pd, curSize)
    requires removeFull || Promises(fs, o, if prev.Some? then |pd| else |pd| - 1)
    modifies fs
    ensures res != Ok ==> Torn(fs.g, fs.Disk(), o)
    ensures res == Ok ==> removeFull || Promises(fs, o, |pd| - 1)
    ensures removeFull ==> HeaderMark(fs, o) == old(HeaderMark(fs, o))
    ensures res == Ok ==> x in fs.Disk() && fs.Disk()[x].page.span == k
    ensures SameOpen(old(fs.fds), fs.fds)
    ensures Safe(fs, o, v0, files0) && (res == Ok || res == ErrFull || res == ErrNotFound)
    ensures res == Ok ==> Writing(fs, h, o, k, x, v0, files0, pd) && o in fs.files && |fs.files[o].ixp| == k + 1
    ensures prev == None || removeFull ==> res == Ok && fs.Budget() == old(fs.Budget())
    ensures Paid(old(fs.Budget()), 1, res == Ok, fs.Budget())
    ensures fs.Ran(old(fs.freeBlocks), res)
  {
    hide Spiffs.Budget, Spiffs.Stuck, Spiffs.FlashOk, VolumeOf, Saved, Progress, Draft, Torn, SameOpen;
    ghost var fds := fs.fds;
    SameOpenRefl(fds);
    x := y;
    if prev.Some? {
      res := LeaveIndex(fs, h, o, prev.value, y, curSize, removeFull, v0, files0, pd);
      if res != Ok {
        return;
      }
    }
    ghost var fds1 := fs.fds;
    res, x := LoadIndex(fs, h, o, k, false, v0, files0, pd);
    LoadedSpan(fs, h, o, k, x, v0, files0, pd);
    SetCursor(fs, h, o, k, x, fs.fds[h].size, v0, files0, pd);
    WritingSafe(fs, h, o, k, x, v0, files0, pd);
    SameOpenTrans(fds, fds1, fs.fds);
  }

  lemma LoadedSpan(fs: Spiffs, h: nat, o: nat, k: nat, x: nat, v0: Volume, files0: Files, pd: seq<seq<Byte>>)
    requires Writing(fs, h, o, k, x, v0, files0, pd)
    ensures x in fs.Disk() && fs.work.span == k
  {
    hide Saved, Progress;
    DraftIndex(fs.g, fs.Disk(), fs.files, fs.fds, o, k, x, fs.work);
  }

  lemma WritingParts(fs: Spiffs, h: nat, o: nat, k: nat, x: nat, v0: Volume, files0: Files, pd: seq<seq<Byte>>)
    requires Writing(fs, h, o, k, x, v0, files0, pd)
    ensures fs.g.Wf() && o in fs.files && |fs.files[o].dap| == |pd| <= FREE && |fs.files[o].ixp| <= FREE
    ensures forall s :: 0 <= s < |pd| ==> |pd[s]| == fs.g.dataSize
  {
    ProgressLen(v0, files0, Pending(fs.Disk(), x, o, fs.work), fs.files, o, pd);
    PageBound(fs.g, Pending(fs.Disk(), x, o, fs.work), fs.files, fs.fds, o);
    forall s | 0 <= s < |pd|
      ensures |pd[s]| == fs.g.dataSize
    {
      PagesFull(fs, h, o, k, x, v0, files0, pd, s);
    }
  }

  /** Deletes the last data page, and the bytes in it. */
  method DropLast(fs: Spiffs, h: nat, o: nat, k: nat, x: nat, dataSpix: nat, size: Word, ghost v0: Volume,
      ghost files0: Files, ghost pd: seq<seq<Byte>>)
    returns (res: Code, curSize: Word)
    requires fs.g.Wf() && Writing(fs, h, o, k, x, v0, files0, pd) && o in fs.files && Sized(fs.g, pd, size) && size > 0
    requires |pd| == dataSpix + 1 && k == fs.g.IxSpan(dataSpix)
    modifies fs
    ensures SameOpen(old(fs.fds), fs.fds)
    ensures res == Ok && Writing(fs, h, o, k, x, v0, files0, pd[..dataSpix]) && Sized(fs.g, pd[..dataSpix], curSize)
    ensures curSize < size
    ensures o in fs.files && |fs.files[o].ixp| == |old(fs.files[o]).ixp|
    ensures fs.Budget() == old(fs.Budget()) && fs.freeBlocks == old(fs.freeBlocks)
    ensures old(Promises(fs, o, dataSpix)) ==> Promises(fs, o, dataSpix)
    ensures HeaderMark(fs, o) == old(HeaderMark(fs, o))
    ensures SpanKept(old(fs.Disk()), fs.Disk(), x)
  {
    hide Spiffs.Budget, Spiffs.Stuck, Writing, Sized, VolumeOf, HeaderSize;
    WritingParts(fs, h, o, k, x, v0, files0, pd);
    LastPage(fs.g, pd, size);
    QuotRem(size, fs.g.dataSize);
    res := DropPage(fs, h, o, k, x, dataSpix, v0, files0, pd);
    if Rem(size, fs.g.dataSize) == 0 {
      curSize := size - fs.g.dataSize;
    } else {
      curSize := size - Rem(size, fs.g.dataSize);
    }
    SetSize(fs, h, o, k, x, curSize, v0, files0, pd[..dataSpix]);
  }

  lemma PromisesLess(fs: Spiffs, o: nat, n: nat)
    requires fs.g.Wf() && n > 0 && Promises(fs, o, n)
    ensures Promises(fs, o, n - 1)
  {}

  lemma PromisesAtFirst(fs: Spiffs, o: nat, pd: seq<seq<Byte>>, size: nat)
    requires fs.g.Wf() && o in fs.files && Sized(fs.g, pd, size) && 0 < size < UNDEFINED_LEN
    ensures |pd| > 0
    ensures HeaderSize(fs.Disk(), fs.files[o]) == size ==> Promises(fs, o, |pd| - 1)
  {}

  /** Before the last data page, data page dataSpix, is dropped: index page prev, if the loop has come to one, is in the
      buffer, and the header promises more than is left. */
  ghost predicate BetweenDrops(fs: Spiffs, h: nat, o: nat, prev: Option<nat>, x: nat, curSize: nat, dataSpix: int,
      removeFull: bool, v0: Volume, files0: Files, pd: seq<seq<Byte>>)
    reads fs
  {
    && fs.g.Wf() && o in fs.files && Sized(fs.g, pd, curSize) && |pd| == dataSpix + 1 && curSize < UNDEFINED_LEN
    && 1 <= |fs.files[o].ixp| <= FREE
    && (prev == None ==>
        |pd| > 0 && Resting(fs, h, o, v0, files0, pd) && |fs.files[o].ixp| == fs.g.IxSpan(|pd| - 1) + 1)
    && (prev.Some? ==> Writing(fs, h, o, prev.value, x, v0, files0, pd) && |fs.files[o].ixp| == prev.value + 1)
    && (prev.Some? ==> prev.value == fs.g.IxSpan(|pd|) && x in fs.Disk() && fs.Disk()[x].page.span == prev.value)
    && (removeFull || Promises(fs, o, if prev.Some? then |pd| else |pd| - 1))
  }

  /** One pass of the loop. */
  method NextDrop(fs: Spiffs, h: nat, o: nat, prev: Option<nat>, y: nat, size: Word, dataSpix: int, removeFull: bool,
      ghost v0: Volume, ghost files0: Files, ghost pd: seq<seq<Byte>>)
    returns (res: Code, k: nat, x: nat, curSize: Word, ghost pd': seq<seq<Byte>>)
    requires BetweenDrops(fs, h, o, prev, y, size, dataSpix, removeFull, v0, files0, pd) && size > 0
    modifies fs
    ensures SameOpen(old(fs.fds), fs.fds) && (res == Ok || res == ErrFull || res == ErrNotFound)
    ensures removeFull ==> res == Ok && fs.Budget() == old(fs.Budget())
    ensures res == Ok ==>
              curSize < size && o in old(fs.files) && o in fs.files && |fs.files[o].ixp| <= |old(fs.files)[o].ixp|
    ensures res == Ok ==> Paid(old(fs.Budget()), |old(fs.files)[o].ixp| - |fs.files[o].ixp|, true, fs.Budget())
    ensures res != Ok ==> o in old(fs.files) && old(fs.Budget()) < 1 < |old(fs.files)[o].ixp|
    ensures res != Ok ==> Safe(fs, o, v0, files0) && Torn(fs.g, fs.Disk(), o)
    ensures res == Ok ==> BetweenDrops(fs, h, o, Some(k), x, curSize, dataSpix - 1, removeFull, v0, files0, pd')
    ensures removeFull ==> HeaderMark(fs, o) == old(HeaderMark(fs, o))
    ensures fs.Ran(old(fs.freeBlocks), res)
  {
    hide Spiffs.Budget, Spiffs.Stuck, Resting, Writing, Sized, Safe, Torn, Promises, VolumeOf, SameOpen, HeaderMark;
    ghost var fds := fs.fds;
    SameOpenRefl(fds);
    SizedSpan(fs.g, pd, size);
    res, x, curSize, pd', k := Ok, y, size, pd, fs.g.IxSpan(dataSpix);
    // the index page of the last data page goes into the buffer
    if prev != Some(k) {
      if prev.Some? {
        IndexEmptied(fs.g, |pd|);
      }
      res, x := NextToTruncate(fs, h, o, prev, y, k, size, removeFull, v0, files0, pd);
      if res != Ok {
        return;
      }
    } else if !removeFull {
      PromisesLess(fs, o, |pd|);
    }
    ghost var fds1 := fs.fds;
    res, curSize := DropLast(fs, h, o, k, x, dataSpix, size, v0, files0, pd);
    pd' := pd[..dataSpix];
    SameOpenTrans(fds, fds1, fs.fds);
  }

  /** Deletes data and index pages from the end until only the header is left. */
  method DropAll(fs: Spiffs, h: nat, o: nat, size: Word, removeFull: bool, ghost v0: Volume, ghost files0: Files,
      ghost pd0: seq<seq<Byte>>)
    returns (res: Code, x: nat)
    requires fs.g.Wf() && o in fs.files && 0 < size < UNDEFINED_LEN && |pd0| > 0
    requires |fs.files[o].ixp| == fs.g.IxSpan(|pd0| - 1) + 1 <= FREE
    requires Resting(fs, h, o, v0, files0, pd0) && Sized(fs.g, pd0, size)
    requires removeFull || HeaderSize(fs.Disk(), fs.files[o]) == size
    modifies fs
    ensures SameOpen(old(fs.fds), fs.fds) && (res == Ok || res == ErrFull || res == ErrNotFound)
    ensures Safe(fs, o, v0, files0) && (res != Ok ==> Torn(fs.g, fs.Disk(), o))
    ensures removeFull ==> res == Ok && fs.Budget() == old(fs.Budget())
    ensures Paid(old(fs.Budget()), |old(fs.files)[o].ixp| - 1, res == Ok, fs.Budget())
    ensures res == Ok ==> x in fs.Disk() && fs.Disk()[x].page.span == 0 && (removeFull || Promises(fs, o, 0))
    ensures removeFull ==> HeaderMark(fs, o) == old(HeaderMark(fs, o))
    ensures res == Ok ==> Writing(fs, h, o, 0, x, v0, files0, []) && |fs.files[o].ixp| == 1
    ensures fs.Ran(old(fs.freeBlocks), res)
  {
    hide Spiffs.Budget, Spiffs.Stuck, BetweenDrops, Resting, Writing, Sized, Safe, Torn, Promises, VolumeOf, SameOpen,
         HeaderMark;
    ghost var pd, before, m, fds := pd0, fs.Budget(), |fs.files[o].ixp|, fs.fds;
    SameOpenRefl(fds);
    DropsBegin(fs, h, o, size, removeFull, v0, files0, pd);
    var prev: Option<nat> := None;
    var curSize: Word := size;
    var dataSpix: int := Quot(size - 1, fs.g.dataSize);
    res, x := Ok, 0;
    while curSize > 0
      invariant res == Ok && SameOpen(fds, fs.fds) && (curSize == 0 ==> prev.Some?) && o in fs.files
      invariant BetweenDrops(fs, h, o, prev, x, curSize, dataSpix, removeFull, v0, files0, pd)
      invariant removeFull ==> fs.Budget() == before
      invariant fs.Ran(old(fs.freeBlocks), Ok)
      invariant removeFull ==> HeaderMark(fs, o) == old(HeaderMark(fs, o))
      invariant 1 <= |fs.files[o].ixp| <= m && (before >= m - 1 ==> fs.Budget() >= before - (m - |fs.files[o].ixp|))
      decreases curSize
    {
      ghost var fds1 := fs.fds;
      var k;
      res, k, x, curSize, pd := NextDrop(fs, h, o, prev, x, curSize, dataSpix, removeFull, v0, files0, pd);
      SameOpenTrans(fds, fds1, fs.fds);
      if res != Ok {
        return;
      }
      prev, dataSpix := Some(k), dataSpix - 1;
      DropsHave(fs, h, o, prev, x, curSize, dataSpix, removeFull, v0, files0, pd);
    }
    DropsEnd(fs, h, o, prev, x, dataSpix, removeFull, v0, files0, pd);
  }

  lemma DropsBegin(fs: Spiffs, h: nat, o: nat, size: nat, removeFull: bool, v0: Volume, files0: Files,
      pd: seq<seq<Byte>>)
    requires fs.g.Wf() && o in fs.files && 0 < size < UNDEFINED_LEN && |pd| > 0
    requires |fs.files[o].ixp| == fs.g.IxSpan(|pd| - 1) + 1 <= FREE
    requires Resting(fs, h, o, v0, files0, pd) && Sized(fs.g, pd, size)
    requires removeFull || HeaderSize(fs.Disk(), fs.files[o]) == size
    ensures BetweenDrops(fs, h, o, None, 0, size, Quot(size - 1, fs.g.dataSize), removeFull, v0, files0, pd)
  {
    hide Resting;
    SizedSpan(fs.g, pd, size);
    PromisesAtFirst(fs, o, pd, size);
  }

  lemma DropsHave(fs: Spiffs, h: nat, o: nat, prev: Option<nat>, x: nat, curSize: nat, dataSpix: int,
      removeFull: bool, v0: Volume, files0: Files, pd: seq<seq<Byte>>)
    requires BetweenDrops(fs, h, o, prev, x, curSize, dataSpix, removeFull, v0, files0, pd)
    ensures o in fs.files && |fs.files[o].ixp| >= 1
  {
    hide Resting, Writing, Sized, Promises;
  }

  lemma DropsEnd(fs: Spiffs, h: nat, o: nat, prev: Option<nat>, x: nat, dataSpix: int, removeFull: bool, v0: Volume,
      files0: Files, pd: seq<seq<Byte>>)
    requires BetweenDrops(fs, h, o, prev, x, 0, dataSpix, removeFull, v0, files0, pd) && prev.Some?
    ensures Writing(fs, h, o, 0, x, v0, files0, []) && o in fs.files && |fs.files[o].ixp| == 1
    ensures x in fs.Disk() && fs.Disk()[x].page.span == 0 && (removeFull || Promises(fs, o, 0))
    ensures Safe(fs, o, v0, files0)
  {
    hide Resting, Writing, Promises, Safe;
    SizedNone(fs.g, pd, 0);
    WritingSafe(fs, h, o, 0, x, v0, files0, pd);
  }

  // ---------- emptying ----------

  /** The header now says that the file has no bytes; the descriptor is to say so too. */
  method NoteEmpty(fs: Spiffs, h: nat, o: nat, ghost v0: Volume, ghost files0: Files)
    requires o in files0 && HeaderLive(v0, files0[o]) && o in fs.files && |fs.files[o].ixp| == 1
    requires Resting(fs, h, o, v0, files0, []) && SizesAre(fs.fds, o, UNDEFINED_LEN)
    requires HeaderSize(fs.Disk(), fs.files[o]) == UNDEFINED_LEN
    modifies fs`fds, fs`files
    ensures fs.Sound() && Open(fs.fds, h, o) && o in fs.files && Content(fs, o) == [] && Safe(fs, o, v0, files0)
    ensures SameOpen(old(fs.fds), fs.fds)
  {
    hide Spiffs.FlashOk, VolumeOf, Saved, Kept, Consistent, FdsOk, SameOpen, Bytes;
    ghost var fds0 := fs.fds;
    ProgressLen(v0, files0, fs.Disk(), fs.files, o, []);
    ProgressLive(v0, files0, fs.Disk(), fs.files, o, []);
    CursorSet(fs.g, fs.Disk(), fs.files, fs.fds, o, h, 0, 0);
    SameOpenRefl(fds0);
    SameOpenSize(fds0, fs.fds, h, 0);
    fs.fds := fs.fds[h := fs.fds[h].(size := 0)];
    Finish(fs.g, fs.Disk(), fs.files, fs.fds, o, UNDEFINED_LEN);
    SizeKept(v0, files0, fs.Disk(), fs.files, o, UNDEFINED_LEN);
    fs.files := fs.files[o := fs.files[o].(size := UNDEFINED_LEN)];
    EmptyContent(fs, o);
  }

  /** Stores the header of the file, which has no data pages any more, as that of an empty file. */
  method ResetHeader(fs: Spiffs, h: nat, o: nat, x: nat, ghost v0: Volume, ghost files0: Files) returns (res: Code)
    requires Writing(fs, h, o, 0, x, v0, files0, []) && |fs.files[o].ixp| == 1 && o in files0
    requires HeaderLive(v0, files0[o]) && x in fs.Disk() && fs.Disk()[x].page.span == 0 && Promises(fs, o, 0)
    modifies fs
    ensures SameOpen(old(fs.fds), fs.fds)
    ensures Safe(fs, o, v0, files0) && (res == Ok || res == ErrFull || res == ErrNotFound)
    ensures res == Ok ==> fs.Sound() && Open(fs.fds, h, o) && o in fs.files && Content(fs, o) == []
    ensures Paid(old(fs.Budget()), 1, res == Ok, fs.Budget())
    ensures res != Ok ==> Torn(fs.g, fs.Disk(), o)
    ensures fs.Ran(old(fs.freeBlocks), res)
  {
    hide Spiffs.Budget, Spiffs.Stuck, Spiffs.FlashOk, VolumeOf, Pending, Saved, Draft, Kept, Consistent, FdsOk, Torn,
         SameOpen, Bytes, HeaderLive, SizesAre, Content;
    TornEmpty(fs, h, o, x, v0, files0);
    ghost var fds0 := fs.fds;
    ProgressLen(v0, files0, Pending(fs.Disk(), x, o, fs.work), fs.files, o, []);
    DraftIndex(fs.g, fs.Disk(), fs.files, fs.fds, o, 0, x, fs.work);
    ghost var work := fs.work;
    WorkShape(fs);
    fs.SetWork(fs.work.(ix := seq<Half>(fs.g.ixLen, _ => HALF_MAX)));
    assert fs.work == work;
    res := StoreHeader(fs, h, o, x, UNDEFINED_LEN, v0, files0, []);
    if res == Ok {
      ghost var fds1 := fs.fds;
      NoteEmpty(fs, h, o, v0, files0);
      SameOpenTrans(fds0, fds1, fs.fds);
    }
  }

  lemma SizeKept(v0: Volume, files0: Files, v: Volume, files: Files, o: nat, size: nat)
    requires o in files && Kept(v0, files0, v, files, o)
    ensures Kept(v0, files0, v, files[o := files[o].(size := size)], o)
  {}

  // ---------- removing ----------

  /** Marking the header does not change the file. */
  lemma MarkStep(g: Geometry, v: Volume, fs: Files, fds: seq<Fd>, o: nat, flags: Flags)
    requires g.Wf() && Consistent(g, v, fs) && FdsOk(fds, fs) && o in fs && |fs[o].ixp| > 0 && fs[o].ixp[0] in v
    requires flags == AndFlags(v[fs[o].ixp[0]].page.flags, Flags(false, false, false, true, false))
    ensures var x := fs[o].ixp[0]; var v' := v[x := v[x].(page := v[x].page.(flags := flags))];
            && Saved(g, v', fs, fds, o) && Progress(v', fs, v', fs, o, PageData(v, fs[o])) && Kept(v, fs, v', fs, o)
  {
    Begin(g, v, fs, fds, o);
    var x := fs[o].ixp[0];
    var c := v[x].(page := v[x].page.(flags := flags));
    IndexOf(g, v, o, fs[o], 0);
    RewriteIndex(g, v, fs, o, 0, c);
    DraftStep(g, v, fs, fds, o, v[x := c], fs);
  }

  /** The descriptors of the object have been closed, and no others. */
  predicate Closed(fds: seq<Fd>, fds': seq<Fd>, o: nat) {
    && |fds'| == |fds|
    && forall i :: 0 <= i < |fds| ==>
         if Base(fds[i].objId) == o then fds'[i].fileNbr == 0
         else fds'[i].fileNbr == fds[i].fileNbr && fds'[i].objId == fds[i].objId
  }

  lemma ClosedFrom(fds: seq<Fd>, fds': seq<Fd>, fds'': seq<Fd>, o: nat)
    requires SameOpen(fds, fds') && Closed(fds', fds'', o)
    ensures Closed(fds, fds'', o)
  {}

  lemma FdsRemoved(fds: seq<Fd>, fs: Files, raw: nat, q: nat, o: nat)
    requires FdsLinked(fds, fs) && FdsSizedBut(fds, fs, o) && Base(raw) == o && o > 0
    ensures FdsOk(FdsAfter(fds, IxDel, raw, 0, q, 0), fs - {o})
    ensures Closed(fds, FdsAfter(fds, IxDel, raw, 0, q, 0), o)
  {
    forall i | 0 <= i < |fds|
      ensures var fd := FdAfter(fds[i], IxDel, raw, 0, q, 0);
              FdLinked(fd, fs - {o}) && (Base(fd.objId) != 0 ==> FdSized(fd, fs - {o}))
                  && (Base(fds[i].objId) == o ==> fd.fileNbr == 0)
    {
      assert FdLinked(fds[i], fs);
      if Base(fds[i].objId) != o {
        assert FdSized(fds[i], fs);
      }
    }
  }

  /** Deleting the header, the last page of the file, removes it. */
  lemma RemoveStep(g: Geometry, v0: Volume, fs0: Files, v: Volume, fs: Files, fds: seq<Fd>, o: nat, x: nat,
      work: Page, raw: nat)
    requires g.Wf() && Draft(g, v, fs, fds, o, 0, x, work) && Progress(v0, fs0, Pending(v, x, o, work), fs, o, [])
    requires |fs[o].ixp| == 1
    requires Base(raw) == o
    ensures var v', fs', fds' := v - {x}, fs - {o}, FdsAfter(fds, IxDel, raw, 0, x, 0);
            && Consistent(g, v', fs') && FdsOk(fds', fs') && Kept(v0, fs0, v', fs', o)
            && Closed(fds, fds', o)
  {
    var V := Pending(v, x, o, work);
    ProgressLen(v0, fs0, V, fs, o, []);
    RemoveFile(g, V, fs, o);
    assert V - {x} == v - {x};
    KeptFiles(g, V, fs, v - {x}, fs - {o}, o);
    FdsRemoved(fds, fs, raw, x, o);
    KeptTrans(v0, fs0, V, fs, v - {x}, fs - {o}, o);
  }

  lemma ClosedSize(fds: seq<Fd>, fs: Files, h: nat)
    requires FdsOk(fds, fs) && h < |fds| && fds[h].fileNbr == 0
    ensures FdsOk(fds[h := fds[h].(size := 0)], fs)
  {}

  /** Deletes the header page. */
  method RemoveHeader(fs: Spiffs, h: nat, o: nat, x: nat, ghost work: Page, ghost v0: Volume,
      ghost files0: Files) returns (res: Code)
    requires fs.g.Wf() && fs.FlashOk() && !fs.cleaning && Open(fs.fds, h, o)
    requires Draft(fs.g, fs.Disk(), fs.files, fs.fds, o, 0, x, work)
    requires Progress(v0, files0, Pending(fs.Disk(), x, o, work), fs.files, o, []) && |fs.files[o].ixp| == 1
    modifies fs
    ensures res == Ok && !fs.cleaning && fs.Sound() && o !in fs.files && Kept(v0, files0, fs.Disk(), fs.files, o)
    ensures Closed(old(fs.fds), fs.fds, o)
    ensures fs.Budget() == old(fs.Budget()) && fs.freeBlocks == old(fs.freeBlocks)
    ensures var m := old(HeaderMark(fs, o));
            m.Some? && m.value.0 < |fs.pages| && fs.pages[m.value.0].flags.ixdele == m.value.1
  {
    hide Spiffs.Budget, Spiffs.Stuck, Spiffs.FlashOk, Saved, Progress, FdsAfter, Consistent, FdsOk, Kept, VolumeOf,
         Pending;
    RemoveStep(fs.g, v0, files0, fs.Disk(), fs.files, fs.fds, o, x, work, fs.fds[h].objId);
    res := DeleteLive(fs, x, fs.files - {o});
    fs.ObjectEvent(IxDel, fs.fds[h].objId, 0, x, 0);
    ClosedSize(fs.fds, fs.files, h);
    fs.fds := fs.fds[h := fs.fds[h].(size := 0)];
  }

  /** The header is marked before anything is deleted. */
  method MarkRemoved(fs: Spiffs, h: nat, o: nat)
    requires fs.Sound() && !fs.cleaning && h < |fs.fds| && fs.fds[h].fileNbr != 0 && o == Base(fs.fds[h].objId)
    modifies fs`pages
    ensures fs.g.Wf() && o in fs.files && Resting(fs, h, o, fs.Disk(), fs.files, PageData(old(fs.Disk()), fs.files[o]))
    ensures Kept(old(fs.Disk()), fs.files, fs.Disk(), fs.files, o)
    ensures HeaderMark(fs, o) == Some((fs.fds[h].hdrPix, false))
  {
    hide Spiffs.FlashOk, Consistent, FdsOk, Saved, Progress, Kept;
    OpenFile(fs, h);
    Begin(fs.g, fs.Disk(), fs.files, fs.fds, o);
    HeaderOf(fs.g, fs.Disk(), fs.files, fs.fds, h, o);
    var hdrPix := fs.fds[h].hdrPix;
    MarkStep(fs.g, fs.Disk(), fs.files, fs.fds, o,
             AndFlags(fs.Disk()[hdrPix].page.flags, Flags(false, false, false, true, false)));
    fs.WriteFlags(hdrPix, Flags(false, false, false, true, false));
  }

  /** What the loop needs to know of the file. */
  lemma StartLoop(fs: Spiffs, h: nat, o: nat, v0: Volume, files0: Files, pd: seq<seq<Byte>>, off: nat)
    requires Starting(fs, h, o, v0, files0, pd, off)
    ensures Resting(fs, h, o, v0, files0, pd) && fs.g.Wf() && o in fs.files && Sized(fs.g, pd, off)
    ensures |fs.files[o].ixp| == (if |pd| == 0 then 1 else fs.g.IxSpan(|pd| - 1) + 1) <= FREE
    ensures off == 0 <==> |pd| == 0
  {
    PageBound(fs.g, fs.Disk(), fs.files, fs.fds, o);
    SizedSpan(fs.g, pd, off);
    SizedNone(fs.g, pd, off);
  }

  lemma SizedNone(g: Geometry, pd: seq<seq<Byte>>, n: nat)
    requires g.Wf() && Sized(g, pd, n)
    ensures n == 0 <==> |pd| == 0
  {}

  /** The pages emptying a file takes at most: the header for each index page given up, and once more at the end. */
  function EmptyCost(g: Geometry, size: nat): nat
    requires g.Wf()
  {
    if size == 0 then 0 else g.IxSpan(Quot(size - 1, g.dataSize)) + 3
  }

  /** Emptying a file that has bytes, once there is room. */
  method EmptyFile(fs: Spiffs, h: nat, o: nat) returns (res: Code)
    requires fs.Sound() && !fs.cleaning && h < |fs.fds| && fs.fds[h].fileNbr != 0 && o == Base(fs.fds[h].objId)
    requires o in fs.files && Length(fs.files[o].size) > 0
    modifies fs
    ensures SameOpen(old(fs.fds), fs.fds)
    ensures Safe(fs, o, old(fs.Disk()), old(fs.files)) && (res == Ok || res == ErrFull || res == ErrNotFound)
    ensures res == Ok ==> fs.Sound() && Open(fs.fds, h, o) && o in fs.files && Content(fs, o) == []
    ensures fs.g.Wf() && Paid(old(fs.Budget()), EmptyCost(fs.g, old(Length(fs.files[o].size))), res == Ok, fs.Budget())
    ensures res != Ok ==> Torn(fs.g, fs.Disk(), o)
    ensures fs.Ran(old(fs.freeBlocks), res)
  {
    hide Spiffs.Budget, Spiffs.Stuck, Spiffs.FlashOk, VolumeOf, Consistent, FdsOk, Starting, Resting, Writing, Safe,
         Content, Promises, Torn, SameOpen, HeaderLive;
    SizeInHeader(fs, o);
    ghost var fds := fs.fds;
    ghost var v0, files0, pd := fs.Disk(), fs.files, PageData(fs.Disk(), fs.files[o]);
    Start(fs, h, o);
    StartLoop(fs, h, o, v0, files0, pd, Length(fs.files[o].size));
    SizedSpan(fs.g, pd, Length(fs.files[o].size));
    OpenFile(fs, h);
    var x;
    res, x := DropAll(fs, h, o, Length(fs.fds[h].size), false, v0, files0, pd);
    ghost var fds1 := fs.fds;
    if res == Ok {
      // the file stays, with no length
      res := ResetHeader(fs, h, o, x, v0, files0);
      SameOpenTrans(fds, fds1, fs.fds);
    }
  }

  lemma SizeInHeader(fs: Spiffs, o: nat)
    requires fs.Sound() && o in fs.files
    ensures HeaderSize(fs.Disk(), fs.files[o]) == fs.files[o].size
  {
    ConsistentFile(fs.g, fs.Disk(), fs.files, o);
  }

  lemma SafeFrom(fs: Spiffs, o: nat, v: Volume, files: Files, v0: Volume, files0: Files)
    requires Safe(fs, o, v0, files0) && Kept(v, files, v0, files0, o)
    ensures Safe(fs, o, v, files)
  {
    KeptTrans(v, files, v0, files0, fs.Disk(), fs.files, o);
  }

  /** Removing a file with all its pages. */
  method RemoveAll(fs: Spiffs, h: nat, o: nat) returns (res: Code)
    requires fs.Sound() && !fs.cleaning && h < |fs.fds| && fs.fds[h].fileNbr != 0 && o == Base(fs.fds[h].objId)
    requires o in fs.files
    modifies fs
    ensures Safe(fs, o, old(fs.Disk()), old(fs.files)) && (res == Ok || res == ErrFull || res == ErrNotFound)
    ensures res == Ok ==> fs.Sound() && o !in fs.files && Closed(old(fs.fds), fs.fds, o)
    ensures fs.g.Wf() && res == Ok && fs.Budget() == old(fs.Budget())
    ensures old(fs.fds)[h].hdrPix < |fs.pages| && !fs.pages[old(fs.fds)[h].hdrPix].flags.ixdele
  {
    hide Spiffs.Budget, Spiffs.Stuck, Spiffs.FlashOk, Consistent, FdsOk, Starting, Saved, Progress, Kept, VolumeOf,
         Closed;
    ghost var v00, files00, fds0, pd := fs.Disk(), fs.files, fs.fds, PageData(fs.Disk(), fs.files[o]);
    Start(fs, h, o);
    StartLoop(fs, h, o, v00, files00, pd, Length(fs.files[o].size));
    OpenFile(fs, h);
    var size := Length(fs.fds[h].size);
    // mark the object first
    MarkRemoved(fs, h, o);
    ghost var v0, files0 := fs.Disk(), fs.files;
    HeaderOf(fs.g, v0, files0, fs.fds, h, o);
    SavedIndex(fs.g, v0, files0, fs.fds, o, 0);
    var x := fs.fds[h].hdrPix;
    ghost var work := fs.Disk()[x].page;
    SameOpenRefl(fs.fds);
    res := Ok;
    if size > 0 {
      res, x := DropAll(fs, h, o, size, true, v0, files0, pd);
      work := fs.work;
    }
    if res == Ok {
      ghost var fds1 := fs.fds;
      res := RemoveHeader(fs, h, o, x, work, v0, files0);
      ClosedFrom(fds0, fds1, fs.fds, o);
    }
    SafeFrom(fs, o, v00, files00, v0, files0);
  }

  lemma StillOpen(fds: seq<Fd>, fds': seq<Fd>, h: nat)
    requires SameOpen(fds, fds') && h < |fds|
    ensures h < |fds'| && fds'[h].fileNbr == fds[h].fileNbr && fds'[h].objId == fds[h].objId
  {}

  lemma ContentStays(fs: Spiffs, o: nat, v: Volume, files: Files)
    requires fs.Sound() && fs.g.Wf() && SameContents(v, files, fs.Disk(), fs.files) && o in files
    ensures Reads(fs.g, fs.Disk(), o, Bytes(fs.g, v, files, o))
  {
    hide Reads;
    SameBytes(v, files, fs.Disk(), fs.files, fs.g, o);
    SoundReads(fs, o);
  }

  lemma EmptyContent(fs: Spiffs, o: nat)
    requires fs.g.Wf() && o in fs.files && Length(fs.files[o].size) == 0
    ensures Content(fs, o) == []
  {}

  /** Emptying a file that has bytes: keeping the file takes a new header, so there must be room. If there is none, the
      file is as it was; if space runs out later, it is torn. When a cleaning has failed, one file may be torn, be it
      this one or another. */
  method EmptyObject(fs: Spiffs, h: nat) returns (res: Code, ghost gc: Collection)
    requires fs.Sound() && !fs.cleaning && h < |fs.fds| && fs.fds[h].fileNbr != 0 && Length(fs.fds[h].size) > 0
    modifies fs
    ensures !fs.cleaning && SameOpen(old(fs.fds), fs.fds)
    ensures fs.g.Wf() && Base(old(fs.fds)[h].objId) in old(fs.files)
    ensures var o := Base(old(fs.fds)[h].objId);
            && (res == Ok ==> fs.Sound() && Open(fs.fds, h, o) && o in fs.files && Content(fs, o) == [])
            && (res != ErrNotFound ==> OthersSame(fs.g, old(fs.Disk()), old(fs.files), fs.Disk(), fs.files, o))
            && (res == ErrNotFound ==> Spared(fs.g, fs.Disk(), old(fs.Disk()), old(fs.files), o))
            && (res != Ok ==> Reads(fs.g, fs.Disk(), o, old(Content(fs, o))) || Torn(fs.g, fs.Disk(), o))
    ensures fs.FlashOk() && (res == Ok || res == ErrFull || res == ErrNotFound)
    ensures Paid(old(fs.Budget()), EmptyCost(fs.g, old(Length(fs.fds[h].size))), res == Ok, fs.Budget())
    ensures Collected(fs, old(StateOf(fs)), gc, 2 * fs.g.dataSize, res)
  {
    hide Spiffs.Budget, Spiffs.FlashOk, VolumeOf, Consistent, FdsOk, SameContents, OthersSame, Kept, Reads, Torn,
         SameOpen, Bytes, Spared, Halfway, Collects, Collected, Spiffs.Ran, FromTo, StateOf;
    ghost var v00, files00, fds00, s00 := fs.Disk(), fs.files, fs.fds, StateOf(fs);
    OpenFile(fs, h);
    var o := Base(fs.fds[h].objId);
    RoomFits(fs, 2);
    res, gc := GcCheck(fs, fs.g.dataSize * 2);
    ghost var s, free := StateOf(fs), fs.freeBlocks;
    if res != Ok {
      GcFailed(fs, s00, gc, 2 * fs.g.dataSize, res);
    }
    if res == ErrNotFound {
      HalfwayLeaves(fs.g, fs.Disk(), v00, files00, o);
      return;
    }
    ghost var v, files, fds := fs.Disk(), fs.files, fs.fds;
    SameBytes(v00, files00, v, files, fs.g, o);
    KeptRefl(v, files, o);
    ContentStays(fs, o, v00, files00);
    StillOpen(fds00, fds, h);
    if res == Ok {
      OpenFile(fs, h);
      res := EmptyFile(fs, h, o);
      SameOpenTrans(fds00, fds, fs.fds);
      GcDone(fs, s00, s, gc, 2 * fs.g.dataSize, free, res);
    }
    OthersAreSame(fs.g, v00, files00, v, files, fs.Disk(), fs.files, o);
    SameIsSpared(fs, v00, files00, o);
  }

  /** spiffs_object_truncate to size 0: empties the file, or removes it. */
  method TruncateObject(fs: Spiffs, h: nat, removeFull: bool) returns (res: Code, ghost gc: Option<Collection>)
    requires fs.Sound() && !fs.cleaning && h < |fs.fds| && fs.fds[h].fileNbr != 0
    modifies fs
    ensures !fs.cleaning && (!removeFull ==> SameOpen(old(fs.fds), fs.fds))
    ensures fs.g.Wf() && Base(old(fs.fds)[h].objId) in old(fs.files)
    ensures res == Ok ==> fs.Sound()
    ensures var o := Base(old(fs.fds)[h].objId);
            && (res == Ok && !removeFull ==> Open(fs.fds, h, o) && o in fs.files && Content(fs, o) == [])
            && (res == Ok && removeFull ==> o !in fs.files && Closed(old(fs.fds), fs.fds, o))
            && (res != ErrNotFound ==> OthersSame(fs.g, old(fs.Disk()), old(fs.files), fs.Disk(), fs.files, o))
            && (res == ErrNotFound ==> Spared(fs.g, fs.Disk(), old(fs.Disk()), old(fs.files), o))
            && (res != Ok ==> Reads(fs.g, fs.Disk(), o, old(Content(fs, o))) || Torn(fs.g, fs.Disk(), o))
    ensures fs.FlashOk() && (res == Ok || res == ErrFull || res == ErrNotFound)
    ensures removeFull ==> res == Ok && fs.Budget() == old(fs.Budget())
    ensures removeFull ==> old(fs.fds)[h].hdrPix < |fs.pages| && !fs.pages[old(fs.fds)[h].hdrPix].flags.ixdele
    ensures Paid(old(fs.Budget()), EmptyCost(fs.g, old(Length(fs.fds[h].size))), res == Ok, fs.Budget())
    ensures gc.Some? <==> !removeFull && old(Length(fs.fds[h].size)) > 0
    ensures gc.Some? ==> Collected(fs, old(StateOf(fs)), gc.value, 2 * fs.g.dataSize, res)
    ensures gc == None ==> res == Ok
  {
    hide Spiffs.Budget, Spiffs.Stuck, Spiffs.FlashOk, VolumeOf, Consistent, FdsOk, SameContents, OthersSame, Kept,
         Reads, Torn, SameOpen, Closed, Bytes, Spared, Collected, StateOf;
    gc := None;
    ghost var v, files := fs.Disk(), fs.files;
    OpenFile(fs, h);
    ghost var o := Base(fs.fds[h].objId);
    SameOpenRefl(fs.fds);
    SameContentsRefl(v, files);
    KeptRefl(v, files, o);
    if removeFull {
      res := RemoveAll(fs, h, Base(fs.fds[h].objId));
      OthersAreSame(fs.g, v, files, v, files, fs.Disk(), fs.files, o);
    } else if fs.fds[h].size == UNDEFINED_LEN || fs.fds[h].size == 0 {
      OthersAreSame(fs.g, v, files, v, files, fs.Disk(), fs.files, o);
      EmptyContent(fs, o);
      res := Ok;
    } else {
      ghost var emptied;
      res, emptied := EmptyObject(fs, h);
      gc := Some(emptied);
    }
  }
}
