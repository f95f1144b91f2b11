/** What spiffs_object_modify does when it is given no bytes. Its loop loads no index page then, and at the end it
    stores what the work buffer happens to hold as the header of the file. */
module Rewrite {
  import opened Wrappers
  import opened Layout
  import opened Volumes
  import opened Contents
  import opened Flash
  import opened Nucleus
  import opened Gc
  import opened Editing
  import opened Remains
  import opened Objects
  import opened Stopped

  /** The buffer holds the header page: its id, index and size, and no mark of a deletion under way. The rest of its
      flags and its span are looked at before it is stored. */
  predicate HoldsHeader(buffer: Page, header: Page) {
    buffer.id == header.id && buffer.ix == header.ix && buffer.size == header.size && buffer.flags.ixdele
  }

  /** With the header in the buffer, the file system stays in order. */
  lemma HeldKeeps(g: Geometry, v: Volume, files: Files, fds: seq<Fd>, o: nat, x: nat, q: nat, work: Page)
    requires g.Wf() && Consistent(g, v, files) && FdsOk(fds, files) && o in files && |files[o].ixp| > 0
    requires x == files[o].ixp[0] && x in v && HoldsHeader(work, v[x].page) && ValidObjIx(work, o + IX_FLAG, 0) == Ok
    requires q !in v && q < g.Pages()
    ensures var v', files' := (v - {x})[q := Cell(o + IX_FLAG, work)], HeaderAt(files, o, q);
            && Consistent(g, v', files') && FdsOk(FdsAfter(fds, IxUpd, o + IX_FLAG, 0, q, work.size), files')
            && SameContents(v, files, v', files') && Kept(v, files, v', files', o)
  {
    ConsistentFile(g, v, files, o);
    IndexOf(g, v, o, files[o], 0);
    var c := Cell(o + IX_FLAG, work);
    assert IndexCell(g, c, o, files[o].dap, 0);
    MoveIndexKeeps(g, v, files, o, 0, q, c);
    IndexMoved(fds, files, IxUpd, o + IX_FLAG, 0, q, work.size);
    SizesKept(fds, files, HeaderAt(files, o, q), IxUpd, o + IX_FLAG, 0, q, work.size, 0);
  }

  /** A reading of the volume with the buffer for a header has the same data pages, if it has as many bytes. */
  lemma SamePages(g: Geometry, v: Volume, o: nat, f: File, v': Volume, r: File, n: nat)
    requires g.Wf() && FileLinked(g, v, o, f) && DataLinked(g, v', o, r)
    requires forall p :: p in v' && v'[p].id == o ==> p in v && v[p] == v'[p]
    requires Sized(g, PageData(v, f), n) && n <= Times(|r.dap|, g.dataSize)
    ensures r.dap == f.dap
  {
    hide DataLinked, PageData;
    forall p | p in v' && v'[p].id == o
      ensures v'[p].page.span < |f.dap|
    {
      assert v[p] == v'[p];
    }
    NoLonger(g, v', o, r, |f.dap|);
    forall s | 0 <= s < |r.dap|
      ensures f.dap[s] == r.dap[s]
    {
      DataAt(g, v', o, r, s);
      assert v[r.dap[s]] == v'[r.dap[s]];
    }
    if |r.dap| < |f.dap| {
      TimesMono(|r.dap|, |f.dap| - 1, g.dataSize);
    }
  }

  /** If the file still reads as its bytes, the buffer held the header. */
  lemma HeldIfReads(g: Geometry, v: Volume, files: Files, o: nat, x: nat, q: nat, work: Page)
    requires g.Wf() && Consistent(g, v, files) && o in files && |files[o].ixp| > 0 && files[o].size != UNDEFINED_LEN
    requires x == files[o].ixp[0] && x in v && ValidObjIx(work, o + IX_FLAG, 0) == Ok && q !in v
    requires Reads(g, (v - {x})[q := Cell(o + IX_FLAG, work)], o, Bytes(g, v, files, o))
    ensures HoldsHeader(work, v[x].page)
  {
    hide IndexLinked, DataLinked, PageData, FileLinked, Flatten;
    var v', f := (v - {x})[q := Cell(o + IX_FLAG, work)], files[o];
    ConsistentFile(g, v, files, o);
    IndexOf(g, v, o, f, 0);
    var r :| ReadsWith(g, v', o, r, Bytes(g, v, files, o));
    BytesLength(g, v, files, o);
    assert r.ixp[0] == q;
    SamePages(g, v, o, f, v', r, f.size);
    FirstIndexCell(g, v', o, r);
    assert work.ix == v[x].page.ix;
  }

  lemma FirstIndexCell(g: Geometry, v: Volume, o: nat, f: File)
    requires g.Wf() && IndexLinked(g, v, o, f) && |f.ixp| > 0
    ensures f.ixp[0] in v && IndexCell(g, v[f.ixp[0]], o, f.dap, 0)
  {}

  /** A header of another file passes for the header of this one, as the check does not look at ids; but it is not. */
  lemma ForeignHeader(g: Geometry, v: Volume, files: Files, o: nat, o2: nat)
    requires g.Wf() && Consistent(g, v, files) && o in files && o2 in files && o != o2
    ensures |files[o].ixp| > 0 && |files[o2].ixp| > 0 && files[o].ixp[0] in v && files[o2].ixp[0] in v
    ensures var buffer := v[files[o2].ixp[0]].page;
            ValidObjIx(buffer, o + IX_FLAG, 0) == Ok && !HoldsHeader(buffer, v[files[o].ixp[0]].page)
  {
    ConsistentFile(g, v, files, o);
    ConsistentFile(g, v, files, o2);
    IndexOf(g, v, o, files[o], 0);
    IndexOf(g, v, o2, files[o2], 0);
  }

  /** With the buffer stored, the file reads as its bytes exactly if it held the header. */
  lemma Stored(g: Geometry, v: Volume, files: Files, fds: seq<Fd>, h: nat, o: nat, x: nat, q: nat, work: Page)
    requires g.Wf() && Consistent(g, v, files) && FdsOk(fds, files) && o in files && files[o].size != UNDEFINED_LEN
    requires Open(fds, h, o) && |files[o].ixp| > 0 && x == files[o].ixp[0] && x in v
    requires ValidObjIx(work, o + IX_FLAG, 0) == Ok && q !in v && q < g.Pages()
    ensures var v', holds := (v - {x})[q := Cell(o + IX_FLAG, work)], HoldsHeader(work, v[x].page);
            && (holds <==> Reads(g, v', o, Bytes(g, v, files, o)))
            && (holds ==> Consistent(g, v', HeaderAt(files, o, q)) && SameContents(v, files, v', HeaderAt(files, o, q)))
            && Kept(v, files, v', if holds then HeaderAt(files, o, q) else files, o)
    ensures var fds' := HdrMoved(FdsAfter(fds, IxUpd, o + IX_FLAG, 0, q, work.size), Some(h), q);
            SameOpen(fds, fds') && (HoldsHeader(work, v[x].page) ==> FdsOk(fds', HeaderAt(files, o, q)))
  {
    hide Consistent, FdsAfter, SameContents, Bytes, HoldsHeader, FdsSizedBut, FdsLinked, SameOpen, Reads;
    var v' := (v - {x})[q := Cell(o + IX_FLAG, work)];
    SizesSet(fds, files, h, o, IxUpd, o + IX_FLAG, q, work.size);
    StaysOpen(fds, h, o, IxUpd, o + IX_FLAG, 0, q, work.size);
    HeaderBase(g, v, files, o);
    if HoldsHeader(work, v[x].page) {
      HeldKeeps(g, v, files, fds, o, x, q, work);
      SameBytes(v, files, v', HeaderAt(files, o, q), g, o);
      ConsistentReads(g, v', HeaderAt(files, o, q), o);
    } else if Reads(g, v', o, Bytes(g, v, files, o)) {
      HeldIfReads(g, v, files, o, x, q, work);
    }
  }

  lemma BytesLength(g: Geometry, v: Volume, files: Files, o: nat)
    requires g.Wf() && o in files
    ensures |Bytes(g, v, files, o)| == Length(files[o].size)
  {}

  lemma HeaderBase(g: Geometry, v: Volume, files: Files, o: nat)
    requires g.Wf() && Consistent(g, v, files) && o in files && |files[o].ixp| > 0
    ensures files[o].ixp[0] in v && Base(v[files[o].ixp[0]].id) == o
  {
    ConsistentFile(g, v, files, o);
    IndexOf(g, v, o, files[o], 0);
  }

  /** The descriptor knows the header page. */
  lemma HeaderPlace(fs: Spiffs, h: nat)
    requires fs.Sound() && h < |fs.fds| && fs.fds[h].fileNbr != 0
    ensures var o, x := Base(fs.fds[h].objId), fs.fds[h].hdrPix;
            && o in fs.files && |fs.files[o].ixp| > 0 && fs.files[o].ixp[0] == x && x in fs.Disk()
            && x < |fs.pages| && fs.Disk()[x].page == fs.pages[x]
  {
    OpenFile(fs, h);
    assert FdLinked(fs.fds[h], fs.files);
    HeaderBase(fs.g, fs.Disk(), fs.files, Base(fs.fds[h].objId));
  }

  method CursorToHeader(fs: Spiffs, h: nat)
    requires fs.Sound() && h < |fs.fds| && fs.fds[h].fileNbr != 0
    modifies fs`fds
    ensures fs.Sound() && SameOpen(old(fs.fds), fs.fds) && |fs.fds| == |old(fs.fds)|
    ensures fs.fds[h].hdrPix == old(fs.fds)[h].hdrPix
    ensures fs.fds[h].fileNbr != 0 && fs.fds[h].objId == old(fs.fds)[h].objId
  {
    hide Spiffs.FlashOk, Consistent;
    HeaderPlace(fs, h);
    ghost var fds := fs.fds;
    fs.fds := fs.fds[h := fs.fds[h].(cursorPix := fs.fds[h].hdrPix, cursorSpix := 0)];
    forall i | 0 <= i < |fds|
      ensures FdLinked(fs.fds[i], fs.files) && (Base(fs.fds[i].objId) != 0 ==> FdSized(fs.fds[i], fs.files))
    {
      assert FdLinked(fds[i], fs.files) && (Base(fds[i].objId) != 0 ==> FdSized(fds[i], fs.files));
    }
  }

  /** Stores the work buffer as the header of the file. That leaves the bytes of the file as they were exactly if the
      buffer held the header; whether it did, the source does not look. */
  method StoreBuffer(fs: Spiffs, h: nat) returns (res: Code, intact: bool)
    requires fs.Sound() && !fs.cleaning && h < |fs.fds| && fs.fds[h].fileNbr != 0 && Length(fs.fds[h].size) > 0
    modifies fs
    ensures !fs.cleaning && fs.FlashOk() && SameOpen(old(fs.fds), fs.fds)
    ensures var o := Base(old(fs.fds)[h].objId);
            && fs.g.Wf() && o in old(fs.files) && old(fs.fds)[h].hdrPix in old(fs.Disk())
            && intact == HoldsHeader(old(fs.work), old(fs.Disk())[old(fs.fds)[h].hdrPix].page)
    ensures res == Ok && intact ==> fs.Sound() && SameContents(old(fs.Disk()), old(fs.files), fs.Disk(), fs.files)
    ensures var o := Base(old(fs.fds)[h].objId);
            res == Ok ==> (intact <==> Reads(fs.g, fs.Disk(), o, old(Content(fs, o))))
    ensures res == Ok ==> Kept(old(fs.Disk()), old(fs.files), fs.Disk(), fs.files, Base(old(fs.fds)[h].objId))
    ensures var valid := old(ValidObjIx(fs.work, fs.fds[h].objId, 0));
            if valid == Ok then res == Ok || res == ErrFull || res == ErrNotFound else res != Ok
    ensures res != Ok ==> fs.Sound() && fs.Disk() == old(fs.Disk()) && fs.files == old(fs.files)
    ensures old(ValidObjIx(fs.work, fs.fds[h].objId, 0)) == Ok ==> Paid(old(fs.Budget()), 1, res == Ok, fs.Budget())
    ensures fs.Ran(old(fs.freeBlocks), res)
  {
    hide Spiffs.Budget, Spiffs.Stuck, Spiffs.FlashOk, Consistent, FdsOk, FdsAfter, SameContents, OthersSame, Bytes,
         Kept, SameOpen, VolumeOf, HoldsHeader, Reads;
    ghost var v, files, work, fds0 := fs.Disk(), fs.files, fs.work, fs.fds;
    OpenFile(fs, h);
    ghost var o := Base(fs.fds[h].objId);
    var x := fs.fds[h].hdrPix;
    HeaderPlace(fs, h);
    intact := HoldsHeader(fs.work, fs.pages[x]);
    CursorToHeader(fs, h);
    ghost var fds := fs.fds;
    OpenFile(fs, h);
    var newPix;
    res, newPix := fs.UpdateIndexHdr(Some(h), fs.fds[h].objId, x, true, 0);
    if res == Ok {
      Stored(fs.g, v, files, fds, h, o, x, newPix, work);
      if intact {
        fs.files := HeaderAt(files, o, newPix);
      }
    } else {
      SameOpenRefl(fds);
    }
    SameOpenTrans(fds0, fds, fs.fds);
  }
}
