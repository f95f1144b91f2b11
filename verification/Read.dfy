/** Reading from a file (spiffs_object_read and the read call). */
module Read {
  import opened Wrappers
  import opened Nor
  import opened Layout
  import opened Volumes
  import opened Contents
  import opened Nucleus
  import opened Editing
  import opened Objects
  import opened Append
  import opened Modify

  /** Index page k of file o is in the work buffer just as it is on the flash. */
  ghost predicate Holding(fs: Spiffs, o: nat, k: nat)
    reads fs
  {
    && o in fs.files && k < |fs.files[o].ixp| && fs.files[o].ixp[k] in fs.Disk()
    && fs.work == fs.Disk()[fs.files[o].ixp[k]].page
  }

  lemma CursorMoved(fds: seq<Fd>, files: Files, h: nat, o: nat, k: nat)
    requires FdsOk(fds, files) && Open(fds, h, o) && o in files && k < |files[o].ixp|
    ensures var fds' := fds[h := fds[h].(cursorPix := files[o].ixp[k], cursorSpix := k)];
            FdsOk(fds', files) && Open(fds', h, o)
  {
    assert FdLinked(fds[h], files);
    assert FdSized(fds[h], files);
  }

  /** Loads the index page of data page dataSpix, and moves the cursor there. */
  method LoadFor(fs: Spiffs, h: nat, o: nat, k: nat) returns (res: Code)
    requires fs.Sound() && !fs.cleaning && Open(fs.fds, h, o) && o in fs.files && k < |fs.files[o].ixp|
    modifies fs`work, fs`cursorBlock, fs`cursorEntry, fs`fds
    ensures res == Ok && fs.Sound() && Open(fs.fds, h, o) && Holding(fs, o, k) && fs.fds[h].size == old(fs.fds[h].size)
    ensures SameOpen(old(fs.fds), fs.fds)
  {
    hide Spiffs.FlashOk, Consistent, FdsOk, Saved, Progress, Sized, Starting;
    ghost var v0, files0 := fs.Disk(), fs.files;
    Start(fs, h, o);
    StartRest(fs, h, o, v0, files0, PageData(v0, files0[o]), Length(files0[o].size));
    var objixPix;
    res, objixPix := LoadIndex(fs, h, o, k, true, v0, files0, PageData(v0, files0[o]));
    CursorMoved(fs.fds, fs.files, h, o, k);
    fs.fds := fs.fds[h := fs.fds[h].(cursorPix := objixPix, cursorSpix := k)];
  }

  lemma StartRest(fs: Spiffs, h: nat, o: nat, v0: Volume, files0: Files, pd: seq<seq<Byte>>, off: nat)
    requires Starting(fs, h, o, v0, files0, pd, off)
    ensures Resting(fs, h, o, v0, files0, pd) && |fs.files[o].ixp| <= FREE
  {
    PageBound(fs.g, fs.Disk(), fs.files, fs.fds, o);
  }

  /** The entry of the loaded index page leads to the data page, which passes the check. */
  lemma EntryLeads(fs: Spiffs, h: nat, o: nat, s: nat)
    requires fs.Sound() && !fs.cleaning && Open(fs.fds, h, o) && o in fs.files && s < |fs.files[o].dap|
    requires fs.g.Wf() && Holding(fs, o, fs.g.IxSpan(s))
    ensures fs.g.IxEntry(s) < |fs.work.ix|
    ensures var p := fs.work.ix[fs.g.IxEntry(s)];
            && PageCheck(fs.g, p) == Ok && p < |fs.pages| && |fs.pages[p].data| == fs.g.dataSize
            && PageData(fs.Disk(), fs.files[o])[s] == fs.pages[p].data
  {
    ConsistentFile(fs.g, fs.Disk(), fs.files, o);
    Begin(fs.g, fs.Disk(), fs.files, fs.fds, o);
    var k := fs.g.IxSpan(s);
    SavedIndex(fs.g, fs.Disk(), fs.files, fs.fds, o, k);
    DraftData(fs.g, fs.Disk(), fs.files, fs.fds, o, k, fs.files[o].ixp[k], fs.work, s);
    LivePage(fs, fs.files[o].dap[s]);
    Loaded(fs, fs.files[o].dap[s]);
  }

  /** The bytes of one page are a piece of the file. */
  lemma PieceRead(g: Geometry, pd: seq<seq<Byte>>, size: nat, n: nat, s: nat, po: nat, len: nat)
    requires g.Wf() && Sized(g, pd, size) && NextByte(g, n, s, po) && n + len <= size && len > 0
    requires po + len <= g.dataSize
    requires s < |pd| && |pd[s]| == g.dataSize
    ensures pd[s][po..po + len] == Flatten(pd, g.dataSize, size)[n..n + len]
  {
    QuotRem(n, g.dataSize);
    var piece, r := pd[s][po..po + len], Flatten(pd, g.dataSize, size)[n..n + len];
    forall i | 0 <= i < len
      ensures piece[i] == r[i]
    {
      QuotUnique(n + i, g.dataSize, s, po + i);
    }
  }

  /** The file as reading sees it. */
  lemma Readable(fs: Spiffs, h: nat, o: nat, n: nat, s: nat, po: nat)
    requires fs.Sound() && !fs.cleaning && Open(fs.fds, h, o) && o in fs.files && fs.g.Wf()
    requires n < Length(fs.files[o].size) && NextByte(fs.g, n, s, po)
    ensures Sized(fs.g, PageData(fs.Disk(), fs.files[o]), Length(fs.files[o].size))
    ensures s < |fs.files[o].dap| && po < fs.g.dataSize && fs.g.IxSpan(s) < |fs.files[o].ixp|
    ensures fs.fds[h].size == Length(fs.files[o].size)
  {
    ConsistentFile(fs.g, fs.Disk(), fs.files, o);
    var pd := PageData(fs.Disk(), fs.files[o]);
    ByteInside(fs.g, pd, fs.files[o].size, n, s, po);
    IxSpanBound(fs.g, |pd| - 1, |fs.files[o].ixp|);
    IxSpanBound(fs.g, s, |fs.files[o].ixp|);
    assert FdSized(fs.fds[h], fs.files);
  }

  /** Reads from one data page, whose index page is loaded. */
  method ReadPage(fs: Spiffs, h: nat, o: nat, curOffset: nat, dataSpix: nat, remaining: nat)
    returns (res: Code, bytes: seq<Byte>)
    requires fs.Sound() && !fs.cleaning && Open(fs.fds, h, o) && o in fs.files && fs.g.Wf() && remaining > 0
    requires curOffset + remaining <= Length(fs.files[o].size)
    requires NextByte(fs.g, curOffset, dataSpix, Rem(curOffset, fs.g.dataSize))
    requires Holding(fs, o, fs.g.IxSpan(dataSpix))
    ensures res == Ok && 0 < |bytes| <= remaining && IsSlice(bytes, Content(fs, o), curOffset, curOffset + |bytes|)
    ensures |bytes| < remaining ==>
            NextByte(fs.g, curOffset + |bytes|, dataSpix + 1, Rem(curOffset + |bytes|, fs.g.dataSize))
  {
    hide Spiffs.FlashOk, Consistent, FdsOk, Sized, NextByte, Flatten, Holding, PageCheck;
    ghost var po := Rem(curOffset, fs.g.dataSize);
    Readable(fs, h, o, curOffset, dataSpix, po);
    EntryLeads(fs, h, o, dataSpix);
    var dataPix := fs.work.ix[fs.g.IxEntry(dataSpix)];
    // cut at the end of the request, of the page, and of the file
    var lenToRead := Min(Min(remaining, fs.g.dataSize - Rem(curOffset, fs.g.dataSize)), fs.fds[h].size);
    res := PageCheck(fs.g, dataPix);
    PieceRead(fs.g, PageData(fs.Disk(), fs.files[o]), Length(fs.files[o].size), curOffset, dataSpix, po, lenToRead);
    bytes := fs.pages[dataPix].data[Rem(curOffset, fs.g.dataSize)..Rem(curOffset, fs.g.dataSize) + lenToRead];
    NextPage(fs.g, curOffset, dataSpix, lenToRead);
  }

  /** What has been read is bytes a up to b of the file. */
  ghost predicate IsSlice(dst: seq<Byte>, c: seq<Byte>, a: nat, b: nat) {
    a <= b <= |c| && dst == c[a..b]
  }

  lemma SliceStep(dst: seq<Byte>, c: seq<Byte>, a: nat, b: nat, bytes: seq<Byte>)
    requires IsSlice(dst, c, a, b) && IsSlice(bytes, c, b, b + |bytes|)
    ensures IsSlice(dst + bytes, c, a, b + |bytes|)
  {}

  lemma ContentLength(fs: Spiffs, o: nat)
    requires fs.g.Wf() && o in fs.files
    ensures |Content(fs, o)| == Length(fs.files[o].size)
    ensures forall a: nat | a <= |Content(fs, o)| :: IsSlice([], Content(fs, o), a, a)
  {}

  /** spiffs_object_read: gives the bytes of the file, and changes none. */
  method ReadObject(fs: Spiffs, h: nat, offset: nat, len: nat) returns (res: Code, dst: seq<Byte>)
    requires fs.Sound() && !fs.cleaning && h < |fs.fds| && fs.fds[h].fileNbr != 0
    requires offset + len <= Length(fs.fds[h].size)
    modifies fs`work, fs`cursorBlock, fs`cursorEntry, fs`fds
    ensures fs.Sound() && res == Ok && Open(fs.fds, h, Base(old(fs.fds)[h].objId)) && SameOpen(old(fs.fds), fs.fds)
    ensures var o := Base(old(fs.fds)[h].objId);
            && o in fs.files && offset + len <= |Content(fs, o)|
            && dst == Content(fs, o)[offset..offset + len]
  {
    hide Spiffs.FlashOk, Consistent, FdsOk, NextByte, Holding, Content, IsSlice;
    OpenFile(fs, h);
    var o := Base(fs.fds[h].objId);
    ContentLength(fs, o);
    ghost var c := Content(fs, o);
    res, dst := Ok, [];
    var dataSpix, curOffset := Quot(offset, fs.g.dataSize), offset;
    var prev: Option<nat> := None;
    SizedNext(fs.g, offset);
    while curOffset < offset + len
      invariant offset <= curOffset <= offset + len && res == Ok
      invariant fs.Sound() && Open(fs.fds, h, o) && SameOpen(old(fs.fds), fs.fds)
      invariant prev.Some? ==> Holding(fs, o, prev.value)
      invariant curOffset < offset + len ==> NextByte(fs.g, curOffset, dataSpix, Rem(curOffset, fs.g.dataSize))
      invariant IsSlice(dst, c, offset, curOffset)
      decreases offset + len - curOffset
    {
      Readable(fs, h, o, curOffset, dataSpix, Rem(curOffset, fs.g.dataSize));
      var curObjixSpix := fs.g.IxSpan(dataSpix);
      if prev != Some(curObjixSpix) {
        res := LoadFor(fs, h, o, curObjixSpix);
        prev := Some(curObjixSpix);
      }
      var bytes;
      res, bytes := ReadPage(fs, h, o, curOffset, dataSpix, offset + len - curOffset);
      SliceStep(dst, c, offset, curOffset, bytes);
      dst := dst + bytes;
      curOffset := curOffset + |bytes|;
      dataSpix := dataSpix + 1;
    }
    SliceIs(dst, c, offset, offset + len);
  }

  lemma SliceIs(dst: seq<Byte>, c: seq<Byte>, a: nat, b: nat)
    requires IsSlice(dst, c, a, b)
    ensures a <= b <= |c| && dst == c[a..b]
  {}

  lemma NextPage(g: Geometry, n: nat, s: nat, len: nat)
    requires g.Wf() && NextByte(g, n, s, Rem(n, g.dataSize)) && Rem(n, g.dataSize) + len <= g.dataSize
    ensures Rem(n, g.dataSize) + len == g.dataSize ==> NextByte(g, n + len, s + 1, Rem(n + len, g.dataSize))
  {
    QuotRem(n, g.dataSize);
    if Rem(n, g.dataSize) + len == g.dataSize {
      QuotUnique(n + len, g.dataSize, s + 1, 0);
    }
  }

  /** spiffs_hydro_read: reads what there is at the position, or reports the end of the file. */
  method HydroRead(fs: Spiffs, h: nat, pos: nat, len: nat) returns (res: Code, dst: seq<Byte>)
    requires fs.Sound() && !fs.cleaning && h < |fs.fds| && fs.fds[h].fileNbr != 0 && len > 0
    modifies fs`work, fs`cursorBlock, fs`cursorEntry, fs`fds
    ensures fs.Sound() && SameOpen(old(fs.fds), fs.fds) && Base(old(fs.fds)[h].objId) in fs.files
    ensures var c := Content(fs, Base(old(fs.fds)[h].objId));
            && (res == ErrEndOfObject <==> pos >= |c|)
            && (pos < |c| ==> res == Ok && dst == c[pos..Min(pos + len, |c|)])
  {
    hide Spiffs.FlashOk, Consistent, FdsOk, Flatten;
    OpenFile(fs, h);
    dst := [];
    if fs.fds[h].size == UNDEFINED_LEN {
      // an empty file gives nothing
      return ErrEndOfObject, dst;
    }
    if pos + len >= fs.fds[h].size {
      // only what is left of the file
      var avail := fs.fds[h].size - pos;
      if avail <= 0 {
        return ErrEndOfObject, dst;
      }
      res, dst := ReadObject(fs, h, pos, avail);
    } else {
      res, dst := ReadObject(fs, h, pos, len);
    }
  }
}
