/** The write and read calls on top of the object operations (spiffs_hydrogen.c, without caches). */
module Hydro {
  import opened Wrappers
  import opened Nor
  import opened Layout
  import opened Volumes
  import opened Contents
  import opened Nucleus
  import opened Collect
  import opened Rewrite
  import opened Editing
  import opened Remains
  import opened Objects
  import opened Stopped
  import opened Append
  import opened Modify

  lemma OthersSameTrans(g: Geometry, v: Volume, fs: Files, v1: Volume, fs1: Files, v2: Volume, fs2: Files, o: nat)
    requires g.Wf() && OthersSame(g, v, fs, v1, fs1, o) && OthersSame(g, v1, fs1, v2, fs2, o)
    ensures OthersSame(g, v, fs, v2, fs2, o)
  {
    forall o2 | o2 != o && o2 in fs
      ensures SameFile(v, fs[o2], v2, fs2[o2]) && FileLinked(g, v2, o2, fs2[o2]) && Settled(g, v2, fs2[o2])
    {
      assert SameFile(v, fs[o2], v1, fs1[o2]);
      assert SameFile(v1, fs1[o2], v2, fs2[o2]);
    }
  }

  /** Overwriting up to the end and appending the rest is writing over the end. */
  lemma WriteInTwo(c: seq<Byte>, off: nat, buf: seq<Byte>, m: nat)
    requires off <= |c| && m <= |buf| && (off + m == |c| || (m == |buf| && off + m <= |c|))
    ensures m < |buf| ==> Write(c, off, buf[..m]) + buf[m..] == Write(c, off, buf)
    ensures m == |buf| ==> Write(c, off, buf[..m]) == Write(c, off, buf)
  {
    assert buf[..m] + buf[m..] == buf;
  }

  /** The pages a write of len bytes at an offset of a file takes at most. */
  function WriteCost(g: Geometry, size: nat, off: nat, len: nat): nat
    requires g.Wf() && off <= size
  {
    var m := Min(size - off, len);
    (if m > 0 then ModifyCost(g, off, m) else 0) + (if len > m then AppendCost(g, size, len - m) else 0)
  }

  /** The bytes that room is made for, one collection after the other: to overwrite what lies inside the file, and to
      append the rest, each with one page more. */
  function WriteLens(g: Geometry, size: nat, off: nat, len: nat): seq<nat>
    requires g.Wf() && off <= size
  {
    var m := Min(size - off, len);
    if off < size then if len > m then [m + g.dataSize, len - m + g.dataSize] else [m + g.dataSize]
    else if len > 0 then [len + g.dataSize] else []
  }

  /** The collections made, of those that are called for: all if what they are for was done, and all but the last one
      have made room. */
  ghost predicate Tried(g: Geometry, gcs: seq<Collection>, lens: seq<nat>, done: bool) {
    && |gcs| <= |lens| && (done ==> |gcs| == |lens|)
    && forall i :: 0 <= i < |gcs| ==>
         Collects(g, gcs[i]) && gcs[i].len == lens[i] && (i + 1 < |gcs| || done ==> gcs[i].code == Ok)
  }

  /** The collections made, and the result that the last one has led to. */
  ghost predicate Made(fs: Spiffs, gcs: seq<Collection>, lens: seq<nat>, res: Code, done: bool)
    reads fs
  {
    && Tried(fs.g, gcs, lens, res == Ok && done)
    && (if gcs == [] then res == Ok else Ended(fs, gcs[|gcs| - 1], res))
  }

  lemma MadeOne(fs: Spiffs, before: GcState, gc: Collection, lens: seq<nat>, res: Code, done: bool)
    requires lens != [] && Collected(fs, before, gc, lens[0], res) && (res == Ok && done ==> |lens| == 1)
    ensures Made(fs, [gc], lens, res, done) && |gc.states| > 0 && gc.states[0] == before
  {
    hide Collects, Spiffs.Stuck, StateOf;
  }

  lemma MadeTwo(fs: Spiffs, gc: Collection, before: GcState, gc2: Collection, lens: seq<nat>, res: Code, done: bool)
    requires |lens| == 2 && Collects(fs.g, gc) && gc.len == lens[0] && gc.code == Ok
    requires Collected(fs, before, gc2, lens[1], res)
    ensures Made(fs, [gc, gc2], lens, res, done) && |gc2.states| > 0 && gc2.states[0] == before
  {
    hide Collects, Spiffs.Stuck, StateOf;
  }

  /** The second collection comes after the bytes up to the end of the file have been overwritten. */
  ghost predicate Overwritten(g: Geometry, gc: Collection, o: nat, c: seq<Byte>, off: nat, buf: seq<Byte>)
    requires g.Wf()
  {
    && off <= |c| <= off + |buf| && |gc.states| > 0
    && Reads(g, gc.states[0].volume, o, Write(c, off, buf[..|c| - off]))
  }

  lemma StateReads(fs: Spiffs, o: nat)
    requires fs.Sound() && o in fs.files
    ensures fs.g.Wf() && Reads(fs.g, StateOf(fs).volume, o, Content(fs, o))
  {
    hide Reads, Content;
    SoundReads(fs, o);
  }

  /** The collection of an operation that has succeeded. */
  lemma MadeRoom(fs: Spiffs, before: GcState, gc: Collection, len: nat)
    requires Collected(fs, before, gc, len, Ok)
    ensures Collects(fs.g, gc) && gc.len == len && gc.code == Ok && |gc.states| > 0 && gc.states[0] == before
  {
    hide Collects, Spiffs.Stuck, StateOf;
  }

  /** spiffs_hydro_write: overwrites what lies inside the file, and appends the rest. Writing no bytes changes nothing
      at the end of the file; before it, the work buffer becomes the header of the file, which leaves the file as it was
      exactly if it held the header (intact). When space runs out the file has the first bytes of the buffer, or is
      torn; when a cleaning has failed, one more file may be. */
  method HydroWrite(fs: Spiffs, h: nat, offset: nat, buf: seq<Byte>)
    returns (res: Code, intact: bool, ghost gcs: seq<Collection>)
    requires fs.Sound() && !fs.cleaning && h < |fs.fds| && fs.fds[h].fileNbr != 0
    requires offset <= Length(fs.fds[h].size)
    modifies fs
    ensures SameOpen(old(fs.fds), fs.fds)
    ensures !fs.cleaning
    ensures res == Ok && intact ==> fs.Sound()
    ensures res == Ok && intact ==> var o := Base(old(fs.fds)[h].objId);
                          && Open(fs.fds, h, o) && o in old(fs.files) && o in fs.files
                          && offset <= |old(Content(fs, o))|
                              && Content(fs, o) == Write(old(Content(fs, o)), offset, buf)
    ensures fs.FlashOk() && (res != ErrNotFound ==>
              OthersSame(fs.g, old(fs.Disk()), old(fs.files), fs.Disk(), fs.files, Base(old(fs.fds)[h].objId)))
    ensures buf != [] || offset == old(Length(fs.fds[h].size)) ==>
              && intact && fs.g.Wf()
              && Paid(old(fs.Budget()), WriteCost(fs.g, old(Length(fs.fds[h].size)), offset, |buf|), res == Ok,
                      fs.Budget())
    ensures var o := Base(old(fs.fds)[h].objId);
            && fs.g.Wf() && o in old(fs.files) && old(fs.fds)[h].hdrPix in old(fs.Disk())
            && (res == Ok && !intact ==> !Reads(fs.g, fs.Disk(), o, old(Content(fs, o))))
            && (old(Fits(fs, fs.g.dataSize)) && buf == [] && offset < old(Length(fs.fds[h].size)) ==>
                  && intact == HoldsHeader(old(fs.work), old(fs.Disk())[old(fs.fds)[h].hdrPix].page)
                  && (old(ValidObjIx(fs.work, fs.fds[h].objId, 0)) == Ok ==>
                      Paid(old(fs.Budget()), 1, res == Ok, fs.Budget())))
            && offset <= |old(Content(fs, o))|
            && (res != Ok ==> PartOrTorn(fs.g, fs.Disk(), o, old(Content(fs, o)), offset, buf))
            && (res == ErrNotFound ==> Spared(fs.g, fs.Disk(), old(fs.Disk()), old(fs.files), o))
            && (res == Ok && intact && offset + |buf| > |old(Content(fs, o))| ==> HeaderHeld(fs, o))
            && (|gcs| == 2 ==> Overwritten(fs.g, gcs[1], o, old(Content(fs, o)), offset, buf))
    ensures Made(fs, gcs, WriteLens(fs.g, old(Length(fs.fds[h].size)), offset, |buf|), res, intact)
    ensures gcs != [] ==> |gcs[0].states| > 0 && gcs[0].states[0] == old(StateOf(fs))
  {
    hide Spiffs.Budget, ModifyCost, AppendCost, Spiffs.FlashOk, Consistent, FdsOk, OthersSame, Write, Reads,
         HoldsHeader, PartOrTorn, PartWritten, HeaderHeld, Spared, Collected, Made, Collects, StateOf,
         Bytes, Overwritten;
    ghost var v0, files0 := fs.Disk(), fs.files;
    HeaderPlace(fs, h);
    OpenFile(fs, h);
    ghost var o := Base(fs.fds[h].objId);
    ghost var c0 := Content(fs, o);
    BytesLength(fs.g, v0, files0, o);
    ghost var lens, s0 := WriteLens(fs.g, Length(fs.fds[h].size), offset, |buf|), StateOf(fs);
    var mLen := 0;
    intact, gcs := true, [];
    ghost var gc;
    MadeNone(fs, lens);
    if fs.fds[h].size != UNDEFINED_LEN && offset < fs.fds[h].size {
      mLen := Min(fs.fds[h].size - offset, |buf|);
      WriteInTwo(c0, offset, buf, mLen);
      res, intact, gc := ModifyObject(fs, h, offset, buf[..mLen]);
      gcs := [gc];
      if res != Ok || !intact {
        if res != Ok {
          PartOrTornGrows(fs.g, fs.Disk(), o, c0, offset, buf[..mLen], buf);
        }
        MadeOne(fs, s0, gc, lens, res, intact);
        return;
      }
      OpenFile(fs, h);
      MadeRoom(fs, s0, gc, lens[0]);
      if |buf| == mLen {
        MadeOne(fs, s0, gc, lens, res, intact);
      }
    } else {
      WriteInTwo(c0, offset, buf, 0);
      WriteNothing(c0, offset, buf);
      OthersSameRefl(fs, o);
      res := Ok;
    }
    if |buf| - mLen > 0 {
      ghost var s1 := StateOf(fs);
      ghost var gc2;
      res, gc2 := AppendRest(fs, h, o, offset, buf, mLen, c0, v0, files0);
      if gcs == [] {
        MadeOne(fs, s1, gc2, lens, res, intact);
        gcs := [gc2];
      } else {
        MadeTwo(fs, gc, s1, gc2, lens, res, intact);
        gcs := [gc, gc2];
      }
    }
  }

  /** Appends what lies past the end of the file. */
  method AppendRest(fs: Spiffs, h: nat, ghost o: nat, offset: nat, buf: seq<Byte>, mLen: nat, ghost c0: seq<Byte>,
      ghost v0: Volume, ghost files0: Files)
    returns (res: Code, ghost gc: Collection)
    requires fs.Sound() && !fs.cleaning && fs.g.Wf() && Open(fs.fds, h, o) && o in fs.files && mLen < |buf|
    requires offset + mLen == |c0| == Length(fs.fds[h].size) && Content(fs, o) == Write(c0, offset, buf[..mLen])
    requires OthersSame(fs.g, v0, files0, fs.Disk(), fs.files, o)
    modifies fs
    ensures SameOpen(old(fs.fds), fs.fds) && !fs.cleaning && fs.FlashOk() && fs.g.Wf()
    ensures res == Ok ==> fs.Sound() && Open(fs.fds, h, o) && o in fs.files && Content(fs, o) == Write(c0, offset, buf)
    ensures res == Ok ==> HeaderHeld(fs, o)
    ensures res != Ok ==> PartOrTorn(fs.g, fs.Disk(), o, c0, offset, buf)
    ensures if res == ErrNotFound then Spared(fs.g, fs.Disk(), v0, files0, o)
            else OthersSame(fs.g, v0, files0, fs.Disk(), fs.files, o)
    ensures Paid(old(fs.Budget()), AppendCost(fs.g, |c0|, |buf| - mLen), res == Ok, fs.Budget())
    ensures Collected(fs, old(StateOf(fs)), gc, |buf| - mLen + fs.g.dataSize, res)
    ensures Overwritten(fs.g, gc, o, c0, offset, buf)
  {
    hide Spiffs.Budget, ModifyCost, AppendCost, Spiffs.FlashOk, Consistent, FdsOk, OthersSame, Write, Reads, PartOrTorn,
         PartWritten, HeaderHeld, Spared, Collects, StateOf, Ended, Bytes;
    ghost var v1, files1, s1 := fs.Disk(), fs.files, StateOf(fs);
    StateReads(fs, o);
    WriteInTwo(c0, offset, buf, mLen);
    res, gc := AppendObject(fs, h, offset + mLen, buf[mLen..]);
    StartsWith(fs, s1, gc, |buf| - mLen + fs.g.dataSize, res);
    if res != Ok {
      AppendedOr(fs.g, fs.Disk(), o, Write(c0, offset, buf[..mLen]), buf[mLen..], res == ErrFull);
      PartInTwo(fs.g, fs.Disk(), o, c0, offset, buf, mLen);
    }
    if res == ErrNotFound {
      SparedTrans(fs.g, v0, files0, v1, files1, fs.Disk(), o);
    } else {
      OthersSameTrans(fs.g, v0, files0, v1, files1, fs.Disk(), fs.files, o);
    }
  }

  lemma StartsWith(fs: Spiffs, before: GcState, gc: Collection, len: nat, res: Code)
    requires Collected(fs, before, gc, len, res)
    ensures |gc.states| > 0 && gc.states[0] == before
  {
    hide RunDone, Ends;
  }

  lemma MadeNone(fs: Spiffs, lens: seq<nat>)
    ensures lens == [] ==> Made(fs, [], lens, Ok, true)
  {}

  lemma AppendedOr(g: Geometry, v: Volume, o: nat, c: seq<Byte>, data: seq<Byte>, part: bool)
    requires g.Wf() && if part then PartWritten(g, v, o, c, |c|, data) else PartOrTorn(g, v, o, c, |c|, data)
    ensures PartOrTorn(g, v, o, c, |c|, data)
  {}

  /** The part that overwrites is done, and of the rest that is appended some bytes are. */
  lemma PartInTwo(g: Geometry, v: Volume, o: nat, c: seq<Byte>, off: nat, buf: seq<Byte>, m: nat)
    requires g.Wf() && m <= |buf| && off + m == |c|
    requires var c' := Write(c, off, buf[..m]); PartOrTorn(g, v, o, c', |c'|, buf[m..])
    ensures PartOrTorn(g, v, o, c, off, buf)
  {
    hide Reads, Torn;
    if Torn(g, v, o) {
      return;
    }
    var c' := Write(c, off, buf[..m]);
    var w: nat :| w <= |buf| - m && Reads(g, v, o, Write(c', |c'|, buf[m..][..w]));
    assert buf[..m] + buf[m..][..w] == buf[..m + w];
    WriteWrite(c, off, buf[..m], buf[m..][..w]);
    assert Reads(g, v, o, Write(c, off, buf[..m + w]));
  }

  lemma OthersSameRefl(fs: Spiffs, o: nat)
    requires fs.Sound()
    ensures OthersSame(fs.g, fs.Disk(), fs.files, fs.Disk(), fs.files, o) && fs.FlashOk()
  {
    SameContentsRefl(fs.Disk(), fs.files);
    KeptRefl(fs.Disk(), fs.files, o);
    OthersAreSame(fs.g, fs.Disk(), fs.files, fs.Disk(), fs.files, fs.Disk(), fs.files, o);
  }
}
