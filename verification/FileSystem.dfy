/** The file system as its callers see it: files that are byte sequences, and descriptors of them.
    Any run of commands does to the flash what it does to the byte sequences. */
module FileSystem {
  import opened Wrappers
  import opened Nor
  import opened Layout
  import opened Lookup
  import opened Volumes
  import opened Contents
  import opened Flash
  import opened Nucleus
  import opened Gc
  import opened Editing
  import opened Objects
  import opened Stopped
  import opened Append
  import opened Remains
  import opened Rewrite
  import opened Hydro
  import opened Read
  import opened Truncate
  import opened Create
  import opened Collect
  import Mount

  /** What callers can tell: the bytes of every file, and the file each descriptor is open for. */
  datatype View = View(store: map<nat, seq<Byte>>, descs: seq<Option<nat>>)

  datatype Command =
    | CreateFile(id: Half)
    | OpenFile(h: nat, id: Half)
    | CloseFile(h: nat)
    | WriteAt(h: nat, offset: nat, data: seq<Byte>)
    | ReadAt(h: nat, offset: nat, len: nat)
    | EmptyFile(h: nat)
    | RemoveFile(h: nat)
    | Remount

  predicate IsOpen(a: View, h: nat) { h < |a.descs| && a.descs[h].Some? && a.descs[h].value in a.store }

  /** The commands that make sense; others are refused. */
  predicate Enabled(a: View, c: Command) {
    match c
    case CreateFile(o) => 1 <= o < IX_FLAG - 1 && o !in a.store
    case OpenFile(h, o) => h < |a.descs| && a.descs[h] == None && o in a.store
    case CloseFile(h) => IsOpen(a, h)
    case WriteAt(h, off, data) => IsOpen(a, h) && off <= |a.store[a.descs[h].value]|
    case ReadAt(h, off, len) => IsOpen(a, h) && off < |a.store[a.descs[h].value]| && len > 0
    case EmptyFile(h) => IsOpen(a, h)
    case RemoveFile(h) => IsOpen(a, h)
    case Remount => true
  }

  function CloseAll(descs: seq<Option<nat>>, o: nat): seq<Option<nat>> {
    seq<Option<nat>>(|descs|, i requires 0 <= i < |descs| => if descs[i] == Some(o) then None else descs[i])
  }

  /** What a command does to the byte sequences. */
  function Step(a: View, c: Command): View {
    if !Enabled(a, c) then a
    else match c
      case CreateFile(o) => a.(store := a.store[o := []])
      case OpenFile(h, o) => a.(descs := a.descs[h := Some(o)])
      case CloseFile(h) => a.(descs := a.descs[h := None])
      case WriteAt(h, off, data) =>
        var o := a.descs[h].value; a.(store := a.store[o := Write(a.store[o], off, data)])
      case ReadAt(_, _, _) => a
      case EmptyFile(h) => a.(store := a.store[a.descs[h].value := []])
      case RemoveFile(h) => View(a.store - {a.descs[h].value}, CloseAll(a.descs, a.descs[h].value))
      case Remount => a.(descs := seq<Option<nat>>(|a.descs|, _ => None))
  }

  /** The bytes a command gives back. */
  function Output(a: View, c: Command): seq<Byte> {
    if c.ReadAt? && Enabled(a, c) then
      var bytes := a.store[a.descs[c.h].value];
      bytes[c.offset..Min(c.offset + c.len, |bytes|)]
    else []
  }

  function Steps(a: View, cs: seq<Command>): View {
    if cs == [] then a else Step(Steps(a, cs[..|cs| - 1]), cs[|cs| - 1])
  }

  function Outputs(a: View, cs: seq<Command>): seq<seq<Byte>> {
    if cs == [] then [] else Outputs(a, cs[..|cs| - 1]) + [Output(Steps(a, cs[..|cs| - 1]), cs[|cs| - 1])]
  }

  ghost function StoreOf(g: Geometry, v: Volume, files: Files): map<nat, seq<Byte>>
    requires g.Wf()
  {
    map o | o in files :: Bytes(g, v, files, o)
  }

  function DescsOf(fds: seq<Fd>): seq<Option<nat>> {
    seq<Option<nat>>(|fds|, i requires 0 <= i < |fds| => if fds[i].fileNbr != 0 then Some(Base(fds[i].objId)) else None)
  }

  ghost function ViewOf(fs: Spiffs): View
    requires fs.g.Wf()
    reads fs`lu, fs`pages, fs`files, fs`fds
  {
    View(StoreOf(fs.g, fs.Disk(), fs.files), DescsOf(fs.fds))
  }

  /** When only file o has changed, so has only its byte sequence. */
  lemma StoreChanged(g: Geometry, v: Volume, files: Files, v': Volume, files': Files, o: nat)
    requires g.Wf() && OthersSame(g, v, files, v', files', o)
    ensures o in files' ==> StoreOf(g, v', files') == StoreOf(g, v, files)[o := Bytes(g, v', files', o)]
    ensures o !in files' ==> StoreOf(g, v', files') == StoreOf(g, v, files) - {o}
  {
    hide Bytes, OthersSame;
    OthersBytes(g, v, files, v', files', o);
  }

  lemma OthersBytes(g: Geometry, v: Volume, files: Files, v': Volume, files': Files, o: nat)
    requires g.Wf() && OthersSame(g, v, files, v', files', o)
    ensures forall o2 :: o2 != o ==> (o2 in files <==> o2 in files')
    ensures forall o2 :: o2 in files && o2 != o ==> Bytes(g, v', files', o2) == Bytes(g, v, files, o2)
  {
    forall o2 | o2 in files && o2 != o
      ensures Bytes(g, v', files', o2) == Bytes(g, v, files, o2)
    {
      assert SameFile(v, files[o2], v', files'[o2]);
    }
  }

  lemma DescsSame(fds: seq<Fd>, fds': seq<Fd>)
    requires SameOpen(fds, fds')
    ensures DescsOf(fds') == DescsOf(fds)
  {}

  lemma DescsClosed(fds: seq<Fd>, fds': seq<Fd>, o: nat)
    requires Closed(fds, fds', o)
    ensures DescsOf(fds') == CloseAll(DescsOf(fds), o)
  {}

  /** What the view says of a descriptor. */
  lemma Described(fs: Spiffs, h: nat)
    requires fs.Sound()
    ensures fs.g.Wf() && |DescsOf(fs.fds)| == |fs.fds|
    ensures h < |fs.fds| && fs.fds[h].fileNbr != 0 <==> IsOpen(ViewOf(fs), h)
    ensures h < |fs.fds| && fs.fds[h].fileNbr != 0 ==>
              var o := Base(fs.fds[h].objId);
              && o in fs.files && DescsOf(fs.fds)[h] == Some(o) && ViewOf(fs).store[o] == Content(fs, o)
              && |Content(fs, o)| == Length(fs.fds[h].size)
  {
    if h < |fs.fds| && fs.fds[h].fileNbr != 0 {
      Objects.OpenFile(fs, h);
    }
  }

  /** Whether a file with the id exists, found out by a search for its header. */
  method FindHeader(fs: Spiffs, o: Half) returns (found: bool, pix: nat)
    requires fs.Sound() && 1 <= o < IX_FLAG - 1
    modifies fs`cursorBlock, fs`cursorEntry
    ensures fs.Sound() && (found <==> o in fs.files)
    ensures found ==> |fs.files[o].ixp| > 0 && pix == fs.files[o].ixp[0]
  {
    hide FreeSuffix, FreeBlank, CursorOk, DeletedPages, FreeBlocks, VolumeOf, LuShape, Matches, Consistent, FdsOk;
    if o in fs.files {
      HeaderMatches(fs, o);
    }
    FlashSearchable(fs);
    var res;
    res, pix := fs.FindIdAndSpan(o + IX_FLAG, 0, 0);
    found := res == Ok;
    if found {
      MatchIsHeader(fs, o, pix);
    }
  }

  lemma HeaderMatches(fs: Spiffs, o: nat)
    requires fs.Sound() && o in fs.files
    ensures |fs.files[o].ixp| > 0
    ensures var x := fs.files[o].ixp[0];
            && x in fs.Disk() && fs.Disk()[x].id == o + IX_FLAG
            && Matches(fs.Disk()[x].page, o + IX_FLAG, 0, 0, x)
  {
    ConsistentFile(fs.g, fs.Disk(), fs.files, o);
    IndexOf(fs.g, fs.Disk(), o, fs.files[o], 0);
  }

  lemma MatchIsHeader(fs: Spiffs, o: nat, x: nat)
    requires fs.g.Wf() && Consistent(fs.g, fs.Disk(), fs.files) && 1 <= o < IX_FLAG - 1
    requires x in fs.Disk() && fs.Disk()[x].id == o + IX_FLAG && Matches(fs.Disk()[x].page, o + IX_FLAG, 0, 0, x)
    ensures o in fs.files && |fs.files[o].ixp| > 0 && fs.files[o].ixp[0] == x
  {
    assert HasFile(fs.g, fs.Disk(), fs.files, x);
    ConsistentFile(fs.g, fs.Disk(), fs.files, o);
  }

  // ---------- commands that fail ----------

  /** The file a command changes. */
  function Target(a: View, c: Command): Option<nat> {
    match c
    case CreateFile(o) => Some(o)
    case WriteAt(h, _, _) => if h < |a.descs| then a.descs[h] else None
    case EmptyFile(h) => if h < |a.descs| then a.descs[h] else None
    case RemoveFile(h) => if h < |a.descs| then a.descs[h] else None
    case _ => None
  }

  /** Every file that is not the target of the command reads as it did, except perhaps for one, which may be torn. */
  ghost predicate OthersRead(g: Geometry, v: Volume, a: View, c: Command, but: Option<nat>)
    requires g.Wf()
  {
    forall o :: o in a.store && Target(a, c) != Some(o) ==>
      Reads(g, v, o, a.store[o]) || (but == Some(o) && Torn(g, v, o))
  }

  /** What is on the flash of the target of a command that has failed: either the first bytes of what was to be written,
      the rest being as it was, or nothing that can be read. */
  ghost predicate TargetLeft(g: Geometry, v: Volume, a: View, c: Command)
    requires g.Wf()
  {
    && (c.WriteAt? && Enabled(a, c) ==>
          var o := a.descs[c.h].value; PartOrTorn(g, v, o, a.store[o], c.offset, c.data))
    && (c.EmptyFile? && Enabled(a, c) ==>
          var o := a.descs[c.h].value; Reads(g, v, o, a.store[o]) || Torn(g, v, o))
  }

  lemma AllOthersRead(fs: Spiffs, v: Volume, files: Files, a: View, c: Command, o: nat)
    requires fs.FlashOk() && fs.g.Wf() && OthersSame(fs.g, v, files, fs.Disk(), fs.files, o)
    requires a.store == StoreOf(fs.g, v, files) && Target(a, c) == Some(o)
    ensures OthersRead(fs.g, fs.Disk(), a, c, None)
  {
    hide Reads, OthersSame, Bytes, Spiffs.FlashOk;
    forall o2 | o2 in a.store && Target(a, c) != Some(o2)
      ensures Reads(fs.g, fs.Disk(), o2, a.store[o2])
    {
      OtherReads(fs, v, files, o, o2);
    }
  }

  // ---------- prices ----------

  /** A command that writes no bytes before the end of a file. What it does depends on what the work buffer holds, which
      callers cannot tell. */
  predicate Hazard(a: View, c: Command) {
    c.WriteAt? && c.data == [] && IsOpen(a, c.h) && c.offset < |a.store[a.descs[c.h].value]|
  }

  /** The pages a command takes at most. */
  function Price(g: Geometry, a: View, c: Command): nat
    requires g.Wf()
  {
    if !Enabled(a, c) then 0
    else match c
      case CreateFile(_) => 2
      case WriteAt(h, off, data) => WriteCost(g, |a.store[a.descs[h].value]|, off, |data|)
      case EmptyFile(h) => EmptyCost(g, |a.store[a.descs[h].value]|)
      case _ => 0
  }

  function TotalPrice(g: Geometry, a: View, cs: seq<Command>): nat
    requires g.Wf()
  {
    if cs == [] then 0
    else TotalPrice(g, a, cs[..|cs| - 1]) + Price(g, Steps(a, cs[..|cs| - 1]), cs[|cs| - 1])
  }

  /** A run without mounting anew and without hazards. */
  ghost predicate Plain(a: View, cs: seq<Command>) {
    forall i :: 0 <= i < |cs| ==> !cs[i].Remount? && !Hazard(Steps(a, cs[..i]), cs[i])
  }

  // ---------- room ----------

  /** The bytes that a command makes room for, one collection after the other. */
  function Lens(g: Geometry, a: View, c: Command): seq<nat>
    requires g.Wf()
  {
    if !Enabled(a, c) then []
    else match c
      case CreateFile(_) => [g.dataSize]
      case WriteAt(h, off, data) => WriteLens(g, |a.store[a.descs[h].value]|, off, |data|)
      case EmptyFile(h) => if |a.store[a.descs[h].value]| > 0 then [2 * g.dataSize] else []
      case _ => []
  }

  /** The collections a command makes: the first one from the state before it, and the second one, for the bytes to be
      appended, after the others have been written. */
  ghost predicate Starts(g: Geometry, a: View, c: Command, before: GcState, gcs: seq<Collection>)
    requires g.Wf()
  {
    && (gcs != [] ==> |gcs[0].states| > 0 && gcs[0].states[0] == before)
    && (|gcs| == 2 ==>
          && c.WriteAt? && IsOpen(a, c.h)
          && var o := a.descs[c.h].value; Overwritten(g, gcs[1], o, a.store[o], c.offset, c.data))
  }

  /** No collection is called for. */
  lemma NoneMade(fs: Spiffs, a: View, c: Command, before: GcState)
    requires fs.g.Wf()
    ensures Starts(fs.g, a, c, before, [])
    ensures Lens(fs.g, a, c) == [] ==> Made(fs, [], Lens(fs.g, a, c), Ok, true)
  {}

  lemma OneMade(fs: Spiffs, a: View, c: Command, before: GcState, gc: Collection, len: nat, res: Code)
    requires Collected(fs, before, gc, len, res) && Lens(fs.g, a, c) == [len]
    ensures Made(fs, [gc], Lens(fs.g, a, c), res, true) && Starts(fs.g, a, c, before, [gc])
  {
    hide Lens, Made, Collected;
    MadeOne(fs, before, gc, [len], res, true);
  }

  // ---------- single commands ----------

  /** The flash and the descriptors after a command that has put another page in place of the header of its file. */
  ghost predicate Lost(fs: Spiffs, a: View, c: Command)
    reads fs
  {
    && fs.g.Wf() && DescsOf(fs.fds) == a.descs && OthersRead(fs.g, fs.Disk(), a, c, None)
    && Target(a, c).Some? && Target(a, c).value in a.store
    && !Reads(fs.g, fs.Disk(), Target(a, c).value, a.store[Target(a, c).value])
  }

  /** The flash and the descriptors after a command that has failed. Only if a cleaning has failed may a file that is
      not the target be torn. */
  ghost predicate LeftNow(fs: Spiffs, a: View, c: Command, cleaning: bool)
    reads fs
  {
    && fs.g.Wf() && fs.FlashOk() && DescsOf(fs.fds) == a.descs && TargetLeft(fs.g, fs.Disk(), a, c)
    && exists but: Option<nat> :: (but == None || cleaning) && OthersRead(fs.g, fs.Disk(), a, c, but)
  }

  /** One file may be torn at most. */
  lemma LeftBy(fs: Spiffs, v: Volume, files: Files, a: View, c: Command, o: nat, cleaning: bool)
    requires fs.FlashOk() && fs.g.Wf() && DescsOf(fs.fds) == a.descs && TargetLeft(fs.g, fs.Disk(), a, c)
    requires a.store == StoreOf(fs.g, v, files) && Target(a, c) == Some(o)
    requires if cleaning then Spared(fs.g, fs.Disk(), v, files, o)
             else OthersSame(fs.g, v, files, fs.Disk(), fs.files, o)
    ensures LeftNow(fs, a, c, cleaning)
  {
    hide Reads, Torn, OthersSame, Bytes, Spiffs.FlashOk, TargetLeft;
    if cleaning {
      var o2: nat :| OthersBut(fs.g, fs.Disk(), v, files, o, o2);
      assert OthersRead(fs.g, fs.Disk(), a, c, Some(o2));
    } else {
      AllOthersRead(fs, v, files, a, c, o);
    }
  }

  method DoCreate(fs: Spiffs, o: Half) returns (res: Code, ghost gcs: seq<Collection>)
    requires fs.Sound() && !fs.cleaning
    modifies fs
    ensures !fs.cleaning && (res == Ok ==> fs.Sound() && ViewOf(fs) == Step(old(ViewOf(fs)), CreateFile(o)))
    ensures Paid(old(fs.Budget()), Price(fs.g, old(ViewOf(fs)), CreateFile(o)), res == Ok, fs.Budget())
    ensures res != Ok ==> LeftNow(fs, old(ViewOf(fs)), CreateFile(o), res == ErrNotFound)
    ensures Made(fs, gcs, Lens(fs.g, old(ViewOf(fs)), CreateFile(o)), res, true)
    ensures Starts(fs.g, old(ViewOf(fs)), CreateFile(o), old(StateOf(fs)), gcs)
  {
    hide Spiffs.Budget, Spiffs.FlashOk, Consistent, FdsOk, OthersSame, SameOpen, Content, Bytes, OthersRead, Spared,
         LeftNow, Made, Starts, Collected;
    SoundWf(fs);
    gcs := [];
    NoneMade(fs, ViewOf(fs), CreateFile(o), StateOf(fs));
    if !(1 <= o < IX_FLAG - 1) {
      return Ok, gcs;
    }
    ghost var v, files, fds, a, s := fs.Disk(), fs.files, fs.fds, ViewOf(fs), StateOf(fs);
    var found, pix := FindHeader(fs, o);
    NoneMade(fs, a, CreateFile(o), s);
    if found {
      return Ok, gcs;
    }
    ghost var gc;
    res, pix, gc := CreateObject(fs, o);
    gcs := [gc];
    OneMade(fs, a, CreateFile(o), s, gc, fs.g.dataSize, res);
    DescsSame(fds, fs.fds);
    if res != Ok {
      LeftBy(fs, v, files, a, CreateFile(o), o, res == ErrNotFound);
    } else {
      StoreChanged(fs.g, v, files, fs.Disk(), fs.files, o);
      ContentIs(fs, o);
    }
  }

  lemma SoundWf(fs: Spiffs)
    requires fs.Sound()
    ensures fs.g.Wf()
  {}

  method DoOpen(fs: Spiffs, h: nat, o: Half) returns (res: Code)
    requires fs.Sound() && !fs.cleaning
    modifies fs
    ensures !fs.cleaning && res == Ok && fs.Sound() && ViewOf(fs) == Step(old(ViewOf(fs)), OpenFile(h, o))
    ensures fs.Budget() == old(fs.Budget())
  {
    hide Spiffs.Budget, Spiffs.FlashOk, Consistent, FdsOk, Bytes;
    SoundWf(fs);
    FilesNumbered(fs);
    res := Ok;
    if h < |fs.fds| && fs.fds[h].fileNbr == 0 && 1 <= o < IX_FLAG - 1 {
      ghost var fds := fs.fds;
      var found, pix := FindHeader(fs, o);
      if found {
        HeadersApart(fs, o, pix);
        assert fs.files[o].ixp[0] == pix;
        res := OpenByPage(fs, h, pix, h + 1, 1);
        DescOpened(fds, fs.fds, h, o);
      }
    }
  }

  lemma FilesNumbered(fs: Spiffs)
    requires fs.Sound()
    ensures forall o :: o in fs.files ==> 1 <= o < IX_FLAG - 1
  {
    forall o | o in fs.files
      ensures 1 <= o < IX_FLAG - 1
    {
      ConsistentFile(fs.g, fs.Disk(), fs.files, o);
    }
  }

  /** A page is the header of one file only. */
  lemma HeadersApart(fs: Spiffs, o: nat, pix: nat)
    requires fs.Sound() && o in fs.files && |fs.files[o].ixp| > 0 && fs.files[o].ixp[0] == pix
    ensures forall o2 :: o2 in fs.files && |fs.files[o2].ixp| > 0 && fs.files[o2].ixp[0] == pix ==> o2 == o
  {
    HeaderMatches(fs, o);
    forall o2 | o2 in fs.files && |fs.files[o2].ixp| > 0 && fs.files[o2].ixp[0] == pix
      ensures o2 == o
    {
      HeaderMatches(fs, o2);
    }
  }

  lemma DescOpened(fds: seq<Fd>, fds': seq<Fd>, h: nat, o: nat)
    requires h < |fds| == |fds'| && (forall i :: 0 <= i < |fds| && i != h ==> fds'[i] == fds[i])
    requires fds'[h].fileNbr != 0 && Base(fds'[h].objId) == o
    ensures DescsOf(fds') == DescsOf(fds)[h := Some(o)]
  {}

  /** spiffs_fd_return */
  method DoClose(fs: Spiffs, h: nat) returns (res: Code)
    requires fs.Sound() && !fs.cleaning
    modifies fs
    ensures !fs.cleaning && res == Ok && fs.Sound() && ViewOf(fs) == Step(old(ViewOf(fs)), CloseFile(h))
    ensures fs.Budget() == old(fs.Budget())
  {
    hide Spiffs.Budget, Spiffs.FlashOk, Consistent, Bytes;
    SoundWf(fs);
    Described(fs, h);
    if h < |fs.fds| && fs.fds[h].fileNbr != 0 {
      ghost var fds := fs.fds;
      fs.fds := fs.fds[h := fs.fds[h].(fileNbr := 0)];
      assert DescsOf(fs.fds) == DescsOf(fds)[h := None];
    }
    return Ok;
  }

  method DoWrite(fs: Spiffs, h: nat, offset: nat, data: seq<Byte>)
    returns (res: Code, intact: bool, ghost gcs: seq<Collection>)
    requires fs.Sound() && !fs.cleaning
    modifies fs
    ensures !fs.cleaning
    ensures res == Ok && intact ==> fs.Sound() && ViewOf(fs) == Step(old(ViewOf(fs)), WriteAt(h, offset, data))
    ensures !intact ==> old(Hazard(ViewOf(fs), WriteAt(h, offset, data)))
    ensures !old(Hazard(ViewOf(fs), WriteAt(h, offset, data))) ==>
              Paid(old(fs.Budget()), Price(fs.g, old(ViewOf(fs)), WriteAt(h, offset, data)), res == Ok, fs.Budget())
    ensures res != Ok ==> LeftNow(fs, old(ViewOf(fs)), WriteAt(h, offset, data), res == ErrNotFound)
    ensures res == Ok && !intact ==> Lost(fs, old(ViewOf(fs)), WriteAt(h, offset, data))
    ensures Made(fs, gcs, Lens(fs.g, old(ViewOf(fs)), WriteAt(h, offset, data)), res, intact)
    ensures Starts(fs.g, old(ViewOf(fs)), WriteAt(h, offset, data), old(StateOf(fs)), gcs)
    ensures res == Ok && intact && old(h < |fs.fds| && fs.fds[h].fileNbr != 0) ==>
              var o, a := Base(old(fs.fds)[h].objId), old(ViewOf(fs));
              o in a.store && (offset <= |a.store[o]| < offset + |data| ==> HeaderHeld(fs, o))
  {
    hide Spiffs.Budget, WriteCost, Spiffs.FlashOk, Consistent, FdsOk, OthersSame, SameOpen, Content, Bytes, Write,
         PartOrTorn, OthersRead, Reads, HeaderHeld, Spared, LeftNow, Made, Overwritten, WriteLens;
    SoundWf(fs);
    Described(fs, h);
    intact, gcs := true, [];
    NoneMade(fs, ViewOf(fs), WriteAt(h, offset, data), StateOf(fs));
    if h < |fs.fds| && fs.fds[h].fileNbr != 0 && offset <= Length(fs.fds[h].size) {
      ghost var v, files, fds := fs.Disk(), fs.files, fs.fds;
      ghost var o := Base(fs.fds[h].objId);
      ghost var a := ViewOf(fs);
      ContentIs(fs, o);
      res, intact, gcs := HydroWrite(fs, h, offset, data);
      DescsSame(fds, fs.fds);
      if res != Ok {
        LeftBy(fs, v, files, a, WriteAt(h, offset, data), o, res == ErrNotFound);
      } else {
        AllOthersRead(fs, v, files, a, WriteAt(h, offset, data), o);
      }
      if res == Ok && intact {
        StoreChanged(fs.g, v, files, fs.Disk(), fs.files, o);
        ContentIs(fs, o);
      }
    } else {
      res := Ok;
    }
  }

  lemma ContentIs(fs: Spiffs, o: nat)
    requires fs.g.Wf() && o in fs.files
    ensures Content(fs, o) == Bytes(fs.g, fs.Disk(), fs.files, o)
  {}

  method DoRead(fs: Spiffs, h: nat, offset: nat, len: nat) returns (res: Code, out: seq<Byte>)
    requires fs.Sound() && !fs.cleaning
    modifies fs
    ensures !fs.cleaning && res == Ok && fs.Sound() && ViewOf(fs) == old(ViewOf(fs))
    ensures out == Output(old(ViewOf(fs)), ReadAt(h, offset, len)) && fs.Budget() == old(fs.Budget())
  {
    hide Spiffs.Budget, Spiffs.FlashOk, Consistent, FdsOk, SameOpen, Content, Bytes;
    SoundWf(fs);
    Described(fs, h);
    res, out := Ok, [];
    if h < |fs.fds| && fs.fds[h].fileNbr != 0 && len > 0 {
      ghost var fds := fs.fds;
      res, out := HydroRead(fs, h, offset, len);
      DescsSame(fds, fs.fds);
      if res == ErrEndOfObject {
        return Ok, [];
      }
    }
  }

  method DoTruncate(fs: Spiffs, h: nat, removeFull: bool) returns (res: Code, ghost gcs: seq<Collection>)
    requires fs.Sound() && !fs.cleaning
    modifies fs
    ensures !fs.cleaning && (res == Ok ==>
              fs.Sound() && ViewOf(fs) == Step(old(ViewOf(fs)), if removeFull then RemoveFile(h) else EmptyFile(h)))
    ensures Paid(old(fs.Budget()), Price(fs.g, old(ViewOf(fs)), if removeFull then RemoveFile(h) else EmptyFile(h)),
                 res == Ok, fs.Budget())
    ensures removeFull ==> res == Ok
    ensures res != Ok ==> LeftNow(fs, old(ViewOf(fs)), EmptyFile(h), res == ErrNotFound)
    ensures Made(fs, gcs, Lens(fs.g, old(ViewOf(fs)), if removeFull then RemoveFile(h) else EmptyFile(h)), res, true)
    ensures Starts(fs.g, old(ViewOf(fs)), if removeFull then RemoveFile(h) else EmptyFile(h), old(StateOf(fs)), gcs)
  {
    hide Spiffs.Budget, EmptyCost, Spiffs.FlashOk, Consistent, FdsOk, OthersSame, SameOpen, Content, Bytes, Closed,
         Reads, Torn, OthersRead, Spared, LeftNow, Made, Starts, Collected, StateOf;
    SoundWf(fs);
    Described(fs, h);
    ghost var c, s := if removeFull then RemoveFile(h) else EmptyFile(h), StateOf(fs);
    gcs := [];
    NoneMade(fs, ViewOf(fs), c, s);
    if h < |fs.fds| && fs.fds[h].fileNbr != 0 {
      ghost var v, files, fds := fs.Disk(), fs.files, fs.fds;
      ghost var o := Base(fs.fds[h].objId);
      ghost var a := ViewOf(fs);
      ContentIs(fs, o);
      ghost var gc;
      res, gc := TruncateObject(fs, h, removeFull);
      NoneMade(fs, a, c, s);
      if gc.Some? {
        gcs := [gc.value];
        OneMade(fs, a, c, s, gc.value, 2 * fs.g.dataSize, res);
      }
      if !removeFull {
        DescsSame(fds, fs.fds);
        if res != Ok {
          LeftBy(fs, v, files, a, EmptyFile(h), o, res == ErrNotFound);
        }
      }
      if res == Ok {
        StoreChanged(fs.g, v, files, fs.Disk(), fs.files, o);
        if removeFull {
          DescsClosed(fds, fs.fds, o);
        } else {
          ContentIs(fs, o);
        }
      }
    } else {
      res := Ok;
    }
  }

  /** Switching off and mounting again. */
  method DoRemount(fs: Spiffs) returns (res: Code)
    requires fs.Sound() && !fs.cleaning
    modifies fs
    ensures !fs.cleaning && res == Ok && fs.Sound() && ViewOf(fs) == Step(old(ViewOf(fs)), Remount)
  {
    hide Spiffs.FlashOk, Consistent, FdsOk, Bytes;
    SoundTables(fs);
    ghost var fds := fs.fds;
    Mount.Mount(fs);
    DescsNone(fds, fs.fds);
    return Ok;
  }

  lemma DescsNone(fds: seq<Fd>, fds': seq<Fd>)
    requires |fds'| == |fds| && forall i :: 0 <= i < |fds'| ==> fds'[i].fileNbr == 0
    ensures DescsOf(fds') == seq<Option<nat>>(|fds|, _ => None)
  {}

  // ---------- runs ----------

  /** Carries out one command, or refuses it. Opening, closing, reading, removing and mounting always succeed, and
      the other commands do if they can be paid for. */
  method Do(fs: Spiffs, c: Command)
    returns (res: Code, out: seq<Byte>, intact: bool, ghost gcs: seq<Collection>)
    requires fs.Sound() && !fs.cleaning
    modifies fs
    ensures !fs.cleaning && (!intact ==> old(Hazard(ViewOf(fs), c)))
    ensures c.OpenFile? || c.CloseFile? || c.ReadAt? || c.RemoveFile? || c.Remount? ==> res == Ok
    ensures !c.Remount? && !old(Hazard(ViewOf(fs), c)) ==>
              Paid(old(fs.Budget()), Price(fs.g, old(ViewOf(fs)), c), res == Ok, fs.Budget())
    ensures res == Ok && intact ==>
            fs.Sound() && ViewOf(fs) == Step(old(ViewOf(fs)), c) && out == Output(old(ViewOf(fs)), c)
    ensures res != Ok ==> LeftNow(fs, old(ViewOf(fs)), c, res == ErrNotFound)
    ensures res == Ok && !intact ==> Lost(fs, old(ViewOf(fs)), c)
    ensures Made(fs, gcs, Lens(fs.g, old(ViewOf(fs)), c), res, intact)
    ensures Starts(fs.g, old(ViewOf(fs)), c, old(StateOf(fs)), gcs)
  {
    hide Spiffs.Budget, Spiffs.FlashOk, Consistent, FdsOk, ViewOf, Enabled, WriteCost, EmptyCost, LeftNow, Lost,
         HeaderHeld, Made, Starts, StateOf, WriteLens;
    SoundWf(fs);
    out, intact, gcs := [], true, [];
    ghost var a, s := ViewOf(fs), StateOf(fs);
    match c
    case CreateFile(o) => res, gcs := DoCreate(fs, o);
    case OpenFile(h, o) =>
      res := DoOpen(fs, h, o);
      NoneMade(fs, a, c, s);
    case CloseFile(h) =>
      res := DoClose(fs, h);
      NoneMade(fs, a, c, s);
    case WriteAt(h, offset, data) => res, intact, gcs := DoWrite(fs, h, offset, data);
    case ReadAt(h, offset, len) =>
      res, out := DoRead(fs, h, offset, len);
      NoneMade(fs, a, c, s);
    case EmptyFile(h) => res, gcs := DoTruncate(fs, h, false);
    case RemoveFile(h) => res, gcs := DoTruncate(fs, h, true);
    case Remount =>
      res := DoRemount(fs);
      NoneMade(fs, a, c, s);
  }

  lemma {:induction false} PriceSoFar(g: Geometry, a: View, cs: seq<Command>, i: nat)
    requires g.Wf() && i < |cs|
    ensures TotalPrice(g, a, cs) >= TotalPrice(g, a, cs[..i]) + Price(g, Steps(a, cs[..i]), cs[i])
    ensures TotalPrice(g, a, cs[..i + 1]) == TotalPrice(g, a, cs[..i]) + Price(g, Steps(a, cs[..i]), cs[i])
    decreases |cs|
  {
    assert cs[..i + 1][..i] == cs[..i];
    if i < |cs| - 1 {
      PriceSoFar(g, a, cs[..|cs| - 1], i);
      assert cs[..|cs| - 1][..i] == cs[..i];
    }
  }

  lemma RunStarts(g: Geometry, a: View, cs: seq<Command>)
    requires g.Wf()
    ensures Steps(a, cs[..0]) == a && Outputs(a, cs[..0]) == [] && TotalPrice(g, a, cs[..0]) == 0
  {}

  lemma RunGoesOn(a: View, cs: seq<Command>, i: nat)
    requires i < |cs|
    ensures Steps(a, cs[..i + 1]) == Step(Steps(a, cs[..i]), cs[i])
    ensures Outputs(a, cs[..i + 1]) == Outputs(a, cs[..i]) + [Output(Steps(a, cs[..i]), cs[i])]
  {
    hide Step, Output;
    assert cs[..i + 1][..i] == cs[..i];
  }

  /** Every command of the run so far has made room for what it needed. */
  ghost predicate Serves(g: Geometry, a: View, cs: seq<Command>, gcs: seq<seq<Collection>>)
    requires g.Wf()
  {
    |gcs| <= |cs| && forall i :: 0 <= i < |gcs| ==> Tried(g, gcs[i], Lens(g, Steps(a, cs[..i]), cs[i]), true)
  }

  lemma ServesNone(g: Geometry, a: View, cs: seq<Command>)
    requires g.Wf()
    ensures Serves(g, a, cs, [])
  {}

  lemma ServesMore(fs: Spiffs, a: View, cs: seq<Command>, gcs: seq<seq<Collection>>, made: seq<Collection>, res: Code,
      intact: bool)
    requires fs.g.Wf() && Serves(fs.g, a, cs, gcs) && |gcs| < |cs|
    requires Made(fs, made, Lens(fs.g, Steps(a, cs[..|gcs|]), cs[|gcs|]), res, intact)
    ensures res == Ok && intact ==> Serves(fs.g, a, cs, gcs + [made])
    ensures (gcs + [made])[..|gcs|] == gcs
  {
    hide Tried, Lens, Steps, Ended;
  }

  /** Any run of commands that succeeds does to the flash what it does to the byte sequences, and reads give what was
      written; garbage is collected along the way. The run ends early if a command that writes no bytes before the end
      of a file finds another page than the header of the file in the work buffer. A run without such commands and
      without mounting anew succeeds if it can be paid for. */
  method Run(fs: Spiffs, cs: seq<Command>)
    returns (res: Code, outs: seq<seq<Byte>>, intact: bool, ghost gcs: seq<seq<Collection>>)
    requires fs.Sound() && !fs.cleaning
    modifies fs
    ensures res == Ok && intact ==> !fs.cleaning && |outs| == |cs|
    ensures res == Ok && intact ==>
              fs.Sound() && ViewOf(fs) == Steps(old(ViewOf(fs)), cs) && outs == Outputs(old(ViewOf(fs)), cs)
    ensures |outs| <= |cs| && outs == Outputs(old(ViewOf(fs)), cs[..|outs|])
    ensures !intact || res != Ok ==> |outs| < |cs|
    ensures !intact ==> Hazard(Steps(old(ViewOf(fs)), cs[..|outs|]), cs[|outs|])
    ensures res != Ok ==> LeftNow(fs, Steps(old(ViewOf(fs)), cs[..|outs|]), cs[|outs|], res == ErrNotFound)
    ensures res == Ok && !intact ==> Lost(fs, Steps(old(ViewOf(fs)), cs[..|outs|]), cs[|outs|])
    ensures fs.g.Wf() && (Plain(old(ViewOf(fs)), cs) ==>
              Paid(old(fs.Budget()), TotalPrice(fs.g, old(ViewOf(fs)), cs), res == Ok && intact, fs.Budget()))
    ensures |gcs| == |outs| + (if res == Ok && intact then 0 else 1)
    ensures Serves(fs.g, old(ViewOf(fs)), cs, gcs[..|outs|])
    ensures !(res == Ok && intact) ==>
              Made(fs, gcs[|outs|], Lens(fs.g, Steps(old(ViewOf(fs)), cs[..|outs|]), cs[|outs|]), res, intact)
  {
    hide Spiffs.Budget, Spiffs.FlashOk, Consistent, FdsOk, ViewOf, Step, Output, Hazard, Price, LeftNow, Lost, Made,
         Starts, Lens, Tried, Serves, StateOf, Enabled, Steps, Outputs, TotalPrice;
    SoundWf(fs);
    ghost var a := ViewOf(fs);
    res, outs, intact, gcs := Ok, [], true, [];
    RunStarts(fs.g, a, cs);
    ServesNone(fs.g, a, cs);
    var i := 0;
    while i < |cs|
      invariant 0 <= i <= |cs| && res == Ok && intact && fs.Sound() && !fs.cleaning
      invariant ViewOf(fs) == Steps(a, cs[..i]) && outs == Outputs(a, cs[..i]) && |outs| == i
      invariant Plain(a, cs) ==> Paid(old(fs.Budget()), TotalPrice(fs.g, a, cs[..i]), true, fs.Budget())
      invariant |gcs| == i && Serves(fs.g, a, cs, gcs)
    {
      PriceSoFar(fs.g, a, cs, i);
      var out;
      ghost var made;
      res, out, intact, made := Do(fs, cs[i]);
      ServesMore(fs, a, cs, gcs, made, res, intact);
      gcs := gcs + [made];
      if res != Ok || !intact {
        return;
      }
      RunGoesOn(a, cs, i);
      outs := outs + [out];
      i := i + 1;
    }
    assert cs[..|cs|] == cs && gcs[..|gcs|] == gcs;
  }

  // ---------- a file lost ----------

  const NOTHING := View(map[], [None, None])

  /** Two files, each open and holding one byte. */
  function TwoFiles(b: Byte, b2: Byte): View {
    View(map[1 := [b], 2 := [b2]], [Some(1), Some(2)])
  }

  const TWO_EMPTY := View(map[1 := [], 2 := []], [Some(1), Some(2)])

  lemma StepsToTwo()
    ensures Step(Step(Step(Step(NOTHING, CreateFile(1)), CreateFile(2)), OpenFile(0, 1)), OpenFile(1, 2)) == TWO_EMPTY
  {}

  lemma StepsToBytes(b: Byte, b2: Byte)
    ensures var written := Step(TWO_EMPTY, WriteAt(0, 0, [b]));
            && written == View(map[1 := [b], 2 := []], [Some(1), Some(2)])
            && Step(written, WriteAt(1, 0, [b2])) == TwoFiles(b, b2)
  {
    assert Write([], 0, [b]) == [b] && Write([], 0, [b2]) == [b2];
  }

  lemma OneByteCost(g: Geometry)
    requires g.Wf()
    ensures WriteCost(g, 0, 0, 1) == 4
  {
    assert Rem(0, g.dataSize) == 0;
    assert Chunks(g.dataSize, 0, 1) == 1;
  }

  method TwoFilesOpened(fs: Spiffs)
    requires fs.Sound() && !fs.cleaning && fs.g.Wf() && fs.Budget() >= 15 && ViewOf(fs) == NOTHING
    modifies fs
    ensures !fs.cleaning && fs.Sound() && ViewOf(fs) == TWO_EMPTY && fs.Budget() >= 11
  {
    hide Spiffs.Budget, Spiffs.FlashOk, Consistent, FdsOk, ViewOf, Step, LeftNow, Lost, Made, Starts, StateOf;
    StepsToTwo();
    ghost var gcs;
    var res, out, intact;
    res, out, intact, gcs := Do(fs, CreateFile(1));
    SoundWf(fs);
    res, out, intact, gcs := Do(fs, CreateFile(2));
    res, out, intact, gcs := Do(fs, OpenFile(0, 1));
    res, out, intact, gcs := Do(fs, OpenFile(1, 2));
    SoundWf(fs);
  }

  /** From an empty file system: two files with a byte each, written one after the other. The work buffer is left
      holding the header of the second. */
  method TwoFilesWritten(fs: Spiffs, b: Byte, b2: Byte)
    requires fs.Sound() && !fs.cleaning && fs.g.Wf() && fs.Budget() >= 15 && ViewOf(fs) == NOTHING
    modifies fs
    ensures !fs.cleaning && fs.Sound() && ViewOf(fs) == TwoFiles(b, b2) && HeaderHeld(fs, 2) && fs.Budget() >= 3
  {
    hide Spiffs.Budget, Spiffs.FlashOk, Consistent, FdsOk, ViewOf, Step, WriteCost, HeaderHeld, LeftNow, Lost, Made,
         Starts, StateOf;
    OneByteCost(fs.g);
    TwoFilesOpened(fs);
    StepsToBytes(b, b2);
    ghost var gcs;
    var res, intact;
    res, intact, gcs := DoWrite(fs, 0, 0, [b]);
    SecondIsOpen(fs);
    res, intact, gcs := DoWrite(fs, 1, 0, [b2]);
  }

  lemma SecondIsOpen(fs: Spiffs)
    requires fs.Sound() && fs.g.Wf() && ViewOf(fs).descs == [Some(1), Some(2)]
    ensures |fs.fds| == 2 && fs.fds[1].fileNbr != 0 && Base(fs.fds[1].objId) == 2
  {
    assert DescsOf(fs.fds)[1] == Some(2);
  }

  /** The header of the second file passes for that of the first. */
  lemma HeldByOther(fs: Spiffs)
    requires fs.Sound() && 0 < |fs.fds| && fs.fds[0].fileNbr != 0 && Base(fs.fds[0].objId) == 1 && HeaderHeld(fs, 2)
    ensures ValidObjIx(fs.work, fs.fds[0].objId, 0) == Ok && fs.fds[0].hdrPix in fs.Disk()
    ensures !HoldsHeader(fs.work, fs.Disk()[fs.fds[0].hdrPix].page)
  {
    hide Spiffs.FlashOk, Consistent, FdsOk, HoldsHeader;
    HeaderPlace(fs, 0);
    Objects.OpenFile(fs, 0);
    ForeignHeader(fs.g, fs.Disk(), fs.files, 1, 2);
  }

  /** A run that loses a byte: on a newly formatted flash two files are written, and after that no bytes at the start of
      the first. That is reported as a success, and the first file does not read as its byte any more. */
  method LoseByte(g: Geometry, b: Byte, b2: Byte) returns (fs: Spiffs, res: Code)
    requires g.Wf() && (g.blocks - 4) * g.Entries() + 1 >= 15
    ensures res == Ok && fs.g == g && !Reads(g, fs.Disk(), 1, [b]) && Reads(g, fs.Disk(), 2, [b2])
  {
    hide Spiffs.Budget, Spiffs.FlashOk, Consistent, FdsOk, HeaderHeld, OthersSame, Reads, HoldsHeader, PartOrTorn;
    fs := new Spiffs.Format(g, 2);
    fs.FreshBudget();
    NothingYet(fs);
    TwoFilesWritten(fs, b, b2);
    Described(fs, 0);
    HeldByOther(fs);
    RoomFits(fs, 1);
    assert fs.g.dataSize * 1 == fs.g.dataSize;
    ghost var v, files, a := fs.Disk(), fs.files, ViewOf(fs);
    var intact;
    ghost var gcs;
    res, intact, gcs := HydroWrite(fs, 0, 0, []);
    AllOthersRead(fs, v, files, a, WriteAt(0, 0, []), 1);
  }

  lemma NothingYet(fs: Spiffs)
    requires fs.g.Wf() && fs.files == map[] && |fs.fds| == 2 && fs.fds[0].fileNbr == 0 && fs.fds[1].fileNbr == 0
    ensures ViewOf(fs) == NOTHING
  {
    assert DescsOf(fs.fds) == [None, None];
  }
}
