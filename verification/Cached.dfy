/** A descriptor that gathers its writes in a cache page, on top of the file system: what it does on the flash is what
    writing straight through would do to the bytes of its file. */
module Cached {
  import opened Wrappers
  import opened Nor
  import opened Layout
  import opened Volumes
  import opened Contents
  import opened Nucleus
  import opened Remains
  import FS = FileSystem
  import WB = WriteBehind

  /** An access to the file as a command to the file system. */
  function CommandOf(h: nat, a: WB.Access): FS.Command {
    match a
    case Wrote(offset, data) => FS.WriteAt(h, offset, data)
    case Got(offset, len) => FS.ReadAt(h, offset, len)
  }

  function Commands(h: nat, log: seq<WB.Access>): seq<FS.Command> {
    seq<FS.Command>(|log|, i requires 0 <= i < |log| => CommandOf(h, log[i]))
  }

  lemma CommandsPart(h: nat, log: seq<WB.Access>, i: nat)
    requires i <= |log|
    ensures Commands(h, log)[..i] == Commands(h, log[..i])
  {}

  /** The view with other bytes in a file. */
  function With(a: FS.View, o: nat, c: seq<Byte>): FS.View {
    a.(store := a.store[o := c])
  }

  /** One access. */
  lemma StepReplays(a: FS.View, h: nat, o: nat, c: seq<Byte>, acc: WB.Access)
    requires FS.IsOpen(a, h) && a.descs[h] == Some(o) && WB.Sensible(c, acc)
    ensures FS.Step(With(a, o, c), CommandOf(h, acc)) ==
            With(a, o, if acc.Wrote? then Write(c, acc.offset, acc.data) else c)
    ensures FS.Output(With(a, o, c), CommandOf(h, acc))
            == if acc.Got? then c[acc.offset..Min(acc.offset + acc.len, |c|)] else []
    ensures FS.Hazard(With(a, o, c), CommandOf(h, acc)) <==> acc.Wrote? && acc.data == [] && acc.offset < |c|
  {
    hide Write;
  }

  lemma LastCommand(a: FS.View, cs: seq<FS.Command>)
    requires cs != []
    ensures var n := |cs| - 1;
            && FS.Steps(a, cs) == FS.Step(FS.Steps(a, cs[..n]), cs[n])
            && FS.Outputs(a, cs) == FS.Outputs(a, cs[..n]) + [FS.Output(FS.Steps(a, cs[..n]), cs[n])]
  {
    hide FS.Step, FS.Output;
  }

  lemma LastAccess(c: seq<Byte>, log: seq<WB.Access>)
    requires log != [] && WB.AllSensible(c, log)
    ensures var n := |log| - 1;
            var before := WB.Replay(c, log[..n]);
            && WB.AllSensible(c, log[..n]) && WB.Sensible(before, log[n])
            && WB.Replay(c, log) == if log[n].Wrote? then Write(before, log[n].offset, log[n].data) else before
  {
    hide Write;
    SensiblePart(c, log, |log| - 1);
  }

  /** Carrying out the accesses changes the one file, as they say. */
  lemma {:induction false} StepsReplay(a: FS.View, h: nat, o: nat, log: seq<WB.Access>)
    requires FS.IsOpen(a, h) && a.descs[h] == Some(o) && WB.AllSensible(a.store[o], log)
    ensures FS.Steps(a, Commands(h, log)) == With(a, o, WB.Replay(a.store[o], log))
  {
    var c, n := a.store[o], |log| - 1;
    if log == [] {
      assert With(a, o, c) == a;
    } else {
      hide FS.Steps, FS.Step, FS.Outputs, FS.Output, FS.Hazard, WB.Replay, WB.AllSensible, WB.Sensible;
      LastAccess(c, log);
      StepsReplay(a, h, o, log[..n]);
      CommandsPart(h, log, n);
      LastCommand(a, Commands(h, log));
      StepReplays(a, h, o, WB.Replay(c, log[..n]), log[n]);
    }
  }

  lemma SensiblePart(c: seq<Byte>, log: seq<WB.Access>, i: nat)
    requires i <= |log| && WB.AllSensible(c, log)
    ensures WB.AllSensible(c, log[..i])
  {
    forall j | 0 <= j < i
      ensures WB.Sensible(WB.Replay(c, log[..i][..j]), log[..i][j])
    {
      assert log[..i][..j] == log[..j];
    }
  }

  /** What the last access reads. */
  lemma LastRead(a: FS.View, h: nat, o: nat, log: seq<WB.Access>)
    requires FS.IsOpen(a, h) && a.descs[h] == Some(o) && WB.AllSensible(a.store[o], log)
    requires log != [] && log[|log| - 1].Got?
    ensures var outs, c, last := FS.Outputs(a, Commands(h, log)), WB.Replay(a.store[o], log), log[|log| - 1];
            && outs != [] && last.offset <= |c|
            && outs[|outs| - 1] == c[last.offset..Min(last.offset + last.len, |c|)]
  {
    hide FS.Steps, FS.Step, FS.Outputs, FS.Output, FS.Hazard, WB.Replay, WB.AllSensible;
    var c, n := a.store[o], |log| - 1;
    LastAccess(c, log);
    StepsReplay(a, h, o, log[..n]);
    CommandsPart(h, log, n);
    LastCommand(a, Commands(h, log));
    StepReplays(a, h, o, WB.Replay(c, log[..n]), log[n]);
  }

  /** A hazard among the commands is a write of no bytes before the end of the file. */
  lemma HazardHarms(a: FS.View, h: nat, o: nat, log: seq<WB.Access>, i: nat)
    requires FS.IsOpen(a, h) && a.descs[h] == Some(o) && WB.AllSensible(a.store[o], log) && i < |log|
    requires FS.Hazard(FS.Steps(a, Commands(h, log)[..i]), Commands(h, log)[i])
    ensures !WB.Harmless(a.store[o], log)
  {
    SensiblePart(a.store[o], log, i);
    StepsReplay(a, h, o, log[..i]);
    CommandsPart(h, log, i);
    assert log[i].Wrote? && log[i].data == [];
  }

  /** The descriptor and the flash agree, and all that was to be done on the flash is done. */
  ghost predicate Agree(fs: Spiffs, h: nat, o: nat, fd: WB.Descriptor)
    reads fs, fd
  {
    && fs.Sound() && !fs.cleaning && fs.g.Wf() && fd.Valid() && !fd.append
    && FS.IsOpen(FS.ViewOf(fs), h) && FS.ViewOf(fs).descs[h] == Some(o)
    && fd.base == FS.ViewOf(fs).store[o] && fd.log == [] && !fd.risky
  }

  /** Everything in the log has been done on the flash. */
  method Settle(fd: WB.Descriptor)
    requires fd.Valid()
    modifies fd`log, fd`base, fd`risky
    ensures fd.Valid() && fd.log == [] && fd.base == fd.content && !fd.risky && fd.View() == old(fd.View())
  {
    fd.log := [];
    fd.base := fd.content;
    fd.risky := false;
  }

  /** Every other file reads as it did, or is torn if it is the one given. */
  ghost predicate OthersReadBut(g: Geometry, v: Volume, a: FS.View, o: nat, but: Option<nat>)
    requires g.Wf()
  {
    forall o2 :: o2 in a.store && o2 != o ==> Reads(g, v, o2, a.store[o2]) || (but == Some(o2) && Torn(g, v, o2))
  }

  /** Every other file reads as it did, but for one, which may be torn if a cleaning has failed. */
  ghost predicate OthersStill(fs: Spiffs, a: FS.View, o: nat, cleaning: bool)
    reads fs
  {
    && fs.g.Wf() && fs.FlashOk() && FS.DescsOf(fs.fds) == a.descs
    && exists but: Option<nat> :: (but == None || cleaning) && OthersReadBut(fs.g, fs.Disk(), a, o, but)
  }

  /** When one of the accesses has failed. */
  lemma OthersLeft(fs: Spiffs, a: FS.View, h: nat, o: nat, log: seq<WB.Access>, n: nat, cleaning: bool)
    requires FS.IsOpen(a, h) && a.descs[h] == Some(o) && WB.AllSensible(a.store[o], log) && n < |log|
    requires FS.LeftNow(fs, FS.Steps(a, Commands(h, log)[..n]), Commands(h, log)[n], cleaning)
    ensures OthersStill(fs, a, o, cleaning)
  {
    hide FS.Steps, Reads, Torn, Spiffs.FlashOk, FS.TargetLeft;
    SensiblePart(a.store[o], log, n);
    StepsReplay(a, h, o, log[..n]);
    CommandsPart(h, log, n);
    var a', c := FS.Steps(a, Commands(h, log)[..n]), Commands(h, log)[n];
    assert a' == With(a, o, WB.Replay(a.store[o], log[..n]));
    assert FS.Target(a', c) == Some(o) || FS.Target(a', c) == None;
    var but: Option<nat> :| (but == None || cleaning) && FS.OthersRead(fs.g, fs.Disk(), a', c, but);
    forall o2 | o2 in a.store && o2 != o
      ensures Reads(fs.g, fs.Disk(), o2, a.store[o2]) || (but == Some(o2) && Torn(fs.g, fs.Disk(), o2))
    {
      assert o2 in a'.store && a'.store[o2] == a.store[o2];
    }
    assert OthersReadBut(fs.g, fs.Disk(), a, o, but);
  }

  lemma OthersToo(fs: Spiffs, a: FS.View, o: nat, c: seq<Byte>, cleaning: bool)
    requires OthersStill(fs, With(a, o, c), o, cleaning)
    ensures OthersStill(fs, a, o, cleaning)
  {
    hide Reads, Torn, Spiffs.FlashOk;
    var but: Option<nat> :| (but == None || cleaning) && OthersReadBut(fs.g, fs.Disk(), With(a, o, c), o, but);
    forall o2 | o2 in a.store && o2 != o
      ensures Reads(fs.g, fs.Disk(), o2, a.store[o2]) || (but == Some(o2) && Torn(fs.g, fs.Disk(), o2))
    {
      assert With(a, o, c).store[o2] == a.store[o2];
    }
    assert OthersReadBut(fs.g, fs.Disk(), a, o, but);
  }

  /** Carries out on the flash what the descriptor has done to its file. The bytes read come from the flash. */
  method Carry(fs: Spiffs, h: nat, ghost o: nat, fd: WB.Descriptor, read: seq<Byte>)
    returns (res: Code, out: seq<Byte>, intact: bool)
    requires fs.Sound() && !fs.cleaning && fs.g.Wf() && fd.Stored()
    requires FS.IsOpen(FS.ViewOf(fs), h) && FS.ViewOf(fs).descs[h] == Some(o) && fd.base == FS.ViewOf(fs).store[o]
    requires read != [] ==> fd.log != []
    requires read != [] ==> var last := fd.log[|fd.log| - 1];
                            && last.Got? && last.offset + |read| <= |fd.content| && last.len == |read|
                            && read == fd.content[last.offset..last.offset + |read|]
    modifies fs
    ensures !fd.risky ==> intact
    ensures res == Ok && intact ==>
              fs.Sound() && !fs.cleaning && FS.ViewOf(fs) == With(old(FS.ViewOf(fs)), o, fd.content) && out == read
    ensures res != Ok ==> OthersStill(fs, old(FS.ViewOf(fs)), o, res == ErrNotFound)
  {
    hide OthersStill, Spiffs.Sound, Spiffs.Budget, FS.ViewOf, FS.StoreOf, FS.Steps, FS.Outputs, FS.Step, FS.Output,
         FS.Hazard, FS.Plain, FS.TotalPrice, FS.LeftNow, FS.Lost, WB.Replay, WB.AllSensible, WB.Harmless, Commands,
         Write;
    ghost var a, cs := FS.ViewOf(fs), Commands(h, fd.log);
    StepsReplay(a, h, o, fd.log);
    if read != [] {
      LastRead(a, h, o, fd.log);
    }
    var outs;
    ghost var gcs;
    res, outs, intact, gcs := FS.Run(fs, Commands(h, fd.log));
    if !intact {
      CommandsLength(h, fd.log);
      HazardHarms(a, h, o, fd.log, |outs|);
    }
    CommandsLength(h, fd.log);
    if res != Ok {
      OthersLeft(fs, a, h, o, fd.log, |outs|, res == ErrNotFound);
    }
    out := if |read| > 0 && |outs| > 0 then outs[|outs| - 1] else [];
  }

  lemma CommandsLength(h: nat, log: seq<WB.Access>)
    ensures |Commands(h, log)| == |log| && Commands(h, log)[..|log|] == Commands(h, log)
  {}

  /** One operation, with what it does on the flash. */
  method Do(fs: Spiffs, h: nat, ghost o: nat, fd: WB.Descriptor, op: WB.Op)
    returns (res: Code, out: seq<Byte>, intact: bool)
    requires Agree(fs, h, o, fd) && WB.Allowed(fd.View(), op)
    modifies fs, fd
    ensures res == Ok && intact ==>
              && Agree(fs, h, o, fd) && fd.View() == WB.DirectStep(old(fd.View()), false, op)
              && (op.ReadOp? ==> out == WB.DirectRead(old(fd.View()), op.len))
              && FS.ViewOf(fs) == With(old(FS.ViewOf(fs)), o, fd.content)
              && (op.FlushOp? ==> fd.content == fd.Logical())
    ensures WB.Careful(op) && !old(fd.EmptyInside()) ==> intact && (res == Ok ==> !fd.EmptyInside())
    ensures res != Ok ==> OthersStill(fs, old(FS.ViewOf(fs)), o, res == ErrNotFound)
  {
    hide OthersStill, Spiffs.Sound, Spiffs.Budget, FS.ViewOf, FS.StoreOf, WB.DirectStep, WB.DirectRead,
         WB.Descriptor.Stored, WB.Descriptor.EmptyInside, WB.Careful, WB.Allowed;
    out := WB.Do(fd, op);
    res, out, intact := Carry(fs, h, o, fd, out);
    if res == Ok && intact {
      Settle(fd);
    }
  }

  lemma WithTwice(a: FS.View, o: nat, c: seq<Byte>, c': seq<Byte>)
    ensures With(With(a, o, c), o, c') == With(a, o, c')
  {}

  lemma WithSame(a: FS.View, o: nat)
    requires o in a.store
    ensures With(a, o, a.store[o]) == a
  {}

  lemma Agreed(fs: Spiffs, h: nat, o: nat, fd: WB.Descriptor)
    requires Agree(fs, h, o, fd)
    ensures fs.g.Wf() && o in FS.ViewOf(fs).store && fd.Valid() && fd.fdOffset <= |fd.Logical()|
    ensures fd.View() == WB.Direct(fd.Logical(), fd.fdOffset)
  {}

  /** Any run of writes, seeks, reads and flushes through a cached descriptor ends, after a flush, with the flash
      holding in its file the bytes that writing straight through would leave, and nothing else changed; and the bytes
      read from the flash on the way are those that reading straight through would give. Only a run that itself writes
      no bytes can put another page in place of the header. When it fails, all other
      files read as they did, but for one that may be torn after a failed cleaning. */
  method Run(fs: Spiffs, h: nat, ghost o: nat, fd: WB.Descriptor, ops: seq<WB.Op>)
    returns (res: Code, outs: seq<seq<Byte>>, intact: bool)
    requires Agree(fs, h, o, fd) && WB.RunAllowed(fd.View(), false, ops)
    modifies fs, fd
    ensures res == Ok && intact ==>
              var d := WB.DirectRun(old(fd.View()), false, ops);
              && Agree(fs, h, o, fd) && FS.ViewOf(fs) == With(old(FS.ViewOf(fs)), o, d.content) && fd.fdOffset == d.pos
              && outs == WB.DirectOuts(old(fd.View()), false, ops)
    ensures !old(fd.EmptyInside()) && (forall i :: 0 <= i < |ops| ==> WB.Careful(ops[i])) ==> intact
    ensures res != Ok ==> OthersStill(fs, old(FS.ViewOf(fs)), o, res == ErrNotFound)
  {
    hide OthersStill, Agree, FS.ViewOf, With, WB.DirectStep, WB.DirectRead, WB.Descriptor.EmptyInside, WB.Careful,
         WB.Allowed, WB.Descriptor.Valid, WB.Descriptor.View, WB.Descriptor.Logical, WB.DirectRun, WB.DirectOuts,
         WB.RunAllowed, WB.Midway;
    Agreed(fs, h, o, fd);
    ghost var a, d0 := FS.ViewOf(fs), fd.View();
    ghost var c := a.store[o];
    WithSame(a, o);
    res, outs, intact := Ok, [], true;
    var i := 0;
    WB.MidwayStart(d0, false, ops);
    while i < |ops|
      invariant 0 <= i <= |ops| && res == Ok && intact && Agree(fs, h, o, fd) && fs.g.Wf() && fd.Valid()
      invariant FS.ViewOf(fs) == With(a, o, c)
      invariant WB.Midway(d0, false, ops, fd.View(), ops[i..], outs)
      invariant !old(fd.EmptyInside()) && (forall j :: 0 <= j < i ==> WB.Careful(ops[j])) ==> !fd.EmptyInside()
    {
      WB.MidwayStep(d0, false, ops, fd.View(), i, outs);
      var out;
      res, out, intact := Do(fs, h, o, fd, ops[i]);
      if res != Ok || !intact {
        if res != Ok {
          OthersToo(fs, a, o, c, res == ErrNotFound);
        }
        return;
      }
      Agreed(fs, h, o, fd);
      WithTwice(a, o, c, fd.content);
      c := fd.content;
      if ops[i].ReadOp? {
        outs := outs + [out];
      }
      i := i + 1;
    }
    WB.MidwayEnd(d0, false, ops, fd.View(), outs);
    FlushAllowed(fd.View());
    var out;
    res, out, intact := Do(fs, h, o, fd, WB.FlushOp);
    if res == Ok && intact {
      Agreed(fs, h, o, fd);
      WithTwice(a, o, c, fd.content);
    } else if res != Ok {
      OthersToo(fs, a, o, c, res == ErrNotFound);
    }
  }

  lemma FlushAllowed(d: WB.Direct)
    ensures WB.Allowed(d, WB.FlushOp) && WB.Careful(WB.FlushOp)
    ensures d.pos <= |d.content| ==> WB.DirectStep(d, false, WB.FlushOp) == d
  {}
}
