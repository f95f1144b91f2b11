/** Writing through a descriptor that was not opened with O_DIRECT: small writes gather in a cache
    page (SPIFFS_write, SPIFFS_lseek, SPIFFS_read, spiffs_fflush_cache). */
module WriteBehind {
  import opened Nor
  import opened Layout
  import opened Contents
  import opened Wrappers

  /** A cache page with pending writes: size bytes from offset on; the rest of mem is left over. */
  datatype Pending = Pending(offset: nat, size: nat, mem: seq<Byte>)

  datatype Whence = FromStart | FromHere | FromEnd
  datatype Outcome = Done | EndOfObject | NotFound

  /** The operations, with what they find of the rest of the system: whether a cache page can be had (room), and whether
      the index page searched for exists (found). */
  datatype Op =
    | WriteOp(data: seq<Byte>, room: bool)
    | SeekOp(offs: int, whence: Whence, found: bool)
    | ReadOp(len: nat)
    | FlushOp

  // ---------- writing straight through ----------

  /** A descriptor whose writes go to the file at once. */
  datatype Direct = Direct(content: seq<Byte>, pos: nat)

  function DirectWrite(d: Direct, append: bool, data: seq<Byte>): (d': Direct)
    requires d.pos <= |d.content|
    ensures d'.pos <= |d'.content|
  {
    var off := if append then |d.content| else d.pos;
    Direct(Write(d.content, off, data), off + |data|)
  }

  function Target(d: Direct, offs: int, whence: Whence): int {
    match whence
    case FromStart => offs
    case FromHere => d.pos + offs
    case FromEnd => |d.content| + offs
  }

  function DirectSeek(d: Direct, offs: int, whence: Whence, found: bool): Direct
    requires Target(d, offs, whence) >= 0
  {
    var to := Target(d, offs, whence);
    if to > |d.content| then d.(pos := |d.content|) else if found then d.(pos := to) else d
  }

  /** Where a seek leads, seen by reading: from the start of the file, from where the descriptor is, which takes it back
      over what it has just written, and from the end. */
  lemma SeekAndRead(d: Direct, n: nat, len: nat, data: seq<Byte>)
    requires d.pos <= |d.content|
    ensures n <= |d.content| ==>
              DirectRead(DirectSeek(d, n, FromStart, true), len) == d.content[n..Min(n + len, |d.content|)]
    ensures var d' := DirectWrite(d, false, data);
            && Target(d', -|data|, FromHere) >= 0
            && DirectRead(DirectSeek(d', -|data|, FromHere, true), |data|) == data
    ensures n <= |d.content| ==>
              Target(d, 0 - n, FromEnd) >= 0
              && DirectRead(DirectSeek(d, 0 - n, FromEnd, true), n) == d.content[|d.content| - n..]
  {}

  /** The bytes a read gives. */
  function DirectRead(d: Direct, len: nat): seq<Byte>
    requires d.pos <= |d.content|
  {
    d.content[d.pos..Min(d.pos + len, |d.content|)]
  }

  predicate Allowed(d: Direct, op: Op) {
    match op
    case WriteOp(_, _) => true
    case SeekOp(offs, whence, _) => Target(d, offs, whence) >= 0
    case ReadOp(len) => len > 0
    case FlushOp => true
  }

  lemma AtEnd(d: Direct, len: nat)
    requires d.pos <= |d.content|
    ensures d.pos == |d.content| ==> DirectRead(d, len) == []
  {}

  function DirectStep(d: Direct, append: bool, op: Op): (d': Direct)
    requires d.pos <= |d.content| && Allowed(d, op)
    ensures d'.pos <= |d'.content|
  {
    match op
    case WriteOp(data, _) => DirectWrite(d, append, data)
    case SeekOp(offs, whence, found) => DirectSeek(d, offs, whence, found)
    case ReadOp(len) => d.(pos := d.pos + |DirectRead(d, len)|)
    case FlushOp => d
  }

  // ---------- gathering writes ----------

  predicate PendingOk(content: seq<Byte>, pageSize: nat, p: Option<Pending>) {
    p.Some? ==> |p.value.mem| == pageSize && p.value.size <= pageSize && p.value.offset <= |content|
  }

  function Bytes(p: Pending): seq<Byte>
    requires p.size <= |p.mem|
  {
    p.mem[..p.size]
  }

  /** The file once the pending bytes are written. */
  function Flushed(content: seq<Byte>, pageSize: nat, p: Option<Pending>): seq<Byte>
    requires PendingOk(content, pageSize, p)
  {
    if p.None? then content else Write(content, p.value.offset, Bytes(p.value))
  }

  /** Adding bytes inside or right after the pending range is adding them to the file. */
  lemma Gathered(c: seq<Byte>, off: nat, w: seq<Byte>, o: nat, data: seq<Byte>)
    requires off <= |c| && o <= |w|
    ensures Write(Write(c, off, w), off + o, data) == Write(c, off, Write(w, o, data))
  {}

  lemma WriteNone(c: seq<Byte>, off: nat, mem: seq<Byte>)
    requires off <= |c|
    ensures Write(c, off, mem[..0]) == c
  {}

  // ---------- appending, by lengths alone ----------

  /** The length of the file, that of the pending bytes, the position, and whether the size is still undefined, of a
      descriptor in append mode. */
  datatype Lengths = Lengths(file: nat, pending: Option<nat>, pos: nat, undefined: bool)

  function Total(s: Lengths): nat { s.file + if s.pending.Some? then s.pending.value else 0 }

  /** The size stays undefined as long as there are no bytes. */
  function Reached(s: Lengths, file: nat, pending: Option<nat>, pos: nat): Lengths {
    Lengths(file, pending, pos, s.undefined && file == 0)
  }

  /** The position ends behind the new bytes only if none were pending. */
  function GaugeWritten(s: Lengths, pageSize: nat, n: nat, room: bool): Lengths {
    if n >= pageSize then Reached(s, Total(s) + n, None, s.file + n)
    else if s.pending.Some? && s.pending.value + n <= pageSize
        then Reached(s, s.file, Some(s.pending.value + n), s.file + n)
    else if room then Reached(s, Total(s), Some(n), s.file + n)
    else Reached(s, Total(s) + n, None, s.file + n)
  }

  /** The old position does not matter. */
  lemma GaugeEnd(s: Lengths, pageSize: nat, n: nat, room: bool, pos: nat)
    requires pos == s.file
    ensures GaugeWritten(s.(pos := pos), pageSize, n, room).(pos := pos + n) == GaugeWritten(s, pageSize, n, room)
  {}

  function GaugeTarget(s: Lengths, offs: int, whence: Whence): int {
    match whence
    case FromStart => offs
    case FromHere => s.pos + offs
    case FromEnd => Total(s) + offs
  }

  function GaugeStep(s: Lengths, pageSize: nat, op: Op): Lengths
    requires op.SeekOp? ==> GaugeTarget(s, op.offs, op.whence) >= 0
  {
    match op
    case WriteOp(data, room) => GaugeWritten(s, pageSize, |data|, room)
    case SeekOp(offs, whence, found) =>
      var to := GaugeTarget(s, offs, whence);
      Reached(s, Total(s), None, if to > Total(s) then Total(s) else if found then to else s.pos)
    case ReadOp(len) =>
      if s.undefined then s else Reached(s, Total(s), None, Max(s.pos, Min(s.pos + len, Total(s))))
    case FlushOp => Reached(s, Total(s), None, s.pos)
  }

  /** No seek of a run goes before the start of the file. */
  predicate SeeksOk(s: Lengths, pageSize: nat, ops: seq<Op>)
    decreases |ops|
  {
    ops == [] ||
    (&& (ops[0].SeekOp? ==> GaugeTarget(s, ops[0].offs, ops[0].whence) >= 0)
     && (ops[0].ReadOp? ==> ops[0].len > 0)
     && SeeksOk(GaugeStep(s, pageSize, ops[0]), pageSize, ops[1..]))
  }

  // ---------- what is done to the file ----------

  /** A call of spiffs_hydro_write or spiffs_object_read. */
  datatype Access = Wrote(offset: nat, data: seq<Byte>) | Got(offset: nat, len: nat)

  /** The pending bytes, written back. */
  function Dumped(pending: Option<Pending>): seq<Access>
    requires pending.Some? ==> pending.value.size <= |pending.value.mem|
  {
    if pending.Some? then [Wrote(pending.value.offset, Bytes(pending.value))] else []
  }

  /** The bytes can go into the cache page: inside or right after the pending ones. */
  predicate GoesInto(pending: Option<Pending>, pageSize: nat, offset: nat, len: nat) {
    pending.Some? && pending.value.offset <= offset <= pending.value.offset + pending.value.size
        && offset + len <= pending.value.offset + pageSize
  }

  /** What a write of some bytes does to the file: nothing if they are gathered with those pending. Otherwise these are
      written back; and the new ones are written too, unless they are less than a page and a cache page is to be had. */
  function FileWrites(pending: Option<Pending>, pageSize: nat, offset: nat, data: seq<Byte>, room: bool): seq<Access>
    requires pending.Some? ==> pending.value.size <= |pending.value.mem|
  {
    if |data| < pageSize && GoesInto(pending, pageSize, offset, |data|) then []
    else Dumped(pending) + if |data| < pageSize && room then [] else [Wrote(offset, data)]
  }

  /** Writes go inside the file or to its end, and reads begin inside it. */
  predicate Sensible(c: seq<Byte>, a: Access) {
    match a
    case Wrote(offset, _) => offset <= |c|
    case Got(offset, len) => offset < |c| && len > 0
  }

  /** The file after these accesses. */
  function Replay(c: seq<Byte>, log: seq<Access>): seq<Byte> {
    if log == [] then c else
      var before, last := Replay(c, log[..|log| - 1]), log[|log| - 1];
      if last.Wrote? && last.offset <= |before| then Write(before, last.offset, last.data) else before
  }

  predicate AllSensible(c: seq<Byte>, log: seq<Access>) {
    forall i :: 0 <= i < |log| ==> Sensible(Replay(c, log[..i]), log[i])
  }

  /** Starting from the bytes in base, the accesses lead to the content. */
  ghost predicate Logged(base: seq<Byte>, log: seq<Access>, content: seq<Byte>) {
    AllSensible(base, log) && Replay(base, log) == content
  }

  /** No write of no bytes was before the end of the file. */
  ghost predicate Harmless(base: seq<Byte>, log: seq<Access>) {
    forall i :: 0 <= i < |log| && log[i].Wrote? && log[i].data == [] ==> |Replay(base, log[..i])| <= log[i].offset
  }

  lemma LoggedMore(base: seq<Byte>, log: seq<Access>, content: seq<Byte>, a: Access)
    requires Logged(base, log, content) && Sensible(content, a)
    ensures Logged(base, log + [a], if a.Wrote? then Write(content, a.offset, a.data) else content)
    ensures Harmless(base, log) && !(a.Wrote? && a.data == [] && a.offset < |content|) ==> Harmless(base, log + [a])
  {
    var more := log + [a];
    assert forall i :: 0 <= i <= |log| ==> more[..i] == log[..i];
    assert more[..|log|] == log;
  }

  class Descriptor {
    const pageSize: nat
    const append: bool
    var content: seq<Byte>       // the file, as writes to it leave it
    var undefined: bool          // its size is SPIFFS_UNDEFINED_LEN
    var fdOffset: nat
    var pending: Option<Pending>
    ghost var risky: bool        // no bytes have been written before the end of the file
    var log: seq<Access>         // what has been done to the file since it held the bytes in base
    ghost var base: seq<Byte>

    ghost predicate Valid()
      reads this
    {
      && pageSize > 0 && Stored() && PendingOk(content, pageSize, pending)
      && fdOffset <= |Flushed(content, pageSize, pending)|
      && (!append && undefined ==> fdOffset == |Flushed(content, pageSize, pending)|)
      && (append && pending.Some? ==> pending.value.offset == |content|)
    }

    /** The file is what the log says. */
    ghost predicate Stored()
      reads this`base, this`log, this`content, this`undefined, this`risky
    {
      Logged(base, log, content) && (undefined ==> content == []) && (!risky ==> Harmless(base, log))
    }

    /** What the file will hold. */
    ghost function Logical(): seq<Byte>
      reads this
      requires Valid()
    {
      Flushed(content, pageSize, pending)
    }

    /** The same descriptor, writing straight through. */
    ghost function View(): Direct
      reads this
      requires Valid()
    {
      Direct(Logical(), fdOffset)
    }

    /** The cache page is empty, and for a place before the end of the file. */
    predicate EmptyInside()
      reads this`pending, this`content
    {
      pending.Some? && pending.value.size == 0 && pending.value.offset < |content|
    }

    /** spiffs_hydro_write, as Hydro.HydroWrite describes it. */
    method Store(offset: nat, data: seq<Byte>)
      requires offset <= |content| && Stored()
      modifies this`content, this`risky, this`undefined, this`log
      ensures Stored() && content == Write(old(content), offset, data)
      ensures undefined == (old(undefined) && data == [])
      ensures risky == (old(risky) || (data == [] && offset < |old(content)|))
      ensures log == old(log) + [Wrote(offset, data)]
    {
      hide Logged, Harmless;
      LoggedMore(base, log, content, Wrote(offset, data));
      risky := risky || (data == [] && offset < |content|);
      content := Write(content, offset, data);
      log := log + [Wrote(offset, data)];
      undefined := undefined && data == [];
    }

    /** spiffs_hydro_write of the pending bytes, and release of the cache page. */
    method WriteBack()
      requires Valid()
      modifies this`content, this`pending, this`risky, this`undefined, this`log
      ensures Valid() && pending == None && content == old(Logical()) && Logical() == content
      ensures log == old(log) + Dumped(old(pending))
      ensures undefined == (old(undefined) && content == [])
      ensures risky == (old(risky) || old(EmptyInside()))
    {
      hide Logged, Harmless, Write;
      WriteLength();
      if pending.Some? {
        Store(pending.value.offset, Bytes(pending.value));
        pending := None;
      }
    }

    lemma WriteLength()
      requires Valid()
      ensures pending.Some? ==> |Logical()| == Max(|content|, pending.value.offset + |Bytes(pending.value)|)
    {}

    predicate Fits(offset: nat, len: nat)
      reads this
    {
      GoesInto(pending, pageSize, offset, len)
    }

    /** Sees to it that the bytes can go into the cache page, if there is one. */
    method Prepare(offset: nat, len: nat, room: bool)
      requires Valid() && len < pageSize && offset <= |Logical()| && (append ==> offset == |Logical()|)
      modifies this`content, this`pending, this`risky, this`undefined, this`log
      ensures Stored() && undefined == (old(undefined) && content == [])
      ensures PendingOk(content, pageSize, pending) && Flushed(content, pageSize, pending) == old(Logical())
      ensures pending.Some? ==> Fits(offset, len)
      ensures if old(Fits(offset, len)) then pending == old(pending) && content == old(content)
              else
                && content == old(Logical()) && (pending.Some? <==> room)
                && (room ==> pending.value.offset == offset && pending.value.size == 0)
      ensures log == old(log) + if old(Fits(offset, len)) then [] else Dumped(old(pending))
      ensures risky == (old(risky) || (!old(Fits(offset, len)) && old(EmptyInside())))
    {
      hide Write, Logged, Harmless;
      var allocate := true;
      if pending.Some? {
        if offset < pending.value.offset || offset > pending.value.offset + pending.value.size
           || offset + len > pending.value.offset + pageSize {
          // not within the bounds of the cache page: it is written back, and another one taken
          WriteBack();
        } else {
          allocate := false;
        }
      }
      if allocate && room {
        // what the page holds from before does not matter
        assert |seq<Byte>(pageSize, _ => 0)| == pageSize;
        var mem :| |mem| == pageSize;
        WriteNone(content, offset, mem);
        pending := Some(Pending(offset, 0, mem));
      }
    }

    /** Puts bytes into the cache page. */
    method Gather(offset: nat, data: seq<Byte>)
      requires PendingOk(content, pageSize, pending) && Fits(offset, |data|)
      modifies this`pending
      ensures PendingOk(content, pageSize, pending) && pending.Some?
      ensures pending.value.offset == old(pending).value.offset
      ensures pending.value.size == Max(old(pending).value.size, offset + |data| - pending.value.offset)
      ensures offset <= |old(Flushed(content, pageSize, pending))|
      ensures Flushed(content, pageSize, pending) == Write(old(Flushed(content, pageSize, pending)), offset, data)
    {
      var p := pending.value;
      var o := offset - p.offset;
      var mem := p.mem[..o] + data + p.mem[o + |data|..];
      pending := Some(p.(mem := mem, size := Max(p.size, o + |data|)));
      Gathered(content, p.offset, Bytes(p), o, data);
      assert Bytes(pending.value) == Write(Bytes(p), o, data);
    }

    /** A small write goes into a cache page, if one is to be had. */
    method WriteSmall(offset: nat, data: seq<Byte>, room: bool)
      requires Valid() && |data| < pageSize && offset <= |Logical()| && (append ==> offset == |Logical()|)
      modifies this`content, this`pending, this`risky, this`undefined, this`log
      ensures Stored() && PendingOk(content, pageSize, pending) && undefined == (old(undefined) && content == [])
      ensures Flushed(content, pageSize, pending) == Write(old(Logical()), offset, data)
      ensures append && pending.Some? ==> pending.value.offset == |content|
      ensures append ==> Gauge() == GaugeWritten(old(Gauge()), pageSize, |data|, room).(pos := fdOffset)
      ensures append || (data != [] && !old(EmptyInside())) ==> risky == old(risky)
      ensures data != [] && !old(EmptyInside()) ==> !EmptyInside()
      ensures log == old(log) + FileWrites(old(pending), pageSize, offset, data, room)
    {
      hide Write, Logged, Harmless;
      LogicalLength();
      Prepare(offset, |data|, room);
      if pending.Some? {
        Gather(offset, data);
      } else {
        Store(offset, data);
      }
    }

    /** A big one does not. */
    method WriteBig(offset: nat, data: seq<Byte>, ghost room: bool)
      requires Valid() && |data| >= pageSize && offset <= |Logical()| && (append ==> offset == |Logical()|)
      modifies this`content, this`pending, this`risky, this`undefined, this`log
      ensures Stored() && PendingOk(content, pageSize, pending) && undefined == (old(undefined) && content == [])
      ensures Flushed(content, pageSize, pending) == Write(old(Logical()), offset, data)
      ensures append && pending.Some? ==> pending.value.offset == |content|
      ensures append ==> Gauge() == GaugeWritten(old(Gauge()), pageSize, |data|, room).(pos := fdOffset)
      ensures append || (data != [] && !old(EmptyInside())) ==> risky == old(risky)
      ensures data != [] && !old(EmptyInside()) ==> !EmptyInside()
      ensures log == old(log) + FileWrites(old(pending), pageSize, offset, data, room)
    {
      hide Write, Logged, Harmless;
      LogicalLength();
      WriteBack();
      Store(offset, data);
    }

    /** SPIFFS_write */
    method WriteData(data: seq<Byte>, room: bool)
      requires Valid()
      modifies this`content, this`fdOffset, this`pending, this`risky, this`undefined, this`log
      ensures Valid()
      ensures Logical() == DirectWrite(old(View()), append, data).content
      ensures View() == DirectWrite(old(View()), append, data) <==> !append || |old(content)| == |old(Logical())|
      ensures append ==> Gauge() == GaugeWritten(old(Gauge()), pageSize, |data|, room)
      ensures append || (data != [] && !old(EmptyInside())) ==> risky == old(risky)
      ensures data != [] && !old(EmptyInside()) ==> !EmptyInside()
      ensures PendingOk(old(content), pageSize, old(pending))
      ensures var offset := if append then |old(Logical())| else old(fdOffset);
              log == old(log) + FileWrites(old(pending), pageSize, offset, data, room)
    {
      hide Write, Stored, PendingOk, Flushed, EmptyInside, GaugeWritten, FileWrites;
      LogicalLength();
      GaugeEnd(Gauge(), pageSize, |data|, room, |content|);
      UndefinedEnd();
      if append {
        fdOffset := |content|;
      }
      var offset := fdOffset;
      if append && pending.Some? {
        offset := Max(offset, pending.value.offset + pending.value.size);
      }
      if |data| < pageSize {
        WriteSmall(offset, data, room);
      } else {
        WriteBig(offset, data, room);
      }
      fdOffset := fdOffset + |data|;
    }

    lemma UndefinedEnd()
      requires Valid()
      ensures undefined ==> content == []
    {}

    /** A cache page for appending is never inside the file. */
    lemma NothingInside()
      requires Valid()
      ensures append ==> !EmptyInside()
    {}

    lemma LogicalLength()
      requires Valid()
      ensures |content| <= |Logical()|
      ensures |Logical()| == if pending.Some? then Max(|content|, pending.value.offset + pending.value.size)
              else |content|
    {}

    /** SPIFFS_lseek: writes back first. */
    method Seek(offs: int, whence: Whence, found: bool) returns (res: Outcome)
      requires Valid() && Target(View(), offs, whence) >= 0
      modifies this`content, this`fdOffset, this`pending, this`risky, this`undefined, this`log
      ensures Valid() && pending == None && content == old(Logical()) && undefined == (old(undefined) && content == [])
      ensures View() == DirectSeek(old(View()), offs, whence, found)
      ensures risky == (old(risky) || old(EmptyInside())) && log == old(log) + Dumped(old(pending))
    {
      hide Logged, Harmless, Write;
      WriteBack();
      var to := if whence == FromHere then fdOffset + offs else if whence == FromEnd then |content| + offs else offs;
      if to > |content| {
        fdOffset := |content|;
        return EndOfObject;
      }
      if !found {
        return NotFound;
      }
      fdOffset := to;
      return Done;
    }

    /** SPIFFS_read: a file whose size is undefined has no bytes to give, and nothing is written back then. */
    method ReadData(len: nat) returns (res: Outcome, out: seq<Byte>)
      requires Valid() && len > 0
      modifies this`content, this`fdOffset, this`pending, this`risky, this`undefined, this`log
      ensures Valid() && Logical() == old(Logical())
      ensures !append || !old(undefined) ==>
              View() == DirectStep(old(View()), append, ReadOp(len)) && out == DirectRead(old(View()), len)
      ensures if old(undefined) then out == [] && unchanged(this)
              else pending == None && content == old(Logical()) && !undefined
      ensures risky == (old(risky) || old(!undefined && EmptyInside()))
      ensures out != [] ==> log != [] && log[|log| - 1] == Got(old(fdOffset), |out|)
      ensures out != [] ==> old(fdOffset) + |out| <= |content| && out == content[old(fdOffset)..old(fdOffset) + |out|]
    {
      hide Logged, Harmless, Write;
      out := [];
      if undefined {
        AtEnd(View(), len);
        return EndOfObject, out;
      }
      WriteBack();
      if fdOffset >= |content| {
        return EndOfObject, out;
      }
      // only what is left of the file
      out := content[fdOffset..Min(fdOffset + len, |content|)];
      LoggedMore(base, log, content, Got(fdOffset, |out|));
      log := log + [Got(fdOffset, |out|)];
      fdOffset := fdOffset + |out|;
      return Done, out;
    }

    /** The lengths and the position. */
    ghost function Gauge(): Lengths
      reads this
    {
      Lengths(|content|, if pending.Some? then Some(pending.value.size) else None, fdOffset, undefined)
    }
  }

  // ---------- runs ----------

  function DirectRun(d: Direct, append: bool, ops: seq<Op>): (d': Direct)
    requires d.pos <= |d.content| && RunAllowed(d, append, ops)
    ensures d'.pos <= |d'.content|
    decreases |ops|
  {
    if ops == [] then d else DirectRun(DirectStep(d, append, ops[0]), append, ops[1..])
  }

  predicate RunAllowed(d: Direct, append: bool, ops: seq<Op>)
    requires d.pos <= |d.content|
    decreases |ops|
  {
    ops == [] || (Allowed(d, ops[0]) && RunAllowed(DirectStep(d, append, ops[0]), append, ops[1..]))
  }

  /** What the reads of a run give. */
  function DirectOuts(d: Direct, append: bool, ops: seq<Op>): seq<seq<Byte>>
    requires d.pos <= |d.content| && RunAllowed(d, append, ops)
    decreases |ops|
  {
    if ops == [] then []
    else
      (if ops[0].ReadOp? then [DirectRead(d, ops[0].len)] else [])
      + DirectOuts(DirectStep(d, append, ops[0]), append, ops[1..])
  }

  /** In the middle of a run: from d on, with these operations to come and these reads done. */
  ghost predicate Midway(d0: Direct, append: bool, ops0: seq<Op>, d: Direct, ops: seq<Op>, outs: seq<seq<Byte>>)
    requires d0.pos <= |d0.content| && RunAllowed(d0, append, ops0)
  {
    && d.pos <= |d.content| && RunAllowed(d, append, ops)
    && DirectRun(d, append, ops) == DirectRun(d0, append, ops0)
    && outs + DirectOuts(d, append, ops) == DirectOuts(d0, append, ops0)
  }

  lemma MidwayStart(d0: Direct, append: bool, ops0: seq<Op>)
    requires d0.pos <= |d0.content| && RunAllowed(d0, append, ops0)
    ensures Midway(d0, append, ops0, d0, ops0[0..], [])
  {
    hide RunAllowed, DirectRun, DirectOuts;
    assert ops0[0..] == ops0;
  }

  lemma MidwayStep(d0: Direct, append: bool, ops0: seq<Op>, d: Direct, i: nat, outs: seq<seq<Byte>>)
    requires d0.pos <= |d0.content| && RunAllowed(d0, append, ops0) && i < |ops0|
    requires Midway(d0, append, ops0, d, ops0[i..], outs)
    ensures d.pos <= |d.content| && Allowed(d, ops0[i])
    ensures Midway(d0, append, ops0, DirectStep(d, append, ops0[i]), ops0[i + 1..],
                   if ops0[i].ReadOp? then outs + [DirectRead(d, ops0[i].len)] else outs)
  {
    hide DirectStep, DirectRead, Allowed;
    assert ops0[i..][0] == ops0[i] && ops0[i..][1..] == ops0[i + 1..];
  }

  lemma MidwayEnd(d0: Direct, append: bool, ops0: seq<Op>, d: Direct, outs: seq<seq<Byte>>)
    requires d0.pos <= |d0.content| && RunAllowed(d0, append, ops0)
    requires Midway(d0, append, ops0, d, ops0[|ops0|..], outs)
    ensures d == DirectRun(d0, append, ops0) && outs == DirectOuts(d0, append, ops0)
  {
    assert ops0[|ops0|..] == [];
  }

  /** What leads to a write of no bytes before the end of the file is a write of no bytes. */
  predicate Careful(op: Op) { op.WriteOp? ==> op.data != [] }

  /** One operation does what it does when writing straight through. */
  method Do(fd: Descriptor, op: Op) returns (out: seq<Byte>)
    requires fd.Valid() && !fd.append && Allowed(fd.View(), op)
    modifies fd
    ensures fd.Valid() && fd.View() == DirectStep(old(fd.View()), false, op) && fd.base == old(fd.base)
    ensures out == if op.ReadOp? then DirectRead(old(fd.View()), op.len) else []
    ensures op.FlushOp? ==> fd.pending == None && fd.content == fd.Logical()
    ensures out != [] ==>
              && fd.log != [] && fd.log[|fd.log| - 1] == Got(old(fd.fdOffset), |out|)
              && old(fd.fdOffset) + |out| <= |fd.content|
                  && out == fd.content[old(fd.fdOffset)..old(fd.fdOffset) + |out|]
    ensures Careful(op) && !old(fd.EmptyInside()) ==> fd.risky == old(fd.risky) && !fd.EmptyInside()
  {
    hide Write, PendingOk, Flushed, Descriptor.Stored;
    out := [];
    match op {
      case WriteOp(data, room) => fd.WriteData(data, room);
      case SeekOp(offs, whence, found) => var _ := fd.Seek(offs, whence, found);
      case ReadOp(len) =>
        var res;
        res, out := fd.ReadData(len);
      case FlushOp => fd.WriteBack();
    }
  }

  /** Any sequence of writes, seeks, reads and flushes ends, after a flush, with the file and the position that writing
      straight through would give, and the reads give the same bytes. No bytes are written before the end of the file
      unless the run itself does so. */
  method Run(fd: Descriptor, ops: seq<Op>) returns (outs: seq<seq<Byte>>)
    requires fd.Valid() && !fd.append && RunAllowed(fd.View(), false, ops)
    modifies fd
    ensures fd.Valid() && fd.base == old(fd.base)
    ensures fd.content == DirectRun(old(fd.View()), false, ops).content
    ensures fd.fdOffset == DirectRun(old(fd.View()), false, ops).pos
    ensures outs == DirectOuts(old(fd.View()), false, ops)
    ensures !old(fd.EmptyInside()) && (forall i :: 0 <= i < |ops| ==> Careful(ops[i])) ==> fd.risky == old(fd.risky)
  {
    hide Write, PendingOk, Flushed, DirectStep, DirectRead, Allowed, Careful, Descriptor.EmptyInside, Descriptor.Stored,
         DirectRun, DirectOuts, RunAllowed, Midway;
    outs := [];
    var i := 0;
    ghost var d0 := fd.View();
    MidwayStart(d0, false, ops);
    while i < |ops|
      invariant 0 <= i <= |ops| && fd.Valid() && fd.base == old(fd.base)
      invariant Midway(d0, false, ops, fd.View(), ops[i..], outs)
      invariant !old(fd.EmptyInside()) && (forall j :: 0 <= j < i ==> Careful(ops[j])) ==>
                  fd.risky == old(fd.risky) && !fd.EmptyInside()
    {
      MidwayStep(d0, false, ops, fd.View(), i, outs);
      var out := Do(fd, ops[i]);
      if ops[i].ReadOp? {
        outs := outs + [out];
      }
      i := i + 1;
    }
    MidwayEnd(d0, false, ops, fd.View(), outs);
    fd.WriteBack();
  }

  function Appended(ops: seq<Op>): seq<Byte> {
    if ops == [] then [] else Appended(ops[..|ops| - 1]) + (if ops[|ops| - 1].WriteOp? then ops[|ops| - 1].data else [])
  }

  method SeekAppending(fd: Descriptor, offs: int, whence: Whence, found: bool)
    requires fd.Valid() && fd.append && GaugeTarget(fd.Gauge(), offs, whence) >= 0
    modifies fd
    ensures fd.Valid() && fd.Logical() == old(fd.Logical())
    ensures fd.Gauge() == GaugeStep(old(fd.Gauge()), fd.pageSize, SeekOp(offs, whence, found))
    ensures fd.risky == old(fd.risky)
  {
    hide PendingOk, Flushed, Write, Descriptor.Stored, GaugeWritten, Logged;
    fd.LogicalLength();
    fd.NothingInside();
    var _ := fd.Seek(offs, whence, found);
    fd.LogicalLength();
  }

  /** One operation on a descriptor opened for appending. */
  method DoAppending(fd: Descriptor, op: Op)
    requires fd.Valid() && fd.append
    requires op.SeekOp? ==> GaugeTarget(fd.Gauge(), op.offs, op.whence) >= 0
    requires op.ReadOp? ==> op.len > 0
    modifies fd
    ensures fd.Valid() && fd.Logical() == old(fd.Logical()) + (if op.WriteOp? then op.data else [])
    ensures fd.Gauge() == GaugeStep(old(fd.Gauge()), fd.pageSize, op) && fd.risky == old(fd.risky)
  {
    hide PendingOk, Flushed, Write, Descriptor.Stored, GaugeWritten, Logged;
    fd.LogicalLength();
    fd.NothingInside();
    match op {
      case WriteOp(data, room) =>
        WriteAtEnd(fd.Logical(), data);
        fd.WriteData(data, room);
      case SeekOp(offs, whence, found) =>
        SeekAppending(fd, offs, whence, found);
      case ReadOp(len) =>
        var _, _ := fd.ReadData(len);
        fd.LogicalLength();
      case FlushOp => fd.WriteBack();
    }
  }

  lemma WriteAtEnd(c: seq<Byte>, data: seq<Byte>)
    ensures Write(c, |c|, data) == c + data
  {}

  /** A descriptor opened for appending adds all bytes at the end, in order, wherever it seeks, and never writes no
      bytes before the end of the file. */
  method RunAppending(fd: Descriptor, ops: seq<Op>)
    requires fd.Valid() && fd.append && SeeksOk(fd.Gauge(), fd.pageSize, ops)
    modifies fd
    ensures fd.Valid() && fd.content == old(fd.Logical()) + Appended(ops) && fd.risky == old(fd.risky)
  {
    hide PendingOk, Flushed, GaugeStep, GaugeTarget, Descriptor.Stored, Dumped, Descriptor.EmptyInside;
    ghost var c0 := fd.Logical();
    var i := 0;
    assert ops[0..] == ops;
    while i < |ops|
      invariant 0 <= i <= |ops| && fd.Valid() && SeeksOk(fd.Gauge(), fd.pageSize, ops[i..])
      invariant fd.risky == old(fd.risky)
      invariant fd.Logical() == c0 + Appended(ops[..i])
    {
      assert ops[..i + 1][..i] == ops[..i] && ops[i..][0] == ops[i] && ops[i..][1..] == ops[i + 1..];
      DoAppending(fd, ops[i]);
      assert Appended(ops[..i + 1]) == Appended(ops[..i]) + (if ops[i].WriteOp? then ops[i].data else []);
      i := i + 1;
    }
    assert ops[..|ops|] == ops;
    fd.NothingInside();
    fd.WriteBack();
  }
}
