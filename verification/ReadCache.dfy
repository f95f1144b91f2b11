/** The read cache between the file system and the flash (spiffs_cache.c), on bytes. */
module ReadCache {
  import opened Wrappers
  import opened Nor
  import opened Contents

  /** A cache page; write marks one that holds pending writes of a descriptor. */
  datatype Line = Line(used: bool, write: bool, writeThrough: bool, lastAccess: Word, pix: nat, mem: seq<Byte>)

  datatype Command = Update | Delete | WriteThrough

  /** What programming leaves in a flash page. */
  function Programmed(page: seq<Byte>, off: nat, src: seq<Byte>): (r: seq<Byte>)
    requires off + |src| <= |page|
    ensures |r| == |page|
  {
    Patch(page, off, AndBytes(page[off..off + |src|], src))
  }

  /** The source's difference of two access times, in 32 bits. */
  function Age(now: Word, then_: Word): Word {
    if now >= then_ then now - then_ else now + 0x1_0000_0000 - then_
  }

  /** It is the number of accesses in between, although the counter starts over. */
  lemma AgeIs(then_: Word, n: nat)
    requires n < 0x1_0000_0000
    ensures Age((then_ + n) % 0x1_0000_0000, then_) == n
  {}

  predicate Holds(l: Line, pix: nat) { l.used && !l.write && l.pix == pix }

  predicate Shaped(flash: seq<seq<Byte>>, lines: seq<Line>, pageSize: nat) {
    && (forall p :: 0 <= p < |flash| ==> |flash[p]| == pageSize)
    && (forall i :: 0 <= i < |lines| ==> |lines[i].mem| == pageSize)
    && (forall i :: 0 <= i < |lines| && lines[i].used && !lines[i].write ==>
        lines[i].writeThrough && lines[i].pix < |flash|)
  }

  /** Every cached page has the bytes of the flash. */
  predicate Coherent(flash: seq<seq<Byte>>, lines: seq<Line>) {
    forall i :: 0 <= i < |lines| && lines[i].used && !lines[i].write ==>
            lines[i].pix < |flash| && lines[i].mem == flash[lines[i].pix]
  }

  /** No page is cached twice. */
  predicate Single(lines: seq<Line>) {
    forall i, j :: 0 <= i < j < |lines| && lines[i].used && !lines[i].write && lines[j].used && !lines[j].write ==>
            lines[i].pix != lines[j].pix
  }

  predicate Cached(lines: seq<Line>, pix: nat) { exists i :: 0 <= i < |lines| && Holds(lines[i], pix) }

  /** The same lines, but for their access times. */
  predicate SameButTime(lines: seq<Line>, lines': seq<Line>) {
    && |lines'| == |lines|
    && forall i :: 0 <= i < |lines| ==> lines'[i].(lastAccess := lines[i].lastAccess) == lines[i]
  }

  /** Cache pages with pending writes are left alone, and no others become such. */
  predicate PendingKept(lines: seq<Line>, lines': seq<Line>) {
    && |lines'| == |lines|
    && forall i :: 0 <= i < |lines| && ((lines[i].used && lines[i].write) || (lines'[i].used && lines'[i].write)) ==>
              lines'[i] == lines[i]
  }

  /** A write leaves the cache right exactly if the page is not cached or is dropped, if a write
      past the cache changes nothing, or if a write into it only clears bits. */
  predicate KeepsCoherent(flash: seq<seq<Byte>>, lines: seq<Line>, com: Command, lookup: bool, pix: nat, off: nat,
      src: seq<Byte>)
    requires pix < |flash| && off + |src| <= |flash[pix]|
  {
    if !Cached(lines, pix) then true
    else if com == WriteThrough then Programmed(flash[pix], off, src) == flash[pix]
    else if com == Delete && !lookup then true
    else AndBytes(flash[pix][off..off + |src|], src) == src
  }

  class Cache {
    const pageSize: nat
    var flash: seq<seq<Byte>>
    var lines: seq<Line>
    var lastAccess: Word

    predicate Valid()
      reads this
    {
      Shaped(flash, lines, pageSize) && Single(lines)
    }

    /** spiffs_cache_page_get */
    method PageGet(pix: nat) returns (r: Option<nat>)
      modifies this`lines
      ensures SameButTime(old(lines), lines)
      ensures r == None ==> !Cached(lines, pix) && lines == old(lines)
      ensures r.Some? ==> r.value < |lines| && Holds(lines[r.value], pix)
      ensures r.Some? ==> lines == old(lines)[r.value := old(lines)[r.value].(lastAccess := lastAccess)]
    {
      var i := 0;
      while i < |lines|
        invariant 0 <= i <= |lines| && lines == old(lines)
        invariant forall j :: 0 <= j < i ==> !Holds(lines[j], pix)
      {
        if lines[i].used && !lines[i].write && lines[i].pix == pix {
          lines := lines[i := lines[i].(lastAccess := lastAccess)];
          return Some(i);
        }
        i := i + 1;
      }
      return None;
    }

    /** spiffs_cache_page_free without writing back: no page is ever dirty. */
    method PageFree(ix: nat)
      requires ix < |lines|
      modifies this`lines
      ensures lines == old(lines)[ix := old(lines)[ix].(
                         used := false, write := old(lines)[ix].write && !old(lines)[ix].used,
                         writeThrough := old(lines)[ix].writeThrough && !old(lines)[ix].used)]
    {
      if lines[ix].used {
        lines := lines[ix := lines[ix].(used := false, write := false, writeThrough := false)];
      }
    }

    /** Counts an access, in 32 bits. */
    method Tick()
      modifies this`lastAccess
      ensures lastAccess == (old(lastAccess) + 1) % 0x1_0000_0000
    {
      lastAccess := if lastAccess == WORD_MAX then 0 else lastAccess + 1;
    }

    /** spiffs_cache_page_remove_oldest for read pages: if all pages are busy, frees the read page
        whose last access is longest ago; pages with pending writes stay. */
    method RemoveOldest() returns (ghost victim: Option<nat>)
      modifies this`lines
      ensures victim == None ==> lines == old(lines)
      ensures victim == None ==> (exists i :: 0 <= i < |lines| && !lines[i].used)
                                 || (forall i :: 0 <= i < |lines| && !lines[i].write ==>
                                       lines[i].lastAccess == lastAccess)
      ensures victim.Some? ==> var v := victim.value;
                && v < |old(lines)| && !old(lines)[v].write
                    && lines == old(lines)[v := old(lines)[v].(used := false, write := false, writeThrough := false)]
                && (forall i :: 0 <= i < |lines| ==> old(lines)[i].used)
                && (forall i :: 0 <= i < |lines| && !old(lines)[i].write ==>
                    Age(lastAccess, old(lines)[i].lastAccess) <= Age(lastAccess, old(lines)[v].lastAccess))
    {
      var k := 0;
      while k < |lines|
        invariant 0 <= k <= |lines|
        invariant forall j :: 0 <= j < k ==> lines[j].used
      {
        if !lines[k].used {
          return None;
        }
        k := k + 1;
      }
      // no slot is free: the read page of greatest age goes
      var candIx: int, oldestVal: Word := -1, 0;
      var i := 0;
      while i < |lines|
        invariant 0 <= i <= |lines| && -1 <= candIx < i && lines == old(lines)
        invariant candIx >= 0 ==> !lines[candIx].write && oldestVal == Age(lastAccess, lines[candIx].lastAccess)
        invariant candIx < 0 ==> oldestVal == 0
        invariant forall j :: 0 <= j < i && !lines[j].write ==> Age(lastAccess, lines[j].lastAccess) <= oldestVal
      {
        if Age(lastAccess, lines[i].lastAccess) > oldestVal && !lines[i].write {
          oldestVal := Age(lastAccess, lines[i].lastAccess);
          candIx := i;
        }
        i := i + 1;
      }
      if candIx >= 0 {
        PageFree(candIx);
        return Some(candIx);
      }
      return None;
    }

    /** spiffs_cache_page_allocate */
    method PageAllocate() returns (r: Option<nat>)
      modifies this`lines
      ensures r == None ==> lines == old(lines) && forall i :: 0 <= i < |lines| ==> lines[i].used
      ensures |lines| == |old(lines)|
      ensures r.Some? ==> r.value < |lines| && !old(lines)[r.value].used
      ensures r.Some? ==> lines == old(lines)[r.value := old(lines)[r.value].(used := true, lastAccess := lastAccess)]
    {
      var i := 0;
      while i < |lines|
        invariant 0 <= i <= |lines| && lines == old(lines)
        invariant forall j :: 0 <= j < i ==> lines[j].used
      {
        if !lines[i].used {
          lines := lines[i := lines[i].(used := true, lastAccess := lastAccess)];
          return Some(i);
        }
        i := i + 1;
      }
      return None;
    }

    /** spiffs_cache_drop_page */
    method DropPage(pix: nat)
      requires Valid()
      modifies this`lines
      ensures Valid() && !Cached(lines, pix) && |lines| == |old(lines)|
      ensures forall i :: 0 <= i < |lines| ==> lines[i].used == (old(lines)[i].used && !Holds(old(lines)[i], pix))
      ensures forall i :: 0 <= i < |lines| && lines[i].used ==>
              lines[i].(lastAccess := 0) == old(lines)[i].(lastAccess := 0)
      ensures PendingKept(old(lines), lines)
    {
      var cp := PageGet(pix);
      if cp.Some? {
        HeldOnce(old(lines), pix, cp.value);
        PageFree(cp.value);
      } else {
        NotHeld(lines, pix);
      }
    }

    /** spiffs_phys_rd within one page: gives the bytes of the flash. Reads for second-layer lookups
        do not fill the cache. */
    method PhysRd(lookup2: bool, pix: nat, off: nat, len: nat) returns (dst: seq<Byte>)
      requires Valid() && Coherent(flash, lines) && pix < |flash| && off + len <= pageSize
      modifies this`lines, this`lastAccess
      ensures Valid() && Coherent(flash, lines)
      ensures dst == flash[pix][off..off + len]
      ensures PendingKept(old(lines), lines)
    {
      hide Shaped, Single, Coherent, Cached, Age;
      var cp := PageGet(pix);
      TimesDoNotMatter(flash, old(lines), lines, pageSize, pix);
      Tick();
      if cp.Some? {
        ghost var lines1 := lines;
        lines := lines[cp.value := lines[cp.value].(lastAccess := lastAccess)];
        TimesDoNotMatter(flash, lines1, lines, pageSize, pix);
        HitBytes(flash, lines, pix, cp.value);
        return lines[cp.value].mem[off..off + len];
      }
      if lookup2 {
        ShapedPage(flash, lines, pageSize, pix);
        return flash[pix][off..off + len];
      }
      ghost var lines2 := lines;
      ghost var victim := RemoveOldest();
      if victim.Some? {
        Freed(flash, lines2, pageSize, victim.value, pix);
      }
      ghost var lines3 := lines;
      cp := PageAllocate();
      ShapedPage(flash, lines3, pageSize, pix);
      if cp.Some? {
        lines := lines[cp.value := lines[cp.value].(write := false, writeThrough := true, pix := pix,
                                                    mem := flash[pix])];
        Filled(flash, lines3, pageSize, cp.value, pix, lines[cp.value]);
        assert lines == lines3[cp.value := lines[cp.value]];
        dst := lines[cp.value].mem[off..off + len];
      } else {
        dst := flash[pix][off..off + len];
      }
    }

    /** spiffs_phys_wr within one page: programs the flash. The cache stays coherent exactly under the
        condition KeepsCoherent states. */
    method PhysWr(com: Command, lookup: bool, pix: nat, off: nat, src: seq<Byte>)
      requires Valid() && Coherent(flash, lines) && pix < |flash| && off + |src| <= pageSize
      modifies this`lines, this`lastAccess, this`flash
      ensures Valid() && |old(flash)[pix]| == pageSize
      ensures flash == old(flash)[pix := Programmed(old(flash)[pix], off, src)]
      ensures Coherent(flash, lines) <==> KeepsCoherent(old(flash), old(lines), com, lookup, pix, off, src)
      ensures com == Delete && !lookup ==> !Cached(lines, pix)
      ensures PendingKept(old(lines), lines)
    {
      hide Shaped, Single, Coherent, Programmed, Patch;
      ShapedPage(flash, lines, pageSize, pix);
      ghost var flash0, lines0 := flash, lines;
      var cp := PageGet(pix);
      TimesDoNotMatter(flash, lines0, lines, pageSize, pix);
      ghost var lines1 := lines;
      var programmed := Programmed(flash[pix], off, src);
      flash := flash[pix := programmed];
      if cp.Some? && com != WriteThrough {
        assert Holds(lines0[cp.value], pix);
        if com == Delete && !lookup {
          // the page is not needed in the cache any more
          PageFree(cp.value);
          Wiped(flash0, lines1, pageSize, cp.value, pix, programmed);
          return;
        }
        // the copy in the cache changes along with the flash
        lines := lines[cp.value := lines[cp.value].(mem := Patch(lines[cp.value].mem, off, src))];
        Tick();
        lines := lines[cp.value := lines[cp.value].(lastAccess := lastAccess)];
        WrittenThrough(flash0, lines1, pageSize, cp.value, pix, programmed, lines[cp.value]);
        assert lines == lines1[cp.value := lines[cp.value]];
        HitBytes(flash0, lines1, pix, cp.value);
        PatchDiffers(flash0[pix], off, src);
      } else if cp.Some? {
        assert Holds(lines0[cp.value], pix);
        HitBytes(flash0, lines1, pix, cp.value);
        WrittenThrough(flash0, lines1, pageSize, cp.value, pix, programmed, lines1[cp.value]);
        assert lines1 == lines1[cp.value := lines1[cp.value]];
      } else {
        WrittenPast(flash0, lines1, pageSize, pix, programmed);
      }
    }

    /** spiffs_gc_erase_block: erases the pages of a block, writes the erase count past the cache, and
        then drops all pages of the block from the cache. */
    method EraseBlock(first: nat, count: nat, markPix: nat, markOff: nat, mark: seq<Byte>)
      requires Valid() && Coherent(flash, lines) && first + count <= |flash|
      requires first <= markPix < first + count && markOff + |mark| <= pageSize
      modifies this`lines, this`flash, this`lastAccess
      ensures Valid() && Coherent(flash, lines)
      ensures flash == ErasedFlash(old(flash), pageSize, first, count, markPix, markOff, mark)
      ensures AllOnes(flash, pageSize, first, count, markPix, markOff, mark)
      ensures forall p :: first <= p < first + count ==> !Cached(lines, p)
      ensures PendingKept(old(lines), lines)
    {
      hide Shaped, Single, Cached, ErasedPage, AllOnes;
      ErasedShape(flash, lines, pageSize, first, count, markPix, markOff, mark);
      ErasedBytes(flash, pageSize, first, count, markPix, markOff, mark);
      flash := ErasedFlash(flash, pageSize, first, count, markPix, markOff, mark);
      var i := 0;
      while i < count
        invariant 0 <= i <= count && Valid() && PendingKept(old(lines), lines)
        invariant flash == ErasedFlash(old(flash), pageSize, first, count, markPix, markOff, mark)
        invariant forall p :: first <= p < first + i ==> !Cached(lines, p)
        invariant CoherentBut(flash, lines, first + i, first + count)
      {
        ghost var lines0 := lines;
        DropPage(first + i);
        Dropped(flash, lines0, lines, first, i, first + count);
        i := i + 1;
      }
    }
  }

  lemma HeldOnce(lines: seq<Line>, pix: nat, v: nat)
    requires Single(lines) && v < |lines| && Holds(lines[v], pix)
    ensures forall i :: 0 <= i < |lines| && Holds(lines[i], pix) ==> i == v
  {}

  lemma NotHeld(lines: seq<Line>, pix: nat)
    requires !Cached(lines, pix)
    ensures forall i :: 0 <= i < |lines| ==> !Holds(lines[i], pix)
  {}

  lemma ShapedPage(flash: seq<seq<Byte>>, lines: seq<Line>, pageSize: nat, pix: nat)
    requires Shaped(flash, lines, pageSize) && pix < |flash|
    ensures |flash[pix]| == pageSize && forall i :: 0 <= i < |lines| ==> |lines[i].mem| == pageSize
  {}

  lemma TimesDoNotMatter(flash: seq<seq<Byte>>, lines: seq<Line>, lines': seq<Line>, pageSize: nat, pix: nat)
    requires Shaped(flash, lines, pageSize) && Single(lines) && Coherent(flash, lines) && SameButTime(lines, lines')
    ensures Shaped(flash, lines', pageSize) && Single(lines') && Coherent(flash, lines')
    ensures Cached(lines', pix) == Cached(lines, pix)
  {
    forall i | 0 <= i < |lines|
      ensures Holds(lines'[i], pix) == Holds(lines[i], pix) && lines'[i].used == lines[i].used
      ensures lines'[i].write == lines[i].write
              && lines'[i].pix == lines[i].pix && lines'[i].mem == lines[i].mem
                  && lines'[i].writeThrough == lines[i].writeThrough
    {
      assert lines'[i].(lastAccess := lines[i].lastAccess) == lines[i];
    }
  }

  lemma HitBytes(flash: seq<seq<Byte>>, lines: seq<Line>, pix: nat, i: nat)
    requires Coherent(flash, lines) && i < |lines| && Holds(lines[i], pix)
    ensures pix < |flash| && lines[i].mem == flash[pix]
  {}

  lemma Freed(flash: seq<seq<Byte>>, lines: seq<Line>, pageSize: nat, v: nat, pix: nat)
    requires Shaped(flash, lines, pageSize) && Single(lines) && Coherent(flash, lines) && v < |lines|
    requires !Cached(lines, pix)
    ensures var lines' := lines[v := lines[v].(used := false, write := false, writeThrough := false)];
            Shaped(flash, lines', pageSize) && Single(lines') && Coherent(flash, lines') && !Cached(lines', pix)
  {
    NotHeld(lines, pix);
  }

  lemma Filled(flash: seq<seq<Byte>>, lines: seq<Line>, pageSize: nat, c: nat, pix: nat, l: Line)
    requires Shaped(flash, lines, pageSize) && Single(lines) && Coherent(flash, lines) && c < |lines|
    requires !Cached(lines, pix) && pix < |flash|
    requires l.used && !l.write && l.writeThrough && l.pix == pix && l.mem == flash[pix]
    ensures Shaped(flash, lines[c := l], pageSize) && Single(lines[c := l]) && Coherent(flash, lines[c := l])
  {
    NotHeld(lines, pix);
  }

  lemma Wiped(flash: seq<seq<Byte>>, lines: seq<Line>, pageSize: nat, c: nat, pix: nat, page: seq<Byte>)
    requires Shaped(flash, lines, pageSize) && Single(lines) && Coherent(flash, lines)
    requires c < |lines| && Holds(lines[c], pix) && pix < |flash| && |page| == pageSize
    ensures var flash', lines' := flash[pix := page],
            lines[c := lines[c].(used := false, write := false, writeThrough := false)];
            Shaped(flash', lines', pageSize) && Single(lines') && Coherent(flash', lines') && !Cached(lines', pix)
  {
    HeldOnce(lines, pix, c);
  }

  lemma WrittenThrough(flash: seq<seq<Byte>>, lines: seq<Line>, pageSize: nat, c: nat, pix: nat, page: seq<Byte>,
      l: Line)
    requires Shaped(flash, lines, pageSize) && Single(lines) && Coherent(flash, lines)
    requires c < |lines| && Holds(lines[c], pix) && pix < |flash| && |page| == pageSize
    requires Holds(l, pix) && l.writeThrough && |l.mem| == pageSize
    ensures var flash', lines' := flash[pix := page], lines[c := l];
            Shaped(flash', lines', pageSize) && Single(lines') && (Coherent(flash', lines') <==> l.mem == page)
  {
    HeldOnce(lines, pix, c);
    var flash', lines' := flash[pix := page], lines[c := l];
    if Coherent(flash', lines') {
      assert lines'[c].mem == flash'[lines'[c].pix];
    }
  }

  lemma WrittenPast(flash: seq<seq<Byte>>, lines: seq<Line>, pageSize: nat, pix: nat, page: seq<Byte>)
    requires Shaped(flash, lines, pageSize) && Single(lines) && Coherent(flash, lines) && !Cached(lines, pix)
    requires pix < |flash| && |page| == pageSize
    ensures Shaped(flash[pix := page], lines, pageSize) && Coherent(flash[pix := page], lines)
  {
    NotHeld(lines, pix);
  }

  function Erased(n: nat): seq<Byte> { seq<Byte>(n, _ => BYTE_MAX) }

  /** All cached pages but those lo up to hi have the bytes of the flash. */
  predicate CoherentBut(flash: seq<seq<Byte>>, lines: seq<Line>, lo: nat, hi: nat) {
    forall i :: 0 <= i < |lines| && lines[i].used && !lines[i].write && !(lo <= lines[i].pix < hi) ==>
      lines[i].pix < |flash| && lines[i].mem == flash[lines[i].pix]
  }

  /** A page after the erasure of a block and the write of its erase count. */
  function ErasedPage(flash: seq<seq<Byte>>, pageSize: nat, first: nat, count: nat, markPix: nat, markOff: nat,
      mark: seq<Byte>, p: nat): (r: seq<Byte>)
    requires p < |flash| && markOff + |mark| <= pageSize
    ensures |flash[p]| == pageSize ==> |r| == pageSize
  {
    if p == markPix then Programmed(Erased(pageSize), markOff, mark)
    else if first <= p < first + count then Erased(pageSize)
    else flash[p]
  }

  function ErasedFlash(flash: seq<seq<Byte>>, pageSize: nat, first: nat, count: nat, markPix: nat, markOff: nat,
      mark: seq<Byte>): (r: seq<seq<Byte>>)
    requires markOff + |mark| <= pageSize
    ensures |r| == |flash|
    ensures forall p :: 0 <= p < |r| ==> r[p] == ErasedPage(flash, pageSize, first, count, markPix, markOff, mark, p)
  {
    seq<seq<Byte>>(|flash|, p requires 0 <= p < |flash| =>
      ErasedPage(flash, pageSize, first, count, markPix, markOff, mark, p))
  }

  /** The bytes of the pages of a block are all ones, but for the mark. */
  predicate AllOnes(flash: seq<seq<Byte>>, pageSize: nat, first: nat, count: nat, markPix: nat, markOff: nat,
      mark: seq<Byte>)
    requires first + count <= |flash|
  {
    forall p, i :: first <= p < first + count && 0 <= i < pageSize ==>
      |flash[p]| == pageSize
      && flash[p][i] == if p == markPix && 0 <= i - markOff < |mark| then mark[i - markOff] else 0xff
  }

  lemma ErasedBytes(flash: seq<seq<Byte>>, pageSize: nat, first: nat, count: nat, markPix: nat, markOff: nat,
      mark: seq<Byte>)
    requires first + count <= |flash| && markOff + |mark| <= pageSize
    ensures var flash' := ErasedFlash(flash, pageSize, first, count, markPix, markOff, mark);
            AllOnes(flash', pageSize, first, count, markPix, markOff, mark)
  {
    hide ErasedFlash, Programmed;
    var flash' := ErasedFlash(flash, pageSize, first, count, markPix, markOff, mark);
    forall p | first <= p < first + count
      ensures |flash'[p]| == pageSize && forall i :: 0 <= i < pageSize ==>
                flash'[p][i] == if p == markPix && 0 <= i - markOff < |mark| then mark[i - markOff] else 0xff
    {
      MarkBytes(pageSize, markOff, mark);
    }
  }

  lemma MarkBytes(pageSize: nat, markOff: nat, mark: seq<Byte>)
    requires markOff + |mark| <= pageSize
    ensures var page := Programmed(Erased(pageSize), markOff, mark);
            forall i :: 0 <= i < pageSize ==>
              page[i] == if 0 <= i - markOff < |mark| then mark[i - markOff] else 0xff
  {
    AndBytesErased(Erased(pageSize)[markOff..markOff + |mark|], mark);
  }

  lemma ErasedShape(flash: seq<seq<Byte>>, lines: seq<Line>, pageSize: nat, first: nat, count: nat, markPix: nat,
      markOff: nat, mark: seq<Byte>)
    requires Shaped(flash, lines, pageSize) && Coherent(flash, lines)
    requires first + count <= |flash| && first <= markPix < first + count && markOff + |mark| <= pageSize
    ensures var flash' := ErasedFlash(flash, pageSize, first, count, markPix, markOff, mark);
            Shaped(flash', lines, pageSize) && CoherentBut(flash', lines, first, first + count)
  {}

  lemma Dropped(flash: seq<seq<Byte>>, lines: seq<Line>, lines': seq<Line>, first: nat, i: nat, hi: nat)
    requires CoherentBut(flash, lines, first + i, hi) && !Cached(lines', first + i) && |lines'| == |lines|
    requires forall p :: first <= p < first + i ==> !Cached(lines, p)
    requires forall j :: 0 <= j < |lines'| && lines'[j].used ==>
            lines[j].used && lines'[j].(lastAccess := 0) == lines[j].(lastAccess := 0)
    ensures CoherentBut(flash, lines', first + i + 1, hi)
    ensures forall p :: first <= p < first + i + 1 ==> !Cached(lines', p)
  {
    forall j | 0 <= j < |lines'| && lines'[j].used
      ensures lines'[j].pix == lines[j].pix && lines'[j].mem == lines[j].mem && lines[j].write == lines'[j].write
    {
      assert lines'[j].(lastAccess := 0).mem == lines[j].(lastAccess := 0).mem;
    }
    NotHeld(lines', first + i);
    forall p | first <= p < first + i
      ensures !Cached(lines', p)
    {
      NotHeld(lines, p);
    }
    forall j | 0 <= j < |lines'| && lines'[j].used && !lines'[j].write
      ensures lines'[j].pix != first + i
    {
      assert !Holds(lines'[j], first + i);
    }
  }

  lemma PatchDiffers(page: seq<Byte>, off: nat, src: seq<Byte>)
    requires off + |src| <= |page|
    ensures Patch(page, off, src) == Programmed(page, off, src) <==> AndBytes(page[off..off + |src|], src) == src
  {
    var w := AndBytes(page[off..off + |src|], src);
    assert Patch(page, off, src)[off..off + |src|] == src;
    assert Patch(page, off, w)[off..off + |src|] == w;
  }

  // ---------- runs ----------

  datatype Op =
    | Rd(lookup2: bool, pix: nat, off: nat, len: nat)
    | Wr(com: Command, lookup: bool, pix: nat, off: nat, src: seq<Byte>)
    | Drop(pix: nat)
    | Erase(first: nat, count: nat, markPix: nat, markOff: nat, mark: seq<Byte>)

  /** Within the flash; and a write changes nothing past the cache, deletes a page, or only clears bits. */
  predicate Allowed(flash: seq<seq<Byte>>, pageSize: nat, op: Op) {
    match op
    case Rd(_, pix, off, len) => pix < |flash| && off + len <= pageSize
    case Wr(com, lookup, pix, off, src) =>
      && pix < |flash| && off + |src| <= pageSize == |flash[pix]|
      && (if com == WriteThrough then Programmed(flash[pix], off, src) == flash[pix]
          else (com == Delete && !lookup) || AndBytes(flash[pix][off..off + |src|], src) == src)
    case Drop(_) => true
    case Erase(first, count, markPix, markOff, mark) =>
      first + count <= |flash| && first <= markPix < first + count && markOff + |mark| <= pageSize
  }

  /** What an operation does to a flash without a cache. */
  function FlashStep(flash: seq<seq<Byte>>, pageSize: nat, op: Op): (r: seq<seq<Byte>>)
    requires Allowed(flash, pageSize, op)
    ensures |r| == |flash|
  {
    match op
    case Rd(_, _, _, _) => flash
    case Wr(_, _, pix, off, src) => flash[pix := Programmed(flash[pix], off, src)]
    case Drop(_) => flash
    case Erase(first, count, markPix, markOff, mark) =>
      ErasedFlash(flash, pageSize, first, count, markPix, markOff, mark)
  }

  predicate RunAllowed(flash: seq<seq<Byte>>, pageSize: nat, ops: seq<Op>)
    decreases |ops|
  {
    ops == [] || (Allowed(flash, pageSize, ops[0])
                  && RunAllowed(FlashStep(flash, pageSize, ops[0]), pageSize, ops[1..]))
  }

  function FlashRun(flash: seq<seq<Byte>>, pageSize: nat, ops: seq<Op>): seq<seq<Byte>>
    requires RunAllowed(flash, pageSize, ops)
    decreases |ops|
  {
    if ops == [] then flash else FlashRun(FlashStep(flash, pageSize, ops[0]), pageSize, ops[1..])
  }

  /** What the reads of a run give without a cache. */
  function FlashReads(flash: seq<seq<Byte>>, pageSize: nat, ops: seq<Op>): seq<seq<Byte>>
    requires RunAllowed(flash, pageSize, ops) && forall p :: 0 <= p < |flash| ==> |flash[p]| == pageSize
    decreases |ops|
  {
    if ops == [] then []
    else
      (if ops[0].Rd? then [flash[ops[0].pix][ops[0].off..ops[0].off + ops[0].len]] else [])
      + FlashReads(FlashStep(flash, pageSize, ops[0]), pageSize, ops[1..])
  }

  method Do(cache: Cache, op: Op) returns (out: seq<Byte>)
    requires cache.Valid() && Coherent(cache.flash, cache.lines) && Allowed(cache.flash, cache.pageSize, op)
    modifies cache
    ensures cache.Valid() && Coherent(cache.flash, cache.lines) && PendingKept(old(cache.lines), cache.lines)
    ensures cache.flash == FlashStep(old(cache.flash), cache.pageSize, op)
    ensures op.Rd? ==> old(PageHas(cache, op.pix)) && out == old(cache.flash)[op.pix][op.off..op.off + op.len]
  {
    hide Shaped, Single, PendingKept, Cached;
    out := [];
    match op {
      case Rd(lookup2, pix, off, len) =>
        ShapedPage(cache.flash, cache.lines, cache.pageSize, pix);
        out := cache.PhysRd(lookup2, pix, off, len);
      case Wr(com, lookup, pix, off, src) => cache.PhysWr(com, lookup, pix, off, src);
      case Drop(pix) =>
        ghost var lines := cache.lines;
        cache.DropPage(pix);
        DroppedCoherent(cache.flash, lines, cache.lines);
      case Erase(first, count, markPix, markOff, mark) => cache.EraseBlock(first, count, markPix, markOff, mark);
    }
  }

  predicate PageHas(cache: Cache, pix: nat)
    reads cache
  {
    pix < |cache.flash| && |cache.flash[pix]| == cache.pageSize
  }

  lemma DroppedCoherent(flash: seq<seq<Byte>>, lines: seq<Line>, lines': seq<Line>)
    requires Coherent(flash, lines) && |lines'| == |lines|
    requires forall i :: 0 <= i < |lines'| && lines'[i].used ==>
              lines[i].used && lines'[i].(lastAccess := 0) == lines[i].(lastAccess := 0)
    ensures Coherent(flash, lines')
  {
    forall i | 0 <= i < |lines'| && lines'[i].used
      ensures lines'[i].pix == lines[i].pix && lines'[i].mem == lines[i].mem && lines[i].write == lines'[i].write
    {
      assert lines'[i].(lastAccess := 0).mem == lines[i].(lastAccess := 0).mem;
    }
  }

  lemma PendingKeptTrans(l: seq<Line>, l': seq<Line>, l'': seq<Line>)
    requires PendingKept(l, l') && PendingKept(l', l'')
    ensures PendingKept(l, l'')
  {}

  /** Over any run of reads, writes, drops and erasures, the reads give what a flash without a cache would give, the
      flash ends up as it would, and no pending write is lost. */
  method Run(cache: Cache, ops: seq<Op>) returns (outs: seq<seq<Byte>>)
    requires cache.Valid() && Coherent(cache.flash, cache.lines) && RunAllowed(cache.flash, cache.pageSize, ops)
    modifies cache
    ensures cache.Valid() && Coherent(cache.flash, cache.lines) && PendingKept(old(cache.lines), cache.lines)
    ensures cache.flash == FlashRun(old(cache.flash), cache.pageSize, ops)
    ensures outs == FlashReads(old(cache.flash), cache.pageSize, ops)
  {
    hide Single, Coherent, PendingKept, Allowed, FlashStep;
    outs := [];
    var i := 0;
    assert ops[0..] == ops;
    PendingKeptRefl(cache.lines);
    while i < |ops|
      invariant 0 <= i <= |ops| && cache.Valid() && Coherent(cache.flash, cache.lines)
      invariant RunAllowed(cache.flash, cache.pageSize, ops[i..]) && PendingKept(old(cache.lines), cache.lines)
      invariant FlashRun(cache.flash, cache.pageSize, ops[i..]) == FlashRun(old(cache.flash), cache.pageSize, ops)
      invariant outs + FlashReads(cache.flash, cache.pageSize, ops[i..]) ==
              FlashReads(old(cache.flash), cache.pageSize, ops)
    {
      assert ops[i..][0] == ops[i] && ops[i..][1..] == ops[i + 1..];
      ghost var lines := cache.lines;
      var out := Do(cache, ops[i]);
      PendingKeptTrans(old(cache.lines), lines, cache.lines);
      if ops[i].Rd? {
        outs := outs + [out];
      }
      i := i + 1;
    }
    assert ops[i..] == [];
  }

  lemma PendingKeptRefl(lines: seq<Line>)
    ensures PendingKept(lines, lines)
  {}
}
