/** Garbage collection of a block (spiffs_gc.c). */
module Gc {
  import opened Wrappers
  import opened Nor
  import opened Layout
  import opened Lookup
  import opened Volumes
  import opened Flash
  import opened Nucleus
  import opened Room

  /** The volume with index page x as the work buffer has it. */
  ghost function Pending(v: Volume, x: nat, o: nat, work: Page): Volume {
    v[x := Cell(o + IX_FLAG, work)]
  }

  /** The index page on the flash is the one in the buffer, but for entries that name other pages. */
  ghost predicate Behind(g: Geometry, dap: seq<nat>, k: nat, p: Page, work: Page)
    requires g.Wf()
  {
    && p.(ix := work.ix) == work && |p.ix| == |work.ix|
    && forall e :: 0 <= e < |work.ix| && p.ix[e] != work.ix[e] ==>
         p.ix[e] != FREE && e < g.Cap(k) && g.FirstSpan(k) + e < |dap|
  }

  lemma BehindStep(g: Geometry, dap: seq<nat>, k: nat, p: Page, work: Page, s: nat, q: Half)
    requires g.Wf() && Behind(g, dap, k, p, work) && s < |dap| && k == g.IxSpan(s) && g.IxEntry(s) < |work.ix|
    requires work.ix[g.IxEntry(s)] == dap[s] < FREE
    ensures Behind(g, dap[s := q], k, p, work.(ix := work.ix[g.IxEntry(s) := q]))
  {
    SpanRoundTrip(g, s);
  }

  /** The files are those of an earlier state, but index page k of file o may not be on the flash as it should be. */
  ghost predicate HalfwayAt(g: Geometry, v: Volume, v0: Volume, files0: Files, files: Files, o: nat, k: nat, x: nat,
      work: Page)
    requires g.Wf()
  {
    && o in files && k < |files[o].ixp| && files[o].ixp[k] == x && x in v && v[x].id == o + IX_FLAG
    && Behind(g, files[o].dap, k, v[x].page, work)
    && Consistent(g, Pending(v, x, o, work), files) && SameContents(v0, files0, Pending(v, x, o, work), files)
  }

  /** What is on the flash when a cleaning has failed: pages have been moved, and one index page may name old places. */
  ghost predicate Halfway(g: Geometry, v: Volume, v0: Volume, files0: Files)
    requires g.Wf()
  {
    || (exists files :: Consistent(g, v, files) && SameContents(v0, files0, v, files))
    || (exists files, o, k, x, work :: HalfwayAt(g, v, v0, files0, files, o, k, x, work))
  }

  lemma HalfwayFrom(g: Geometry, v: Volume, v1: Volume, files1: Files, v0: Volume, files0: Files)
    requires g.Wf() && SameContents(v0, files0, v1, files1) && Halfway(g, v, v1, files1)
    ensures Halfway(g, v, v0, files0)
  {
    hide Consistent, SameContents, Behind;
    if files :| Consistent(g, v, files) && SameContents(v1, files1, v, files) {
      SameContentsTrans(v0, files0, v1, files1, v, files);
    } else {
      var files, o, k, x, work :| HalfwayAt(g, v, v1, files1, files, o, k, x, work);
      SameContentsTrans(v0, files0, v1, files1, Pending(v, x, o, work), files);
      assert HalfwayAt(g, v, v0, files0, files, o, k, x, work);
    }
  }

  lemma HalfwayNow(g: Geometry, v: Volume, files: Files, v0: Volume, files0: Files)
    requires g.Wf() && Consistent(g, v, files) && SameContents(v0, files0, v, files)
    ensures Halfway(g, v, v0, files0)
  {}

  /** The first e entries of block b hold what they did, but for pages that left. */
  ghost predicate Shrunk(g: Geometry, v: Volume, v': Volume, b: nat, e: nat)
    requires g.Wf()
  {
    forall e' :: 0 <= e' < e && g.Pix(b, e') in v' ==> g.Pix(b, e') in v && v'[g.Pix(b, e')] == v[g.Pix(b, e')]
  }

  /** Up to any entry that was not free, block b only lost pages. */
  ghost predicate Draining(g: Geometry, lu: seq<nat>, v: Volume, v': Volume, b: nat)
    requires LuShape(g, lu) && b < g.blocks
  {
    forall e {:trigger Entry(g, lu, b, e)} | 0 <= e < g.Entries() :: Entry(g, lu, b, e) != FREE ==>
      Shrunk(g, v, v', b, e + 1)
  }

  ghost predicate StillTaken(lu: seq<nat>, lu': seq<nat>) {
    |lu| == |lu'| && forall p :: 0 <= p < |lu| && lu[p] != FREE ==> lu'[p] != FREE
  }

  lemma DrainingTrans(g: Geometry, lu: seq<nat>, v: Volume, lu': seq<nat>, v': Volume, lu'': seq<nat>, v'': Volume,
      b: nat)
    requires LuShape(g, lu) && LuShape(g, lu') && b < g.blocks && Draining(g, lu, v, v', b) && StillTaken(lu, lu')
    requires Draining(g, lu', v', v'', b) && StillTaken(lu', lu'')
    ensures Draining(g, lu, v, v'', b) && StillTaken(lu, lu'')
  {
    forall e | 0 <= e < g.Entries() && Entry(g, lu, b, e) != FREE
      ensures Shrunk(g, v, v'', b, e + 1)
    {
      PixRoundTrip(g, b, e);
      assert Entry(g, lu', b, e) != FREE;
    }
  }

  lemma DrainingRefl(g: Geometry, lu: seq<nat>, v: Volume, b: nat)
    requires LuShape(g, lu) && b < g.blocks
    ensures Draining(g, lu, v, v, b) && StillTaken(lu, lu)
  {}

  /** Moving a page to a free one drains the block, even if that page is in the same block: it is further back. */
  lemma MoveDrains(g: Geometry, lu: seq<nat>, v: Volume, src: nat, dst: nat, c: Cell, b: nat)
    requires LuShape(g, lu) && FreeSuffix(g, lu) && b < g.blocks && dst < |lu| && lu[dst] == FREE
    ensures Draining(g, lu, v, (v - {src})[dst := c], b)
  {
    var v' := (v - {src})[dst := c];
    forall e | 0 <= e < g.Entries() && Entry(g, lu, b, e) != FREE
      ensures Shrunk(g, v, v', b, e + 1)
    {
      forall e' | 0 <= e' < e + 1
        ensures g.Pix(b, e') != dst
      {
        PixRoundTrip(g, b, e');
        if g.BlockOf(dst) == b {
          TakenLater(g, lu, b, e, dst);
        }
      }
    }
  }

  /** The free pages outside block b, less those it takes to empty it. */
  ghost function Slack(fs: Spiffs, b: nat, buffered: set<(nat, nat)>): int
    reads fs`lu, fs`pages
    requires LuShape(fs.g, fs.lu)
  {
    |FreeOutside(fs.g, fs.lu, b)| - Needed(fs.g, fs.Disk(), b, buffered)
  }

  /** Moves a page while block b is being cleaned. It fails only if no page is free outside the block. */
  method MovePage(fs: Spiffs, b: nat, pageData: Option<Page>, objId: Half, src: nat)
    returns (res: Code, dst: nat, buf: Option<Page>)
    requires fs.FlashOk() && fs.cleaning && b < fs.g.blocks && src in fs.Disk() && Live(objId) && objId < FREE
    requires pageData.Some? ==> PageShape(fs.g, pageData.value)
    modifies fs`lu, fs`pages, fs`eraseCounts, fs`freeBlocks, fs`maxEraseCount, fs`drift, fs`statsDeleted
    modifies fs`statsAllocated
    modifies fs`freeCursorBlock, fs`freeCursorEntry
    ensures fs.FlashOk() && LuShape(fs.g, fs.lu) && fs.drift == old(fs.drift) && (res == Ok || res == ErrNotFound)
    ensures res == Ok ==> dst !in old(fs.Disk()) && dst < fs.g.Pages()
    ensures res == Ok ==> buf == if pageData.None? then None
            else Some(pageData.value.(flags := pageData.value.flags.(used := false)))
    ensures res == Ok ==>
              fs.Disk() ==
              (old(fs.Disk()) - {src})[dst := Cell(objId, if buf.Some? then buf.value else old(fs.Disk())[src].page)]
    ensures old(LuShape(fs.g, fs.lu))
    ensures res == Ok ==> Taken(fs.g, old(fs.lu), old(fs.Disk()), fs.lu, fs.Disk(), b, dst)
    ensures res == Ok ==> CursorMark(fs.g, fs.Disk(), fs.freeCursorBlock, fs.freeCursorEntry, b)
    ensures res != Ok ==> old(FreeOutside(fs.g, fs.lu, b)) == {} && fs.Disk() == old(fs.Disk())
  {
    hide FreeSuffix, FreeBlank, CursorOk, DeletedPages, FreeBlocks, FirstFree, VolumeOf, Placed, NoneFree, FreeOutside,
         CursorMark, Taken;
    ghost var lu, v, cb, ce := fs.lu, fs.Disk(), fs.freeCursorBlock, fs.freeCursorEntry;
    fs.SourcePage(src);
    ghost var log;
    res, dst, buf, log := fs.PageMove(pageData, objId, src);
    if res == Ok {
      TakenBy(fs.g, lu, v, cb, ce, fs.freeCursorBlock, fs.freeCursorEntry, src, dst, fs.Disk()[dst], b);
      MarkPlaced(fs.g, lu, cb, ce, fs.freeCursorBlock, fs.freeCursorEntry, dst, fs.Disk(), b);
    } else {
      NoneOutside(fs.g, lu, b);
    }
  }

  /** A free page dst has been taken; what that means for block b. */
  ghost predicate Taken(g: Geometry, lu: seq<nat>, v: Volume, lu': seq<nat>, v': Volume, b: nat, dst: nat)
    requires LuShape(g, lu) && LuShape(g, lu') && b < g.blocks
  {
    && Draining(g, lu, v, v', b) && StillTaken(lu, lu')
    && |FreeOutside(g, lu', b)| == |FreeOutside(g, lu, b)| - if g.BlockOf(dst) != b then 1 else 0
  }

  lemma TakenBy(g: Geometry, lu: seq<nat>, v: Volume, cb: nat, ce: nat, cb': nat, ce': nat, src: nat, dst: nat,
      c: Cell, b: nat)
    requires LuShape(g, lu) && FreeSuffix(g, lu) && b < g.blocks && Placed(g, lu, cb, ce, cb', ce', dst)
    requires src < |lu| && Live(lu[src]) && c.id < FREE
    ensures dst < |lu| && LuShape(g, lu[dst := c.id][src := DELETED])
    ensures Taken(g, lu, v, lu[dst := c.id][src := DELETED], (v - {src})[dst := c], b, dst)
  {
    hide FreeSuffix, Draining, FreeOutside;
    PixRoundTrip(g, cb', ce' - 1);
    FreeTaken(g, lu, src, dst, c.id, b);
    MoveDrains(g, lu, v, src, dst, c, b);
  }

  /** What the work buffer and the flash must agree on while the data pages that index page k of
      object o refers to are being moved out of a block. */
  ghost predicate Evacuating(fs: Spiffs, o: nat, k: nat, x: nat)
    reads fs
  {
    && fs.FlashOk() && fs.cleaning
    && o in fs.files && k < |fs.files[o].ixp| && fs.files[o].ixp[k] == x
    && x in fs.Disk() && fs.Disk()[x].id == o + IX_FLAG && fs.Disk()[x].page.span == k && o + IX_FLAG < FREE
    && Consistent(fs.g, Pending(fs.Disk(), x, o, fs.work), fs.files)
    && Behind(fs.g, fs.files[o].dap, k, fs.Disk()[x].page, fs.work)
    && FdsOk(fs.fds, fs.files)
  }

  /** If the index page in the buffer is not going to be stored. */
  lemma EvacuatingHalfway(fs: Spiffs, o: nat, k: nat, x: nat, v0: Volume, files0: Files)
    requires Evacuating(fs, o, k, x) && SameContents(v0, files0, Pending(fs.Disk(), x, o, fs.work), fs.files)
    ensures fs.FlashOk() && fs.g.Wf() && Halfway(fs.g, fs.Disk(), v0, files0)
  {
    hide Consistent, SameContents, Behind, FdsOk;
    assert HalfwayAt(fs.g, fs.Disk(), v0, files0, fs.files, o, k, x, fs.work);
  }

  /** The files of an earlier state, with some of their pages moved. */
  ghost predicate Evacuated(v: Volume, files: Files, x: nat, o: nat, work: Page, v': Volume, files': Files,
      work': Page) {
    && SameContents(Pending(v, x, o, work), files, Pending(v', x, o, work'), files')
    && o in files && o in files' && files' == files[o := files[o].(dap := files'[o].dap)]
  }

  lemma DataEntry(g: Geometry, v: Volume, fs: Files, o: nat, p: nat)
    requires g.Wf() && Consistent(g, v, fs) && p in v && v[p].id == o && 1 <= o < IX_FLAG
    ensures o in fs && FileLinked(g, v, o, fs[o])
    ensures var s := v[p].page.span; s < |fs[o].dap| && fs[o].dap[s] == p && DataCell(g, v[p], o, s)
  {
    assert HasFile(g, v, fs, p);
    assert FileLinked(g, v, o, fs[o]);
  }

  /** Moving the page on the flash and updating the buffer is what MoveDataKeeps calls moving. */
  lemma DataMoved(g: Geometry, v: Volume, x: nat, o: nat, work: Page, f: File, s: nat, dst: nat)
    requires g.Wf() && FileLinked(g, Pending(v, x, o, work), o, f) && s < |f.dap|
    requires g.IxSpan(s) < |f.ixp| && f.ixp[g.IxSpan(s)] == x && x in v
    requires dst !in v && dst <= FREE
    ensures f.dap[s] in v && f.dap[s] != x && g.IxEntry(s) < |work.ix|
    ensures var p := f.dap[s];
            Pending((v - {p})[dst := v[p]], x, o, work.(ix := work.ix[g.IxEntry(s) := dst]))
            == DataReplaced(g, Pending(v, x, o, work), o, f, s, dst, Pending(v, x, o, work)[p])
  {
    var V := Pending(v, x, o, work);
    SpanRoundTrip(g, s);
    assert IndexCell(g, V[x], o, f.dap, g.IxSpan(s));
    assert DataCell(g, V[f.dap[s]], o, s);
  }

  lemma FdsSame(fds: seq<Fd>, fs: Files, o: nat, dap: seq<nat>)
    requires o in fs && FdsOk(fds, fs)
    ensures FdsOk(fds, fs[o := fs[o].(dap := dap)])
  {
    var fs' := fs[o := fs[o].(dap := dap)];
    forall i | 0 <= i < |fds|
      ensures FdLinked(fds[i], fs') && (Base(fds[i].objId) != 0 ==> FdSized(fds[i], fs'))
    {
      assert FdLinked(fds[i], fs);
    }
  }

  /** One data page p moved to dst, with the entry in the buffer updated. */
  lemma EvacuationStep(g: Geometry, v: Volume, fs: Files, fds: seq<Fd>, x: nat, o: nat, k: nat, work: Page, p: nat,
      dst: nat)
    requires g.Wf() && Consistent(g, Pending(v, x, o, work), fs) && FdsOk(fds, fs)
    requires o in fs && k < |fs[o].ixp| && fs[o].ixp[k] == x && x in v && v[x].id == o + IX_FLAG
    requires Behind(g, fs[o].dap, k, v[x].page, work)
    requires p in v && v[p].id == o && 1 <= o < IX_FLAG - 1 && g.IxSpan(v[p].page.span) == k
    requires dst !in v && dst < g.Pages()
    ensures var s := v[p].page.span;
            && s < |fs[o].dap| && g.IxEntry(s) < |work.ix|
            && var v', fs', work' := (v - {p})[dst := v[p]], fs[o := fs[o].(dap := fs[o].dap[s := dst])],
                work.(ix := work.ix[g.IxEntry(s) := dst]);
            && Consistent(g, Pending(v', x, o, work'), fs') && FdsOk(fds, fs')
            && Evacuated(v, fs, x, o, work, v', fs', work')
            && x in v' && v'[x] == v[x] && Behind(g, fs'[o].dap, k, v'[x].page, work')
  {
    hide Consistent, SameContents, DataReplaced, FileLinked, FdsOk, Behind;
    var V, s := Pending(v, x, o, work), v[p].page.span;
    DataEntry(g, V, fs, o, p);
    IxSpanBound(g, s, |fs[o].ixp|);
    DataMoved(g, v, x, o, work, fs[o], s, dst);
    MoveDataKeeps(g, V, fs, o, s, dst);
    FdsSame(fds, fs, o, fs[o].dap[s := dst]);
    NamedHere(g, v, fs, x, o, k, work, s);
    BehindStep(g, fs[o].dap, k, v[x].page, work, s, dst);
  }

  /** The entry in the buffer names the data page. */
  lemma NamedHere(g: Geometry, v: Volume, fs: Files, x: nat, o: nat, k: nat, work: Page, s: nat)
    requires g.Wf() && Consistent(g, Pending(v, x, o, work), fs) && o in fs && k < |fs[o].ixp| && fs[o].ixp[k] == x
    requires s < |fs[o].dap| && g.IxSpan(s) == k
    ensures g.IxEntry(s) < |work.ix| && work.ix[g.IxEntry(s)] == fs[o].dap[s] < FREE
  {
    hide FileLinked, IndexCell;
    var V := Pending(v, x, o, work);
    ConsistentFile(g, V, fs, o);
    IndexOf(g, V, o, fs[o], k);
    DataOf(g, V, o, fs[o], s);
    assert HasFile(g, V, fs, fs[o].dap[s]);
    EntryNames(g, V[x], o, fs[o].dap, s);
  }

  lemma DataOf(g: Geometry, v: Volume, o: nat, f: File, s: nat)
    requires g.Wf() && FileLinked(g, v, o, f) && s < |f.dap|
    ensures f.dap[s] in v && DataCell(g, v[f.dap[s]], o, s)
  {}

  lemma EntryNames(g: Geometry, c: Cell, o: nat, dap: seq<nat>, s: nat)
    requires g.Wf() && IndexCell(g, c, o, dap, g.IxSpan(s)) && s < |dap|
    ensures g.IxEntry(s) < |c.page.ix| && c.page.ix[g.IxEntry(s)] == dap[s]
  {
    SpanRoundTrip(g, s);
  }

  /** Moves one data page, and updates its entry of the index page in the work buffer. */
  method EvacuatePage(fs: Spiffs, b: nat, o: Half, k: nat, x: nat, p: nat) returns (res: Code)
    requires fs.g.Wf() && p in fs.Disk() && fs.Disk()[p].id == o && 1 <= o < IX_FLAG - 1
    requires fs.g.IxSpan(fs.Disk()[p].page.span) == k && fs.g.BlockOf(p) == b
    requires b < fs.g.blocks && Evacuating(fs, o, k, x)
    modifies fs`lu, fs`pages, fs`eraseCounts, fs`freeBlocks, fs`maxEraseCount, fs`drift, fs`statsDeleted
    modifies fs`statsAllocated
    modifies fs`freeCursorBlock, fs`freeCursorEntry, fs`work, fs`files
    ensures fs.drift == old(fs.drift) && (res == Ok || res == ErrNotFound)
    ensures res == Ok ==> p !in fs.Disk()
    ensures res != Ok ==> fs.Disk() == old(fs.Disk()) && fs.files == old(fs.files) && fs.work == old(fs.work)
    ensures Evacuating(fs, o, k, x)
    ensures res == Ok ==> Evacuated(old(fs.Disk()), old(fs.files), x, o, old(fs.work), fs.Disk(), fs.files, fs.work)
    ensures old(LuShape(fs.g, fs.lu)) && LuShape(fs.g, fs.lu)
    ensures res == Ok ==> Draining(fs.g, old(fs.lu), old(fs.Disk()), fs.Disk(), b) && StillTaken(old(fs.lu), fs.lu)
    ensures res == Ok ==> CursorMark(fs.g, fs.Disk(), fs.freeCursorBlock, fs.freeCursorEntry, b)
    ensures if res == Ok then Slack(fs, b, {(o, k)}) == old(Slack(fs, b, {(o, k)})) else old(Slack(fs, b, {(o, k)})) < 0
  {
    hide Spiffs.FlashOk, LuShape, VolumeOf, Consistent, FreeOutside, CursorMark, Evacuated, FdsOk, Needed, Pending,
         Draining, StillTaken, Behind;
    ghost var v0, files0 := fs.Disk(), fs.files;
    PageAt(fs, p);
    var s := fs.pages[p].span;
    NeedsSome(fs.g, v0, b, {(o, k)});
    var dst, buf;
    res, dst, buf := MovePage(fs, b, None, o, p);
    if res == Ok {
      DataMoves(fs.g, v0, p, dst, b, {(o, k)});
      EvacuationStep(fs.g, v0, files0, fs.fds, x, o, k, fs.work, p, dst);
      NoteEntry(fs, fs.g.IxEntry(s), dst, files0[o := files0[o].(dap := files0[o].dap[s := dst])]);
    }
  }

  lemma PageAt(fs: Spiffs, p: nat)
    requires fs.FlashOk() && p in fs.Disk()
    ensures fs.g.Wf() && p < |fs.pages| && fs.pages[p] == fs.Disk()[p].page
  {}

  /** The entry in the buffer now names the new page. */
  method NoteEntry(fs: Spiffs, e: nat, q: Half, ghost files: Files)
    requires fs.FlashOk() && e < |fs.work.ix|
    modifies fs`work, fs`files
    ensures fs.FlashOk() && fs.work == old(fs.work).(ix := old(fs.work).ix[e := q]) && fs.files == files
  {
    hide Spiffs.FlashOk;
    fs.SetWorkEntry(e, q);
    fs.files := files;
  }

  lemma EvacuatedTrans(v: Volume, fs: Files, x: nat, o: nat, work: Page, v': Volume, fs': Files, work': Page,
      v'': Volume, fs'': Files, work'': Page)
    requires Evacuated(v, fs, x, o, work, v', fs', work') && Evacuated(v', fs', x, o, work', v'', fs'', work'')
    ensures Evacuated(v, fs, x, o, work, v'', fs'', work'')
  {
    SameContentsTrans(Pending(v, x, o, work), fs, Pending(v', x, o, work'), fs', Pending(v'', x, o, work''), fs'');
  }

  /** Among the first e entries of block b there is no data page that index page k of object o
      refers to. */
  ghost predicate NonePending(g: Geometry, v: Volume, b: nat, e: nat, o: nat, k: nat)
    requires g.Wf()
  {
    forall e' :: 0 <= e' < e && g.Pix(b, e') in v && v[g.Pix(b, e')].id == o ==>
            g.IxSpan(v[g.Pix(b, e')].page.span) != k
  }

  lemma NonePendingKept(g: Geometry, v: Volume, v': Volume, b: nat, e: nat, o: nat, k: nat)
    requires g.Wf() && Shrunk(g, v, v', b, e + 1) && NonePending(g, v, b, e, o, k) && g.Pix(b, e) !in v'
    ensures NonePending(g, v', b, e + 1, o, k)
  {}

  /** The scan of state MOVE_OBJ_DATA: moves every data page in the block that index page k of object o refers to. A
      page that has to be put into the block itself is found again further back. */
  method EvacuateDataPages(fs: Spiffs, b: nat, o: Half, k: nat, x: nat) returns (res: Code)
    requires Evacuating(fs, o, k, x) && b < fs.g.blocks && 1 <= o < IX_FLAG - 1
    requires CursorMark(fs.g, fs.Disk(), fs.freeCursorBlock, fs.freeCursorEntry, b)
    modifies fs`lu, fs`pages, fs`eraseCounts, fs`freeBlocks, fs`maxEraseCount, fs`drift, fs`statsDeleted
    modifies fs`statsAllocated
    modifies fs`freeCursorBlock, fs`freeCursorEntry, fs`work, fs`files
    ensures fs.drift == old(fs.drift) && (res == Ok || res == ErrNotFound)
    ensures Evacuating(fs, o, k, x)
    ensures Evacuated(old(fs.Disk()), old(fs.files), x, o, old(fs.work), fs.Disk(), fs.files, fs.work)
    ensures old(LuShape(fs.g, fs.lu)) && LuShape(fs.g, fs.lu)
    ensures res == Ok ==> Draining(fs.g, old(fs.lu), old(fs.Disk()), fs.Disk(), b) && StillTaken(old(fs.lu), fs.lu)
    ensures res == Ok ==> NonePending(fs.g, fs.Disk(), b, fs.g.Entries(), o, k)
    ensures res == Ok ==> CursorMark(fs.g, fs.Disk(), fs.freeCursorBlock, fs.freeCursorEntry, b)
    ensures if res == Ok then Slack(fs, b, {(o, k)}) == old(Slack(fs, b, {(o, k)})) else old(Slack(fs, b, {(o, k)})) < 0
  {
    hide FreeSuffix, FreeBlank, CursorOk, DeletedPages, FreeBlocks, VolumeOf, Consistent, Evacuated, FdsOk, Slack,
         Pending, Draining, StillTaken, CursorMark, Shrunk, NonePending, Behind;
    ghost var lu0, v0, files0, work0, slack := fs.lu, fs.Disk(), fs.files, fs.work, Slack(fs, b, {(o, k)});
    res := Ok;
    var curEntry := 0;
    EvacuatedRefl(v0, files0, x, o, work0);
    DrainingRefl(fs.g, lu0, v0, b);
    NonePendingYet(fs.g, v0, b, o, k);
    while curEntry < fs.g.Entries()
      invariant 0 <= curEntry <= fs.g.Entries() && res == Ok && fs.drift == old(fs.drift)
      invariant Evacuating(fs, o, k, x)
      invariant Evacuated(v0, files0, x, o, work0, fs.Disk(), fs.files, fs.work)
      invariant LuShape(fs.g, fs.lu) && Draining(fs.g, lu0, v0, fs.Disk(), b) && StillTaken(lu0, fs.lu)
      invariant NonePending(fs.g, fs.Disk(), b, curEntry, o, k)
      invariant CursorMark(fs.g, fs.Disk(), fs.freeCursorBlock, fs.freeCursorEntry, b)
      invariant Slack(fs, b, {(o, k)}) == slack
      decreases fs.g.Entries() - curEntry
    {
      PixRoundTrip(fs.g, b, curEntry);
      var curPix := fs.g.Pix(b, curEntry);
      var objId := fs.lu[curPix];
      LiveEntry(fs, curPix);
      ghost var lu1, v1, files1, work1 := fs.lu, fs.Disk(), fs.files, fs.work;
      if objId == o && fs.g.IxSpan(fs.pages[curPix].span) == k {
        res := EvacuatePage(fs, b, o, k, x, curPix);
        if res != Ok {
          return;
        }
        EvacuatedTrans(v0, files0, x, o, work0, v1, files1, work1, fs.Disk(), fs.files, fs.work);
        DrainingTrans(fs.g, lu0, v0, lu1, v1, fs.lu, fs.Disk(), b);
        DrainingAt(fs.g, lu1, v1, fs.Disk(), b, curEntry);
        NonePendingKept(fs.g, v1, fs.Disk(), b, curEntry, o, k);
      } else {
        NonePendingNext(fs.g, v1, b, curEntry, o, k);
      }
      curEntry := curEntry + 1;
    }
  }

  lemma NonePendingYet(g: Geometry, v: Volume, b: nat, o: nat, k: nat)
    requires g.Wf()
    ensures NonePending(g, v, b, 0, o, k)
  {}

  lemma NonePendingNext(g: Geometry, v: Volume, b: nat, e: nat, o: nat, k: nat)
    requires g.Wf() && NonePending(g, v, b, e, o, k)
    requires g.Pix(b, e) in v && v[g.Pix(b, e)].id == o ==> g.IxSpan(v[g.Pix(b, e)].page.span) != k
    ensures NonePending(g, v, b, e + 1, o, k)
  {}

  lemma DrainingAt(g: Geometry, lu: seq<nat>, v: Volume, v': Volume, b: nat, e: nat)
    requires LuShape(g, lu) && InRange(g, b, e) && Draining(g, lu, v, v', b) && Entry(g, lu, b, e) != FREE
    ensures Shrunk(g, v, v', b, e + 1)
  {}

  lemma LiveEntry(fs: Spiffs, p: nat)
    requires fs.TablesOk() && p < fs.g.Pages()
    ensures p < |fs.lu| && |fs.pages| == |fs.lu|
    ensures p in fs.Disk() <==> Live(fs.lu[p])
    ensures Live(fs.lu[p]) ==> fs.Disk()[p] == Cell(fs.lu[p], fs.pages[p])
  {}

  lemma EvacuatedRefl(v: Volume, fs: Files, x: nat, o: nat, work: Page)
    requires o in fs
    ensures Evacuated(v, fs, x, o, work, v, fs, work)
  {
    SameContentsRefl(Pending(v, x, o, work), fs);
  }

  // ---------- storing the rewritten index page ----------

  lemma StoreStep(g: Geometry, v: Volume, fs: Files, fds: seq<Fd>, x: nat, o: nat, k: nat, work: Page, q: nat,
      ev: Event, newSize: nat)
    requires g.Wf() && Consistent(g, Pending(v, x, o, work), fs) && FdsOk(fds, fs)
    requires o in fs && k < |fs[o].ixp| && fs[o].ixp[k] == x && x in v
    requires q !in v && q < g.Pages() && ev != IxDel
    requires newSize == 0 || (k == 0 && newSize == work.size)
    ensures var v', fs' := (v - {x})[q := Cell(o + IX_FLAG, work)], fs[o := fs[o].(ixp := fs[o].ixp[k := q])];
            && Consistent(g, v', fs') && FdsOk(FdsAfter(fds, ev, o + IX_FLAG, k, q, newSize), fs')
            && SameContents(Pending(v, x, o, work), fs, v', fs')
  {
    hide FileLinked, IndexCell;
    var V := Pending(v, x, o, work);
    var fs' := fs[o := fs[o].(ixp := fs[o].ixp[k := q])];
    ConsistentFile(g, V, fs, o);
    IndexOf(g, V, o, fs[o], k);
    MoveIndexKeeps(g, V, fs, o, k, q, V[x]);
    assert (V - {x})[q := V[x]] == (v - {x})[q := Cell(o + IX_FLAG, work)];
    IndexMoved(fds, fs, ev, o + IX_FLAG, k, q, newSize);
    SizesKept(fds, fs, fs', ev, o + IX_FLAG, k, q, newSize, 0);
  }

  lemma IndexOf(g: Geometry, v: Volume, o: nat, f: File, k: nat)
    requires g.Wf() && FileLinked(g, v, o, f) && k < |f.ixp|
    ensures f.ixp[k] in v && IndexCell(g, v[f.ixp[k]], o, f.dap, k)
  {}

  /** Stores the index header in the work buffer while block b is being cleaned. */
  method MoveHeader(fs: Spiffs, b: nat, objId: Half, x: nat) returns (res: Code, newPix: nat)
    requires fs.FlashOk() && fs.cleaning && b < fs.g.blocks && x in fs.Disk() && IsIx(objId) && objId < FREE
    requires ValidObjIx(fs.work, objId, 0) == Ok
    modifies fs`lu, fs`pages, fs`eraseCounts, fs`freeBlocks, fs`maxEraseCount, fs`drift, fs`statsDeleted
    modifies fs`statsAllocated
    modifies fs`freeCursorBlock, fs`freeCursorEntry, fs`work, fs`fds
    ensures fs.FlashOk() && LuShape(fs.g, fs.lu) && fs.drift == old(fs.drift) && (res == Ok || res == ErrNotFound)
    ensures res == Ok ==> newPix !in old(fs.Disk()) && newPix < fs.g.Pages() && fs.work == old(fs.work)
    ensures res == Ok ==> fs.Disk() == (old(fs.Disk()) - {x})[newPix := Cell(objId, fs.work)]
    ensures fs.fds == if res == Ok then FdsAfter(old(fs.fds), IxUpd, objId, 0, newPix, fs.work.size) else old(fs.fds)
    ensures old(LuShape(fs.g, fs.lu))
    ensures res == Ok ==> Taken(fs.g, old(fs.lu), old(fs.Disk()), fs.lu, fs.Disk(), b, newPix)
    ensures res == Ok ==> CursorMark(fs.g, fs.Disk(), fs.freeCursorBlock, fs.freeCursorEntry, b)
    ensures res != Ok ==> old(FreeOutside(fs.g, fs.lu, b)) == {} && fs.Disk() == old(fs.Disk())
  {
    hide FreeSuffix, FreeBlank, CursorOk, DeletedPages, FreeBlocks, FirstFree, VolumeOf, Placed, NoneFree, FreeOutside,
         CursorMark, Taken, FdsAfter;
    ghost var lu, v, cb, ce := fs.lu, fs.Disk(), fs.freeCursorBlock, fs.freeCursorEntry;
    fs.SourcePage(x);
    res, newPix := fs.UpdateIndexHdr(None, objId, x, true, 0);
    if res == Ok {
      TakenBy(fs.g, lu, v, cb, ce, fs.freeCursorBlock, fs.freeCursorEntry, x, newPix, fs.Disk()[newPix], b);
      MarkPlaced(fs.g, lu, cb, ce, fs.freeCursorBlock, fs.freeCursorEntry, newPix, fs.Disk(), b);
    } else {
      NoneOutside(fs.g, lu, b);
    }
  }

  lemma PendingAt(v: Volume, x: nat, o: nat, work: Page, p: nat)
    requires p in v && p != x
    ensures p in Pending(v, x, o, work) && Pending(v, x, o, work)[p] == v[p]
  {}

  /** Once no data page in the block belongs to index page k of object o, only that index page itself may be there. */
  lemma KeyAlone(g: Geometry, lu: seq<nat>, pages: seq<Page>, fs: Files, b: nat, o: nat, k: nat, x: nat, work: Page)
    requires LuShape(g, lu) && |pages| == |lu| && o in fs && x in VolumeOf(lu, pages)
    requires Consistent(g, Pending(VolumeOf(lu, pages), x, o, work), fs)
    requires k < |fs[o].ixp| && fs[o].ixp[k] == x && o < IX_FLAG
    requires NonePending(g, VolumeOf(lu, pages), b, g.Entries(), o, k)
    ensures var v := VolumeOf(lu, pages);
            forall p :: p in v && g.BlockOf(p) == b && KeyOf(g, v[p]) == (o, k) ==> p == x
  {
    var v := VolumeOf(lu, pages);
    ConsistentFile(g, Pending(v, x, o, work), fs, o);
    forall p | p in v && g.BlockOf(p) == b && KeyOf(g, v[p]) == (o, k)
      ensures p == x
    {
      assert !g.IsLookupPage(p);
      EntryRoundTrip(g, p);
      if p != x {
        PendingAt(v, x, o, work, p);
      }
    }
  }

  /** State MOVE_OBJ_DATA when the scan is over: stores the index page in the work buffer. */
  method StoreIndex(fs: Spiffs, b: nat, o: Half, k: nat, x: nat) returns (res: Code)
    requires Evacuating(fs, o, k, x) && b < fs.g.blocks && 1 <= o < IX_FLAG - 1
    requires NonePending(fs.g, fs.Disk(), b, fs.g.Entries(), o, k)
    modifies fs`lu, fs`pages, fs`eraseCounts, fs`freeBlocks, fs`maxEraseCount, fs`drift, fs`statsDeleted
    modifies fs`statsAllocated
    modifies fs`freeCursorBlock, fs`freeCursorEntry, fs`work, fs`files, fs`fds
    ensures fs.drift == old(fs.drift) && (res == Ok || res == ErrNotFound) && SameOpen(old(fs.fds), fs.fds)
    ensures res == Ok ==> fs.Sound()
    ensures res == Ok ==> SameContents(Pending(old(fs.Disk()), x, o, old(fs.work)), old(fs.files), fs.Disk(), fs.files)
    ensures res != Ok ==> fs.FlashOk() && fs.Disk() == old(fs.Disk())
    ensures old(LuShape(fs.g, fs.lu)) && LuShape(fs.g, fs.lu)
    ensures res == Ok ==> Draining(fs.g, old(fs.lu), old(fs.Disk()), fs.Disk(), b) && StillTaken(old(fs.lu), fs.lu)
    ensures res == Ok ==> CursorMark(fs.g, fs.Disk(), fs.freeCursorBlock, fs.freeCursorEntry, b)
    ensures if res == Ok then Slack(fs, b, {}) == old(Slack(fs, b, {(o, k)})) else old(Slack(fs, b, {(o, k)})) < 0
  {
    hide Spiffs.FlashOk, FreeSuffix, FreeBlank, CursorOk, DeletedPages, FreeBlocks, VolumeOf, Consistent, FreeOutside,
         FdsOk, Pending, FdsAfter, NoneFree, Placed, Draining, StillTaken, CursorMark, SameContents, SameOpen, Needed,
         NonePending, Behind;
    ghost var v0, files0, fds0, work0 := fs.Disk(), fs.files, fs.fds, fs.work;
    WorkIsIndex(fs, o, k, x);
    KeyAlone(fs.g, fs.lu, fs.pages, files0, b, o, k, x, work0);
    NeedsSome(fs.g, v0, b, {(o, k)});
    SameOpenRefl(fds0);
    var newPix;
    var objId: Half := o + IX_FLAG;
    if k == 0 {
      res, newPix := MoveHeader(fs, b, objId, x);
    } else {
      var buf;
      res, newPix, buf := MovePage(fs, b, Some(fs.work), objId, x);
      if res == Ok {
        fs.work := buf.value;
        fs.ObjectEvent(IxUpd, o, fs.work.span, newPix, 0);
        SameEvent(fds0, IxUpd, o, k, newPix, 0);
      }
    }
    if res == Ok {
      IndexMoves(fs.g, v0, x, newPix, Cell(objId, work0), b);
      EventsKeepOpen(fds0, IxUpd, o + IX_FLAG, k, newPix, if k == 0 then work0.size else 0);
      StoreStep(fs.g, v0, files0, fds0, x, o, k, work0, newPix, IxUpd, if k == 0 then work0.size else 0);
      fs.files := files0[o := files0[o].(ixp := files0[o].ixp[k := newPix])];
    }
  }

  lemma SameEvent(fds: seq<Fd>, ev: Event, o: nat, k: nat, q: nat, newSize: nat)
    requires o < IX_FLAG
    ensures FdsAfter(fds, ev, o, k, q, newSize) == FdsAfter(fds, ev, o + IX_FLAG, k, q, newSize)
  {}

  /** The buffer holds a proper index page. */
  lemma WorkIsIndex(fs: Spiffs, o: nat, k: nat, x: nat)
    requires Evacuating(fs, o, k, x)
    ensures IndexCell(fs.g, Cell(o + IX_FLAG, fs.work), o, fs.files[o].dap, k)
    ensures ValidObjIx(fs.work, o + IX_FLAG, k) == Ok && fs.work.span == k && PageShape(fs.g, fs.work)
    ensures k == 0 ==> fs.work.size == fs.files[o].size && 1 <= fs.work.size
    ensures fs.work.(flags := fs.work.flags.(used := false)) == fs.work
    ensures fs.TablesOk() && fs.g.Wf() && LuShape(fs.g, fs.lu) && |fs.pages| == |fs.lu|
    ensures fs.Disk()[x].page.span == k
  {
    var V := Pending(fs.Disk(), x, o, fs.work);
    ConsistentFile(fs.g, V, fs.files, o);
    IndexOf(fs.g, V, o, fs.files[o], k);
  }

  // ---------- moving index pages ----------

  /** None of the first e entries of block b holds a data page, or any page at all. */
  ghost predicate NoData(g: Geometry, v: Volume, b: nat, e: nat)
    requires g.Wf()
  {
    forall e' :: 0 <= e' < e && g.Pix(b, e') in v ==> IsIx(v[g.Pix(b, e')].id)
  }

  ghost predicate NoPages(g: Geometry, v: Volume, b: nat, e: nat)
    requires g.Wf()
  {
    forall e' :: 0 <= e' < e ==> g.Pix(b, e') !in v
  }

  lemma NoPagesKept(g: Geometry, v: Volume, v': Volume, b: nat, e: nat)
    requires g.Wf() && Shrunk(g, v, v', b, e + 1) && NoPages(g, v, b, e) && g.Pix(b, e) !in v'
    ensures NoPages(g, v', b, e + 1)
  {}

  lemma NoPagesNext(g: Geometry, v: Volume, b: nat, e: nat)
    requires g.Wf() && NoPages(g, v, b, e) && g.Pix(b, e) !in v
    ensures NoPages(g, v, b, e + 1)
  {}

  /** Moving an index page puts no data page anywhere. */
  lemma NoDataMoved(g: Geometry, v: Volume, p: nat, q: nat, b: nat, e: nat)
    requires g.Wf() && p in v && IsIx(v[p].id) && NoData(g, v, b, e)
    ensures NoData(g, (v - {p})[q := v[p]], b, e)
  {}

  lemma IndexMoveStep(g: Geometry, v: Volume, fs: Files, fds: seq<Fd>, p: nat, q: nat)
    requires g.Wf() && Consistent(g, v, fs) && FdsOk(fds, fs)
    requires p in v && IsIx(v[p].id) && q !in v && q < g.Pages()
    ensures Base(v[p].id) in fs && v[p].page.span < |fs[Base(v[p].id)].ixp|
    ensures var o, k := Base(v[p].id), v[p].page.span;
            var v', fs' := (v - {p})[q := v[p]], fs[o := fs[o].(ixp := fs[o].ixp[k := q])];
            && Consistent(g, v', fs') && FdsOk(FdsAfter(fds, IxMov, v[p].id, k, q, 0), fs')
            && SameContents(v, fs, v', fs')
  {
    hide IndexCell;
    var o, k := Base(v[p].id), v[p].page.span;
    assert HasFile(g, v, fs, p);
    assert FileLinked(g, v, o, fs[o]);
    IndexOf(g, v, o, fs[o], k);
    MoveIndexKeeps(g, v, fs, o, k, q, v[p]);
    IndexMoved(fds, fs, IxMov, v[p].id, k, q, 0);
    SizesKept(fds, fs, fs[o := fs[o].(ixp := fs[o].ixp[k := q])], IxMov, v[p].id, k, q, 0, 0);
  }

  /** With no data pages left in a block, no other page in it has to do with an index page that is. */
  lemma IndexAlone(g: Geometry, lu: seq<nat>, pages: seq<Page>, fs: Files, b: nat, p: nat)
    requires LuShape(g, lu) && |pages| == |lu| && Consistent(g, VolumeOf(lu, pages), fs)
    requires p in VolumeOf(lu, pages) && IsIx(VolumeOf(lu, pages)[p].id)
    requires NoData(g, VolumeOf(lu, pages), b, g.Entries())
    ensures var v := VolumeOf(lu, pages);
            forall p' :: p' in v && g.BlockOf(p') == b && KeyOf(g, v[p']) == KeyOf(g, v[p]) ==> p' == p
  {
    var v := VolumeOf(lu, pages);
    assert HasFile(g, v, fs, p);
    ConsistentFile(g, v, fs, Base(v[p].id));
    forall p' | p' in v && g.BlockOf(p') == b && KeyOf(g, v[p']) == KeyOf(g, v[p])
      ensures p' == p
    {
      assert !g.IsLookupPage(p');
      EntryRoundTrip(g, p');
      assert IsIx(v[p'].id);
    }
  }

  /** Moves one index page and announces its new place. */
  method MoveIndexPage(fs: Spiffs, b: nat, p: nat) returns (res: Code)
    requires fs.Sound() && fs.cleaning && b < fs.g.blocks && p in fs.Disk() && IsIx(fs.Disk()[p].id)
    requires fs.Disk()[p].id < FREE && NoData(fs.g, fs.Disk(), b, fs.g.Entries())
    modifies fs`lu, fs`pages, fs`eraseCounts, fs`freeBlocks, fs`maxEraseCount, fs`drift, fs`statsDeleted
    modifies fs`statsAllocated
    modifies fs`freeCursorBlock, fs`freeCursorEntry, fs`files, fs`fds
    ensures fs.drift == old(fs.drift) && (res == Ok || res == ErrNotFound) && SameOpen(old(fs.fds), fs.fds)
    ensures res == Ok ==>
              fs.Sound() && SameContents(old(fs.Disk()), old(fs.files), fs.Disk(), fs.files) && p !in fs.Disk()
    ensures res == Ok ==> NoData(fs.g, fs.Disk(), b, fs.g.Entries())
    ensures res != Ok ==> fs.Sound() && fs.Disk() == old(fs.Disk()) && fs.files == old(fs.files)
    ensures old(LuShape(fs.g, fs.lu)) && LuShape(fs.g, fs.lu)
    ensures res == Ok ==> Draining(fs.g, old(fs.lu), old(fs.Disk()), fs.Disk(), b) && StillTaken(old(fs.lu), fs.lu)
    ensures res == Ok ==> CursorMark(fs.g, fs.Disk(), fs.freeCursorBlock, fs.freeCursorEntry, b)
    ensures if res == Ok then Slack(fs, b, {}) == old(Slack(fs, b, {KeyOf(fs.g, fs.Disk()[p])}))
            else old(Slack(fs, b, {KeyOf(fs.g, fs.Disk()[p])})) < 0
  {
    hide LuShape, FreeSuffix, FreeBlank, CursorOk, DeletedPages, FreeBlocks, VolumeOf, Consistent, FreeOutside,
         CursorMark, FdsOk, Needed, FdsAfter, SameContents, Draining, StillTaken, NoData;
    ghost var v0, files0, fds0 := fs.Disk(), fs.files, fs.fds;
    fs.SourcePage(p);
    ghost var key := KeyOf(fs.g, v0[p]);
    NeedsSome(fs.g, v0, b, {key});
    IndexAlone(fs.g, fs.lu, fs.pages, files0, b, p);
    var objId, span := fs.lu[p], fs.pages[p].span;
    var newPix, buf;
    res, newPix, buf := MovePage(fs, b, None, objId, p);
    if res == Ok {
      IndexMoves(fs.g, v0, p, newPix, v0[p], b);
      NoDataMoved(fs.g, v0, p, newPix, b, fs.g.Entries());
      fs.ObjectEvent(IxMov, objId, span, newPix, 0);
      EventsKeepOpen(fds0, IxMov, objId, span, newPix, 0);
      IndexMoveStep(fs.g, v0, files0, fds0, p, newPix);
      fs.files := files0[Base(objId) := files0[Base(objId)].(ixp := files0[Base(objId)].ixp[span := newPix])];
    }
  }

  /** In state MOVE_OBJ_IX, before entry e: there are no data pages in the block, nor index pages before the entry. */
  ghost predicate BetweenPages(fs: Spiffs, b: nat, e: nat, lu0: seq<nat>, v0: Volume, files0: Files, slack: int)
    reads fs
  {
    && fs.cleaning && LuShape(fs.g, fs.lu) && b < fs.g.blocks && fs.Sound() && Slack(fs, b, {}) == slack
    && SameContents(v0, files0, fs.Disk(), fs.files) && StillTaken(lu0, fs.lu)
    && NoData(fs.g, fs.Disk(), b, fs.g.Entries()) && NoPages(fs.g, fs.Disk(), b, e)
    && CursorMark(fs.g, fs.Disk(), fs.freeCursorBlock, fs.freeCursorEntry, b)
    && (NoPages(fs.g, v0, b, fs.g.Entries()) ==> fs.lu == lu0 && fs.Disk() == v0)
  }

  /** The entry at which the scan stands: an index page there leaves the block. */
  method NextIndexPage(fs: Spiffs, b: nat, curEntry: nat, ghost lu0: seq<nat>, ghost v0: Volume, ghost files0: Files,
      ghost slack: int)
    returns (res: Code)
    requires BetweenPages(fs, b, curEntry, lu0, v0, files0, slack) && curEntry < fs.g.Entries()
    modifies fs`lu, fs`pages, fs`eraseCounts, fs`freeBlocks, fs`maxEraseCount, fs`drift, fs`statsDeleted
    modifies fs`statsAllocated
    modifies fs`freeCursorBlock, fs`freeCursorEntry, fs`files, fs`fds
    ensures fs.drift == old(fs.drift) && (res == Ok || res == ErrNotFound) && SameOpen(old(fs.fds), fs.fds)
    ensures LuShape(fs.g, fs.lu) && (res != Ok ==> slack < 0 && !NoPages(fs.g, v0, b, fs.g.Entries()))
    ensures res != Ok ==> fs.Sound() && SameContents(v0, files0, fs.Disk(), fs.files)
    ensures res == Ok ==> BetweenPages(fs, b, curEntry + 1, lu0, v0, files0, slack)
  {
    hide SameOpen, FreeSuffix, FreeBlank, CursorOk, DeletedPages, FreeBlocks, VolumeOf, Consistent, FdsOk,
         SameContents, Shrunk, Slack, CursorMark, Draining, StillTaken, NoData, NoPages;
    PixRoundTrip(fs.g, b, curEntry);
    var curPix := fs.g.Pix(b, curEntry);
    var objId := fs.lu[curPix];
    LiveEntry(fs, curPix);
    res := Ok;
    ghost var lu1, v1, files1 := fs.lu, fs.Disk(), fs.files;
    SameOpenRefl(fs.fds);
    if objId != DELETED && objId != FREE && IsIx(objId) {
      BufferedSlack(fs, b, curPix);
      NoPagesAt(fs.g, v1, b, curEntry);
      res := MoveIndexPage(fs, b, curPix);
      if res == Ok {
        SameContentsTrans(v0, files0, v1, files1, fs.Disk(), fs.files);
        StillTakenTrans(lu0, lu1, fs.lu);
        DrainingAt(fs.g, lu1, v1, fs.Disk(), b, curEntry);
        NoPagesKept(fs.g, v1, fs.Disk(), b, curEntry);
      }
    } else {
      NoDataAt(fs.g, v1, b, curEntry);
      NoPagesNext(fs.g, v1, b, curEntry);
    }
  }

  lemma IndexPagesBegin(fs: Spiffs, b: nat, lu0: seq<nat>, v0: Volume, files0: Files)
    requires fs.Sound() && fs.cleaning && b < fs.g.blocks && lu0 == fs.lu && v0 == fs.Disk() && files0 == fs.files
    requires NoData(fs.g, fs.Disk(), b, fs.g.Entries())
    requires CursorMark(fs.g, fs.Disk(), fs.freeCursorBlock, fs.freeCursorEntry, b)
    ensures LuShape(fs.g, fs.lu) && BetweenPages(fs, b, 0, lu0, v0, files0, Slack(fs, b, {}))
  {
    hide FreeSuffix, FreeBlank, CursorOk, DeletedPages, FreeBlocks, Consistent, SameContents, Slack, CursorMark, FdsOk,
         NoData;
    SameContentsRefl(v0, files0);
    NoPagesYet(fs.g, v0, b);
    DrainingRefl(fs.g, lu0, v0, b);
  }

  lemma IndexPagesEnd(fs: Spiffs, b: nat, lu0: seq<nat>, v0: Volume, files0: Files, slack: int)
    requires fs.g.Wf() && BetweenPages(fs, b, fs.g.Entries(), lu0, v0, files0, slack)
    ensures fs.Sound() && SameContents(v0, files0, fs.Disk(), fs.files) && NoPages(fs.g, fs.Disk(), b, fs.g.Entries())
    ensures CursorMark(fs.g, fs.Disk(), fs.freeCursorBlock, fs.freeCursorEntry, b) && StillTaken(lu0, fs.lu)
    ensures LuShape(fs.g, fs.lu) && Slack(fs, b, {}) == slack
    ensures NoPages(fs.g, v0, b, fs.g.Entries()) ==> fs.lu == lu0 && fs.Disk() == v0
  {
    hide FreeSuffix, FreeBlank, CursorOk, DeletedPages, FreeBlocks, Consistent, SameContents, Slack, CursorMark, FdsOk,
         NoData, NoPages, StillTaken, LuShape;
  }

  /** The scan of state MOVE_OBJ_IX: moves every index page out of the block. */
  method MoveIndexPages(fs: Spiffs, b: nat) returns (res: Code)
    requires fs.Sound() && fs.cleaning && b < fs.g.blocks && NoData(fs.g, fs.Disk(), b, fs.g.Entries())
    requires CursorMark(fs.g, fs.Disk(), fs.freeCursorBlock, fs.freeCursorEntry, b)
    modifies fs`lu, fs`pages, fs`eraseCounts, fs`freeBlocks, fs`maxEraseCount, fs`drift, fs`statsDeleted
    modifies fs`statsAllocated
    modifies fs`freeCursorBlock, fs`freeCursorEntry, fs`files, fs`fds
    ensures fs.drift == old(fs.drift) && (res == Ok || res == ErrNotFound) && SameOpen(old(fs.fds), fs.fds)
    ensures fs.Sound() && SameContents(old(fs.Disk()), old(fs.files), fs.Disk(), fs.files)
    ensures res == Ok ==> NoPages(fs.g, fs.Disk(), b, fs.g.Entries())
    ensures res == Ok ==> CursorMark(fs.g, fs.Disk(), fs.freeCursorBlock, fs.freeCursorEntry, b)
    ensures old(LuShape(fs.g, fs.lu)) && LuShape(fs.g, fs.lu)
    ensures res == Ok ==> StillTaken(old(fs.lu), fs.lu)
    ensures old(NoPages(fs.g, fs.Disk(), b, fs.g.Entries())) ==> fs.lu == old(fs.lu) && fs.Disk() == old(fs.Disk())
    ensures if res == Ok then Slack(fs, b, {}) == old(Slack(fs, b, {})) else old(Slack(fs, b, {})) < 0
  {
    hide SameOpen, FreeSuffix, FreeBlank, CursorOk, DeletedPages, FreeBlocks, VolumeOf, Consistent, FdsOk, LuShape,
         SameContents, Slack, CursorMark, StillTaken, NoData, NoPages, BetweenPages;
    ghost var lu0, v0, files0, slack, fds0 := fs.lu, fs.Disk(), fs.files, Slack(fs, b, {}), fs.fds;
    res := Ok;
    IndexPagesBegin(fs, b, lu0, v0, files0);
    SameOpenRefl(fs.fds);
    var curEntry := 0;
    while curEntry < fs.g.Entries()
      invariant 0 <= curEntry <= fs.g.Entries() && res == Ok && fs.drift == old(fs.drift) && SameOpen(fds0, fs.fds)
      invariant BetweenPages(fs, b, curEntry, lu0, v0, files0, slack)
    {
      ghost var fds1 := fs.fds;
      res := NextIndexPage(fs, b, curEntry, lu0, v0, files0, slack);
      SameOpenTrans(fds0, fds1, fs.fds);
      if res != Ok {
        return;
      }
      curEntry := curEntry + 1;
    }
    IndexPagesEnd(fs, b, lu0, v0, files0, slack);
  }

  lemma BufferedSlack(fs: Spiffs, b: nat, p: nat)
    requires LuShape(fs.g, fs.lu) && p in fs.Disk() && fs.g.BlockOf(p) == b
    ensures Slack(fs, b, {KeyOf(fs.g, fs.Disk()[p])}) == Slack(fs, b, {})
  {
    BufferedIn(fs.g, fs.Disk(), b, p);
  }

  lemma NoPagesYet(g: Geometry, v: Volume, b: nat)
    requires g.Wf()
    ensures NoPages(g, v, b, 0)
  {}

  lemma NoPagesAt(g: Geometry, v: Volume, b: nat, e: nat)
    requires g.Wf() && e < g.Entries()
    ensures NoPages(g, v, b, g.Entries()) ==> g.Pix(b, e) !in v
  {}

  lemma NoDataAt(g: Geometry, v: Volume, b: nat, e: nat)
    requires g.Wf() && e < g.Entries() && NoData(g, v, b, g.Entries())
    ensures g.Pix(b, e) in v ==> IsIx(v[g.Pix(b, e)].id)
  {}

  // ---------- cleaning a block ----------

  datatype CleanState = FindObjData | MoveObjData | MoveObjIx | Finished

  /** The scan of state FIND_OBJ_DATA, from the given entry to the first data page. */
  method FindDataPage(fs: Spiffs, b: nat, startEntry: nat) returns (found: bool, curEntry: nat)
    requires fs.TablesOk() && b < fs.g.blocks && startEntry <= fs.g.Entries()
    ensures startEntry <= curEntry <= fs.g.Entries()
    ensures found ==>
              && startEntry < curEntry && fs.g.Pix(b, curEntry - 1) in fs.Disk()
              && !IsIx(fs.Disk()[fs.g.Pix(b, curEntry - 1)].id)
    ensures !found ==> curEntry == fs.g.Entries()
    ensures NoData(fs.g, fs.Disk(), b, startEntry) ==>
            NoData(fs.g, fs.Disk(), b, if found then curEntry - 1 else curEntry)
  {
    curEntry := startEntry;
    found := false;
    while !found && curEntry < fs.g.Entries()
      invariant startEntry <= curEntry <= fs.g.Entries()
      invariant found ==>
                && startEntry < curEntry && fs.g.Pix(b, curEntry - 1) in fs.Disk()
                && !IsIx(fs.Disk()[fs.g.Pix(b, curEntry - 1)].id)
      invariant NoData(fs.g, fs.Disk(), b, startEntry) ==>
              NoData(fs.g, fs.Disk(), b, if found then curEntry - 1 else curEntry)
      decreases fs.g.Entries() - curEntry
    {
      PixRoundTrip(fs.g, b, curEntry);
      LiveEntry(fs, fs.g.Pix(b, curEntry));
      var objId := fs.lu[fs.g.Pix(b, curEntry)];
      if objId != DELETED && objId != FREE && !IsIx(objId) {
        found := true;
      }
      curEntry := curEntry + 1;
    }
  }

  /** Finds the index page of a data page and loads it into the work buffer. */
  method LoadIndexOf(fs: Spiffs, o: Half, p: nat) returns (k: nat, x: nat)
    requires fs.Sound() && fs.cleaning && p in fs.Disk() && fs.Disk()[p].id == o && !IsIx(o)
    modifies fs`cursorBlock, fs`cursorEntry, fs`work
    ensures Evacuating(fs, o, k, x) && k == fs.g.IxSpan(fs.Disk()[p].page.span) && 1 <= o < IX_FLAG - 1
    ensures Pending(fs.Disk(), x, o, fs.work) == fs.Disk()
  {
    hide FreeSuffix, FreeBlank, CursorOk, DeletedPages, FreeBlocks, VolumeOf, FdsOk, Consistent, IndexCell, FileLinked;
    fs.SourcePage(p);
    k := fs.g.IxSpan(fs.pages[p].span);
    LiveIds(fs, p);
    DataEntry(fs.g, fs.Disk(), fs.files, o, p);
    IndexFound(fs.g, fs.Disk(), fs.files, o, fs.pages[p].span);
    var res;
    res, x := fs.FindIdAndSpan(o + IX_FLAG, k, 0);
    IndexIsIt(fs.g, fs.Disk(), fs.files, o, k, x);
    fs.SourcePage(x);
    fs.work := fs.pages[x];
    assert Pending(fs.Disk(), x, o, fs.work) == fs.Disk();
  }

  lemma LiveIds(fs: Spiffs, p: nat)
    requires fs.TablesOk() && p in fs.Disk() && fs.Disk()[p].id < IX_FLAG
    ensures 1 <= fs.Disk()[p].id
  {}

  /** The index page a search looks for exists, and the search finds no other. */
  lemma IndexFound(g: Geometry, v: Volume, fs: Files, o: nat, s: nat)
    requires g.Wf() && Consistent(g, v, fs) && o in fs && s < |fs[o].dap|
    ensures g.IxSpan(s) < |fs[o].ixp|
    ensures var x := fs[o].ixp[g.IxSpan(s)];
            && x in v && v[x].id == o + IX_FLAG
            && Matches(v[x].page, o + IX_FLAG, g.IxSpan(s), 0, x)
    ensures 1 <= o < IX_FLAG - 1
  {
    ConsistentFile(g, v, fs, o);
    IxSpanBound(g, s, |fs[o].ixp|);
    IndexOf(g, v, o, fs[o], g.IxSpan(s));
  }

  lemma IndexIsIt(g: Geometry, v: Volume, fs: Files, o: nat, k: nat, x: nat)
    requires g.Wf() && Consistent(g, v, fs) && o in fs && x in v && v[x].id == o + IX_FLAG
    requires Matches(v[x].page, o + IX_FLAG, k, 0, x)
    ensures k < |fs[o].ixp| && fs[o].ixp[k] == x
  {
    ConsistentFile(g, v, fs, o);
  }

  lemma RoundDone(g: Geometry, v: Volume, v': Volume, v'': Volume, b: nat, e: nat, o: nat, k: nat)
    requires g.Wf() && 0 < e <= g.Entries() && NoData(g, v, b, e - 1)
    requires g.Pix(b, e - 1) in v && v[g.Pix(b, e - 1)].id == o && g.IxSpan(v[g.Pix(b, e - 1)].page.span) == k
    requires Shrunk(g, v, v', b, e) && NonePending(g, v', b, g.Entries(), o, k) && Shrunk(g, v', v'', b, e)
    ensures NoData(g, v'', b, e)
  {
    assert g.Pix(b, e - 1) !in v';
  }

  /** State MOVE_OBJ_DATA for the data page found at entry e - 1: moves it, and all others that
      its index page refers to, then stores the index page. */
  method CleanRound(fs: Spiffs, b: nat, e: nat, o: Half, k: nat, x: nat) returns (res: Code)
    requires Evacuating(fs, o, k, x) && b < fs.g.blocks && 1 <= o < IX_FLAG - 1 && 0 < e <= fs.g.Entries()
    requires fs.g.Pix(b, e - 1) in fs.Disk() && fs.Disk()[fs.g.Pix(b, e - 1)].id == o
    requires fs.g.IxSpan(fs.Disk()[fs.g.Pix(b, e - 1)].page.span) == k
    requires CursorMark(fs.g, fs.Disk(), fs.freeCursorBlock, fs.freeCursorEntry, b)
    modifies fs`lu, fs`pages, fs`eraseCounts, fs`freeBlocks, fs`maxEraseCount, fs`drift, fs`statsDeleted
    modifies fs`statsAllocated
    modifies fs`freeCursorBlock, fs`freeCursorEntry, fs`work, fs`files, fs`fds
    ensures fs.drift == old(fs.drift) && (res == Ok || res == ErrNotFound) && SameOpen(old(fs.fds), fs.fds)
    ensures res == Ok ==> fs.Sound()
    ensures res == Ok ==> SameContents(Pending(old(fs.Disk()), x, o, old(fs.work)), old(fs.files), fs.Disk(), fs.files)
    ensures res != Ok ==> fs.g.Wf() && fs.FlashOk()
    ensures fs.g.Wf() && (res != Ok ==>
              Halfway(fs.g, fs.Disk(), Pending(old(fs.Disk()), x, o, old(fs.work)), old(fs.files)))
    ensures res == Ok && old(NoData(fs.g, fs.Disk(), b, e - 1)) ==> NoData(fs.g, fs.Disk(), b, e)
    ensures res == Ok ==> StillTaken(old(fs.lu), fs.lu)
    ensures res == Ok ==> CursorMark(fs.g, fs.Disk(), fs.freeCursorBlock, fs.freeCursorEntry, b)
    ensures old(LuShape(fs.g, fs.lu)) && LuShape(fs.g, fs.lu)
    ensures if res == Ok then Slack(fs, b, {}) == old(Slack(fs, b, {})) else old(Slack(fs, b, {})) < 0
  {
    hide FreeSuffix, FreeBlank, DeletedPages, FreeBlocks, VolumeOf, Consistent, FdsOk, SameContents, Shrunk, Evacuated,
         Pending, NoData, NonePending, FirstFree, CursorOk, CursorMark, Slack, Draining, StillTaken, Halfway, Behind;
    ghost var lu1, v1, files1, work1 := fs.lu, fs.Disk(), fs.files, fs.work;
    PixRoundTrip(fs.g, b, e - 1);
    BufferedSlack(fs, b, fs.g.Pix(b, e - 1));
    LiveEntry(fs, fs.g.Pix(b, e - 1));
    res := EvacuateDataPages(fs, b, o, k, x);
    ghost var lu2, v2, files2, work2 := fs.lu, fs.Disk(), fs.files, fs.work;
    EvacuatedSame(v1, files1, x, o, work1, v2, files2, work2);
    EvacuatingHalfway(fs, o, k, x, Pending(v1, x, o, work1), files1);
    if res != Ok {
      return;
    }
    res := StoreIndex(fs, b, o, k, x);
    if res != Ok {
      return;
    }
    SameContentsTrans(Pending(v1, x, o, work1), files1, Pending(v2, x, o, work2), files2, fs.Disk(), fs.files);
    StillTakenTrans(lu1, lu2, fs.lu);
    if NoData(fs.g, v1, b, e - 1) {
      StillTakenAt(fs.g, lu1, lu2, b, e - 1);
      DrainingAt(fs.g, lu1, v1, v2, b, e - 1);
      DrainingAt(fs.g, lu2, v2, fs.Disk(), b, e - 1);
      RoundDone(fs.g, v1, v2, fs.Disk(), b, e, o, k);
    }
  }

  lemma StillTakenTrans(lu: seq<nat>, lu': seq<nat>, lu'': seq<nat>)
    requires StillTaken(lu, lu') && StillTaken(lu', lu'')
    ensures StillTaken(lu, lu'')
  {}

  lemma StillTakenAt(g: Geometry, lu: seq<nat>, lu': seq<nat>, b: nat, e: nat)
    requires LuShape(g, lu) && LuShape(g, lu') && InRange(g, b, e) && StillTaken(lu, lu') && Entry(g, lu, b, e) != FREE
    ensures Entry(g, lu', b, e) != FREE
  {
    PixRoundTrip(g, b, e);
  }

  /** Moves the free cursor to the next block, if it is in the block to be cleaned. */
  method LeaveBlock(fs: Spiffs, b: nat)
    requires fs.Sound() && fs.cleaning && b < fs.g.blocks
    modifies fs`freeCursorBlock, fs`freeCursorEntry
    ensures fs.Sound() && CursorMark(fs.g, fs.Disk(), fs.freeCursorBlock, fs.freeCursorEntry, b)
  {
    hide FreeSuffix, FreeBlank, DeletedPages, FreeBlocks, VolumeOf, Consistent, FdsOk, FirstFree;
    if fs.freeCursorBlock == b {
      fs.freeCursorBlock := if b + 1 == fs.g.blocks then 0 else b + 1;
      fs.freeCursorEntry := 0;
    }
  }

  /** State FIND_OBJ_DATA: finds a data page from the given entry on, and loads the index page that refers to it. */
  method FindAndLoad(fs: Spiffs, b: nat, startEntry: nat) returns (found: bool, curEntry: nat, o: Half, k: nat, x: nat)
    requires fs.Sound() && fs.cleaning && b < fs.g.blocks && startEntry <= fs.g.Entries()
    modifies fs`cursorBlock, fs`cursorEntry, fs`work
    ensures startEntry <= curEntry <= fs.g.Entries()
            && (if found then startEntry < curEntry else curEntry == fs.g.Entries() && fs.Sound())
    ensures found ==>
              && Evacuating(fs, o, k, x) && LuShape(fs.g, fs.lu) && 1 <= o < IX_FLAG - 1
              && Pending(fs.Disk(), x, o, fs.work) == fs.Disk()
    ensures found ==> var p := fs.g.Pix(b, curEntry - 1);
                      && p in fs.Disk() && fs.Disk()[p].id == o
                      && fs.g.IxSpan(fs.Disk()[p].page.span) == k
    ensures NoData(fs.g, fs.Disk(), b, startEntry) ==>
            NoData(fs.g, fs.Disk(), b, if found then curEntry - 1 else curEntry)
  {
    hide FreeSuffix, FreeBlank, DeletedPages, FreeBlocks, VolumeOf, Consistent, FdsOk, NoData, Pending, Evacuating,
         FirstFree;
    found, curEntry := FindDataPage(fs, b, startEntry);
    o, k, x := 0, 0, 0;
    if found {
      // the index page that this data page belongs to comes into the buffer
      var curDataPix := fs.g.Pix(b, curEntry - 1);
      fs.SourcePage(curDataPix);
      o := fs.lu[curDataPix];
      k, x := LoadIndexOf(fs, o, curDataPix);
    }
  }

  /** What the state machine remembers from state to state. */
  datatype Cleaner = Cleaner(state: CleanState, curEntry: nat, objId: Half, objixSpix: nat, objixPix: nat,
                             storedScanEntry: nat)

  /** In state MOVE_OBJ_DATA: the index page loaded refers to the data page found. */
  ghost predicate FoundAndLoaded(fs: Spiffs, b: nat, c: Cleaner)
    reads fs
  {
    && Evacuating(fs, c.objId, c.objixSpix, c.objixPix) && 1 <= c.objId < IX_FLAG - 1 && 0 < c.storedScanEntry
    && var p := fs.g.Pix(b, c.storedScanEntry - 1);
       p in fs.Disk() && fs.Disk()[p].id == c.objId && fs.g.IxSpan(fs.Disk()[p].page.span) == c.objixSpix
  }

  /** Between two rounds of cleaning block b, begun with lookup table lu0 and volume v0. */
  ghost predicate Between(fs: Spiffs, b: nat, c: Cleaner, lu0: seq<nat>, v0: Volume, files0: Files, slack: int)
    reads fs
  {
    && fs.cleaning && LuShape(fs.g, fs.lu) && b < fs.g.blocks
    && c.curEntry <= fs.g.Entries() && c.storedScanEntry <= fs.g.Entries() && Slack(fs, b, {}) == slack
    && CursorMark(fs.g, fs.Disk(), fs.freeCursorBlock, fs.freeCursorEntry, b) && StillTaken(lu0, fs.lu)
    && (NoPages(fs.g, v0, b, fs.g.Entries()) ==> fs.lu == lu0 && fs.Disk() == v0 && c.state != MoveObjData)
    && (c.state != MoveObjData ==> fs.Sound() && SameContents(v0, files0, fs.Disk(), fs.files))
    && match c.state
       case FindObjData => NoData(fs.g, fs.Disk(), b, c.curEntry)
       case MoveObjData =>
         && FoundAndLoaded(fs, b, c) && NoData(fs.g, fs.Disk(), b, c.storedScanEntry - 1)
         && SameContents(v0, files0, Pending(fs.Disk(), c.objixPix, c.objId, fs.work), fs.files)
       case MoveObjIx => NoData(fs.g, fs.Disk(), b, fs.g.Entries())
       case Finished => NoPages(fs.g, fs.Disk(), b, fs.g.Entries())
  }

  /** No more rounds than this follow. */
  function RoundsLeft(c: Cleaner, n: nat): nat {
    match c.state
    case FindObjData => if c.curEntry <= n then 2 * (n - c.curEntry) + 2 else 2
    case MoveObjData => if c.storedScanEntry <= n then 2 * (n - c.storedScanEntry) + 3 else 3
    case MoveObjIx => 1
    case Finished => 0
  }

  /** The round of state FIND_OBJ_DATA. */
  method FindRound(fs: Spiffs, b: nat, c: Cleaner, ghost lu0: seq<nat>, ghost v0: Volume, ghost files0: Files,
      ghost slack: int)
    returns (c': Cleaner)
    requires Between(fs, b, c, lu0, v0, files0, slack) && c.state == FindObjData
    modifies fs`cursorBlock, fs`cursorEntry, fs`work
    ensures Between(fs, b, c', lu0, v0, files0, slack) && RoundsLeft(c', fs.g.Entries()) < RoundsLeft(c, fs.g.Entries())
  {
    hide StillTaken, FreeSuffix, FreeBlank, CursorOk, DeletedPages, FreeBlocks, VolumeOf, Consistent, FdsOk,
         SameContents, Evacuating, Pending, NoData, NoPages, FirstFree, CursorMark, Slack, LuShape, Halfway;
    var found, curEntry, o, k, x := FindAndLoad(fs, b, c.curEntry);
    if found {
      NoPagesAt(fs.g, v0, b, curEntry - 1);
    }
    c' := Cleaner(if found then MoveObjData else MoveObjIx, 0, o, k, x, if found then curEntry else c.storedScanEntry);
  }

  /** The round of state MOVE_OBJ_DATA. */
  method DataRound(fs: Spiffs, b: nat, c: Cleaner, ghost lu0: seq<nat>, ghost v0: Volume, ghost files0: Files,
      ghost slack: int)
    returns (res: Code, c': Cleaner)
    requires Between(fs, b, c, lu0, v0, files0, slack) && c.state == MoveObjData
    modifies fs`lu, fs`pages, fs`eraseCounts, fs`freeBlocks, fs`maxEraseCount, fs`drift, fs`statsDeleted
    modifies fs`statsAllocated
    modifies fs`freeCursorBlock, fs`freeCursorEntry, fs`work, fs`files, fs`fds
    ensures fs.drift == old(fs.drift) && (res == Ok || res == ErrNotFound) && SameOpen(old(fs.fds), fs.fds)
    ensures LuShape(fs.g, fs.lu) && (res != Ok ==> slack < 0 && fs.FlashOk() && Halfway(fs.g, fs.Disk(), v0, files0))
    ensures !NoPages(fs.g, v0, b, fs.g.Entries())
    ensures res == Ok ==>
              && Between(fs, b, c', lu0, v0, files0, slack)
              && RoundsLeft(c', fs.g.Entries()) < RoundsLeft(c, fs.g.Entries())
  {
    hide StillTaken, SameOpen, FreeSuffix, FreeBlank, CursorOk, DeletedPages, FreeBlocks, VolumeOf, Consistent, FdsOk,
         SameContents, Evacuating, Pending, NoData, NoPages, FirstFree, CursorMark, Slack, LuShape, Halfway;
    ghost var lu1, files1, v1 := fs.lu, fs.files, Pending(fs.Disk(), c.objixPix, c.objId, fs.work);
    c' := c.(state := FindObjData, curEntry := c.storedScanEntry);
    res := CleanRound(fs, b, c.storedScanEntry, c.objId, c.objixSpix, c.objixPix);
    if res != Ok {
      HalfwayFrom(fs.g, fs.Disk(), v1, files1, v0, files0);
    } else {
      StillTakenTrans(lu0, lu1, fs.lu);
      SameContentsTrans(v0, files0, v1, files1, fs.Disk(), fs.files);
    }
  }

  /** The round of state MOVE_OBJ_IX. */
  method IndexRound(fs: Spiffs, b: nat, c: Cleaner, ghost lu0: seq<nat>, ghost v0: Volume, ghost files0: Files,
      ghost slack: int)
    returns (res: Code, c': Cleaner)
    requires Between(fs, b, c, lu0, v0, files0, slack) && c.state == MoveObjIx
    modifies fs`lu, fs`pages, fs`eraseCounts, fs`freeBlocks, fs`maxEraseCount, fs`drift, fs`statsDeleted
    modifies fs`statsAllocated
    modifies fs`freeCursorBlock, fs`freeCursorEntry, fs`files, fs`fds
    ensures fs.drift == old(fs.drift) && (res == Ok || res == ErrNotFound) && SameOpen(old(fs.fds), fs.fds)
    ensures LuShape(fs.g, fs.lu) && (res != Ok ==> slack < 0 && fs.FlashOk() && Halfway(fs.g, fs.Disk(), v0, files0))
    ensures NoPages(fs.g, v0, b, fs.g.Entries()) ==> fs.lu == lu0
    ensures res == Ok ==>
              && Between(fs, b, c', lu0, v0, files0, slack)
              && RoundsLeft(c', fs.g.Entries()) < RoundsLeft(c, fs.g.Entries())
  {
    hide StillTaken, SameOpen, FreeSuffix, FreeBlank, CursorOk, DeletedPages, FreeBlocks, VolumeOf, Consistent, FdsOk,
         SameContents, Evacuating, Pending, NoData, NoPages, FirstFree, CursorMark, Slack, LuShape, Halfway;
    ghost var lu1, files1, v1 := fs.lu, fs.files, fs.Disk();
    c' := c.(state := Finished);
    res := MoveIndexPages(fs, b);
    SameContentsTrans(v0, files0, v1, files1, fs.Disk(), fs.files);
    HalfwayNow(fs.g, fs.Disk(), fs.files, v0, files0);
    if res == Ok {
      StillTakenTrans(lu0, lu1, fs.lu);
    }
  }

  /** spiffs_gc_clean: moves every live page out of block b. It succeeds exactly if there are enough free pages outside
      the block. Every file is as it was then, no live page is left in the block, and the cursor is not inside it, even
      if pages had to be put into the block itself on the way. Otherwise it may stop halfway. */
  method Clean(fs: Spiffs, b: nat) returns (res: Code)
    requires fs.Sound() && fs.cleaning && b < fs.g.blocks
    modifies fs`lu, fs`pages, fs`eraseCounts, fs`freeBlocks, fs`maxEraseCount, fs`drift, fs`statsDeleted
    modifies fs`statsAllocated
    modifies fs`freeCursorBlock, fs`freeCursorEntry, fs`cursorBlock, fs`cursorEntry, fs`work, fs`files, fs`fds
    ensures fs.drift == old(fs.drift) && (res == Ok || res == ErrNotFound) && SameOpen(old(fs.fds), fs.fds)
    ensures res == Ok ==> fs.Sound() && SameContents(old(fs.Disk()), old(fs.files), fs.Disk(), fs.files)
    ensures res == Ok ==> NoPages(fs.g, fs.Disk(), b, fs.g.Entries())
    ensures res == Ok ==> Outside(fs.g, fs.freeCursorBlock, fs.freeCursorEntry, b)
    ensures old(LuShape(fs.g, fs.lu)) && (res == Ok <==> old(EnoughFree(fs.g, fs.lu, fs.Disk(), b)))
    ensures fs.g.Wf() && (res != Ok ==> fs.FlashOk() && Halfway(fs.g, fs.Disk(), old(fs.Disk()), old(fs.files)))
    ensures res == Ok ==> StillTaken(old(fs.lu), fs.lu)
    ensures old(NoPages(fs.g, fs.Disk(), b, fs.g.Entries())) ==> fs.lu == old(fs.lu)
  {
    hide Between, StillTaken, SameOpen, FreeSuffix, FreeBlank, CursorOk, DeletedPages, FreeBlocks, VolumeOf, Consistent,
         Outside, EnoughFree, FdsOk, SameContents, NoPages, FirstFree, CursorMark, Slack, LuShape, RoundsLeft, Halfway;
    ghost var lu0, v0, files0, slack, fds0 := fs.lu, fs.Disk(), fs.files, Slack(fs, b, {}), fs.fds;
    SlackIs(fs, b);
    LeaveBlock(fs, b);
    var c := Cleaner(FindObjData, 0, 0, 0, 0, 0);
    CleaningBegins(fs, b, lu0, v0, files0);
    SameOpenRefl(fs.fds);
    res := Ok;
    while c.state != Finished
      invariant res == Ok && fs.drift == old(fs.drift) && SameOpen(fds0, fs.fds)
      invariant Between(fs, b, c, lu0, v0, files0, slack)
      decreases RoundsLeft(c, fs.g.Entries())
    {
      ghost var fds1 := fs.fds;
      if c.state == FindObjData {
        c := FindRound(fs, b, c, lu0, v0, files0, slack);
        SameOpenRefl(fds1);
      } else if c.state == MoveObjData {
        res, c := DataRound(fs, b, c, lu0, v0, files0, slack);
      } else {
        res, c := IndexRound(fs, b, c, lu0, v0, files0, slack);
      }
      SameOpenTrans(fds0, fds1, fs.fds);
      if res != Ok {
        return;
      }
    }
    CleaningEnds(fs, b, c, lu0, v0, files0, slack);
  }

  lemma CleaningBegins(fs: Spiffs, b: nat, lu0: seq<nat>, v0: Volume, files0: Files)
    requires fs.Sound() && fs.cleaning && b < fs.g.blocks && lu0 == fs.lu && v0 == fs.Disk() && files0 == fs.files
    requires CursorMark(fs.g, fs.Disk(), fs.freeCursorBlock, fs.freeCursorEntry, b)
    ensures Between(fs, b, Cleaner(FindObjData, 0, 0, 0, 0, 0), lu0, v0, files0, Slack(fs, b, {}))
  {
    hide FreeSuffix, FreeBlank, CursorOk, DeletedPages, FreeBlocks, Consistent, SameContents, Slack, CursorMark,
         NoPages, FdsOk;
    SlackIs(fs, b);
    DrainingRefl(fs.g, lu0, v0, b);
    SameContentsRefl(v0, files0);
    NothingYet(fs.g, v0, b);
  }

  lemma CleaningEnds(fs: Spiffs, b: nat, c: Cleaner, lu0: seq<nat>, v0: Volume, files0: Files, slack: int)
    requires Between(fs, b, c, lu0, v0, files0, slack) && c.state == Finished
    ensures fs.Sound() && SameContents(v0, files0, fs.Disk(), fs.files) && NoPages(fs.g, fs.Disk(), b, fs.g.Entries())
    ensures Outside(fs.g, fs.freeCursorBlock, fs.freeCursorEntry, b) && StillTaken(lu0, fs.lu) && slack >= 0
    ensures NoPages(fs.g, v0, b, fs.g.Entries()) ==> fs.lu == lu0
  {
    hide FreeSuffix, FreeBlank, CursorOk, DeletedPages, FreeBlocks, Consistent, SameContents, Slack, CursorMark,
         NoPages, FdsOk, Outside, LuShape;
    Emptied(fs, b);
  }

  lemma SlackIs(fs: Spiffs, b: nat)
    requires fs.Sound()
    ensures LuShape(fs.g, fs.lu) && (EnoughFree(fs.g, fs.lu, fs.Disk(), b) <==> Slack(fs, b, {}) >= 0)
  {}

  /** An empty block needs no free pages, and the cursor is not behind any page in it. */
  lemma Emptied(fs: Spiffs, b: nat)
    requires fs.Sound() && b < fs.g.blocks && NoPages(fs.g, fs.Disk(), b, fs.g.Entries())
    requires CursorMark(fs.g, fs.Disk(), fs.freeCursorBlock, fs.freeCursorEntry, b)
    ensures LuShape(fs.g, fs.lu) && Slack(fs, b, {}) >= 0
    ensures Outside(fs.g, fs.freeCursorBlock, fs.freeCursorEntry, b)
  {
    forall p | p in fs.Disk()
      ensures fs.g.BlockOf(p) != b
    {
      assert !fs.g.IsLookupPage(p);
      EntryRoundTrip(fs.g, p);
    }
    NeedsNone(fs.g, fs.Disk(), b);
  }

  lemma NothingYet(g: Geometry, v: Volume, b: nat)
    requires g.Wf()
    ensures NoData(g, v, b, 0)
  {}

  lemma EvacuatedSame(v: Volume, fs: Files, x: nat, o: nat, work: Page, v': Volume, fs': Files, work': Page)
    requires Evacuated(v, fs, x, o, work, v', fs', work')
    ensures SameContents(Pending(v, x, o, work), fs, Pending(v', x, o, work'), fs')
  {}
}
