/** A file while an operation is changing it: one of its index pages is in the work buffer. */
module Editing {
  import opened Nor
  import opened Layout
  import opened Volumes
  import opened Nucleus
  import opened Gc

  /** All files are linked, and all but o agree with their headers and descriptors. */
  ghost predicate Saved(g: Geometry, v: Volume, fs: Files, fds: seq<Fd>, o: nat)
    requires g.Wf()
  {
    && 1 <= o < IX_FLAG - 1 && o in fs
    && Linked(g, v, fs) && SettledBut(g, v, fs, o)
    && FdsLinked(fds, fs) && FdsSizedBut(fds, fs, o)
  }

  /** Index page k of file o is stored in page x of the volume. */
  predicate IndexAt(v: Volume, fs: Files, o: nat, k: nat, x: nat) {
    o in fs && k < |fs[o].ixp| && fs[o].ixp[k] == x && x in v && v[x].id == o + IX_FLAG
  }

  /** Index page k of file o, stored in page x, is in the work buffer, which may be ahead of the flash. */
  ghost predicate Draft(g: Geometry, v: Volume, fs: Files, fds: seq<Fd>, o: nat, k: nat, x: nat, work: Page)
    requires g.Wf()
  {
    IndexAt(v, fs, o, k, x) && Saved(g, Pending(v, x, o, work), fs, fds, o)
  }

  predicate HasHeader(v: Volume, f: File) { |f.ixp| > 0 && f.ixp[0] in v }

  /** The header page does not mark the file as being removed. */
  predicate HeaderLive(v: Volume, f: File) {
    HasHeader(v, f) && v[f.ixp[0]].page.flags.ixdele
  }

  /** The size that the header page gives. */
  function HeaderSize(v: Volume, f: File): nat {
    if |f.ixp| > 0 && f.ixp[0] in v then v[f.ixp[0]].page.size else 0
  }

  /** Nothing of the other files has changed, and the file's data pages hold pd. */
  ghost predicate Progress(v0: Volume, fs0: Files, v: Volume, fs: Files, o: nat, pd: seq<seq<Byte>>) {
    && Kept(v0, fs0, v, fs, o) && o in fs && PageData(v, fs[o]) == pd
    && HasHeader(v, fs[o]) && o in fs0 && HeaderLive(v, fs[o]) == HeaderLive(v0, fs0[o])
  }

  // ---------- beginning and end ----------

  lemma Begin(g: Geometry, v: Volume, fs: Files, fds: seq<Fd>, o: nat)
    requires g.Wf() && Consistent(g, v, fs) && FdsOk(fds, fs) && o in fs
    ensures Saved(g, v, fs, fds, o)
    ensures Progress(v, fs, v, fs, o, PageData(v, fs[o])) && HeaderLive(v, fs[o])
    ensures FileLinked(g, v, o, fs[o]) && Settled(g, v, fs[o])
    ensures IndexAt(v, fs, o, 0, fs[o].ixp[0])
  {
    ConsistentFile(g, v, fs, o);
    SettledOthers(g, v, fs, o);
    HeaderPage(g, v, o, fs[o]);
    IndexOf(g, v, o, fs[o], 0);
    forall i | 0 <= i < |fds| && Base(fds[i].objId) != o
      ensures FdSized(fds[i], fs)
    {
      assert FdLinked(fds[i], fs);
      if fds[i].fileNbr != 0 {
        ConsistentFile(g, v, fs, Base(fds[i].objId));
      }
    }
  }

  /** Any index page of a saved file can be loaded. */
  lemma SavedIndex(g: Geometry, v: Volume, fs: Files, fds: seq<Fd>, o: nat, k: nat)
    requires g.Wf() && Saved(g, v, fs, fds, o) && k < |fs[o].ixp|
    ensures FileLinked(g, v, o, fs[o]) && fs[o].ixp[k] in v && fs[o].ixp[k] < g.Pages()
    ensures IndexAt(v, fs, o, k, fs[o].ixp[k])
    ensures IndexCell(g, v[fs[o].ixp[k]], o, fs[o].dap, k)
    ensures Draft(g, v, fs, fds, o, k, fs[o].ixp[k], v[fs[o].ixp[k]].page)
    ensures Pending(v, fs[o].ixp[k], o, v[fs[o].ixp[k]].page) == v
    ensures ValidObjIx(v[fs[o].ixp[k]].page, o + IX_FLAG, k) == Ok
    ensures k > 0 ==> Matches(v[fs[o].ixp[k]].page, o + IX_FLAG, k, 0, fs[o].ixp[k])
  {
    assert FileLinked(g, v, o, fs[o]);
    IndexOf(g, v, o, fs[o], k);
    var x := fs[o].ixp[k];
    assert HasFile(g, v, fs, x);
    assert Pending(v, x, o, v[x].page) == v;
  }

  /** A search for an index page finds the file's own. */
  lemma SavedFound(g: Geometry, v: Volume, fs: Files, fds: seq<Fd>, o: nat, k: nat, x: nat)
    requires g.Wf() && Saved(g, v, fs, fds, o) && x in v && v[x].id == o + IX_FLAG
    requires Matches(v[x].page, o + IX_FLAG, k, 0, x)
    ensures k < |fs[o].ixp| && fs[o].ixp[k] == x
  {
    assert FileLinked(g, v, o, fs[o]);
  }

  /** The buffer of a draft is a proper index page. */
  lemma DraftIndex(g: Geometry, v: Volume, fs: Files, fds: seq<Fd>, o: nat, k: nat, x: nat, work: Page)
    requires g.Wf() && Draft(g, v, fs, fds, o, k, x, work)
    ensures IndexCell(g, Cell(o + IX_FLAG, work), o, fs[o].dap, k) && x in v
    ensures ValidObjIx(work, o + IX_FLAG, k) == Ok && work.span == k
    ensures work.(flags := work.flags.(used := false)) == work
    ensures FileLinked(g, Pending(v, x, o, work), o, fs[o])
  {
    var V := Pending(v, x, o, work);
    assert FileLinked(g, V, o, fs[o]);
    IndexOf(g, V, o, fs[o], k);
  }

  /** A saved file whose header gives its size is in order, and so is everything else. */
  lemma Finish(g: Geometry, v: Volume, fs: Files, fds: seq<Fd>, o: nat, size: nat)
    requires g.Wf() && Saved(g, v, fs, fds, o) && HeaderLive(v, fs[o])
    requires |fs[o].ixp| == (if |fs[o].dap| == 0 then 1 else g.IxSpan(|fs[o].dap| - 1) + 1)
    requires v[fs[o].ixp[0]].page.size == size && 1 <= size <= UNDEFINED_LEN
    requires Sized(g, PageData(v, fs[o]), Length(size))
    requires forall i :: 0 <= i < |fds| && Base(fds[i].objId) == o && fds[i].fileNbr != 0 ==>
            fds[i].size == size || (fds[i].size == 0 && size == UNDEFINED_LEN)
    ensures var fs' := fs[o := fs[o].(size := size)];
            && Consistent(g, v, fs') && FdsOk(fds, fs')
            && PageData(v, fs'[o]) == PageData(v, fs[o])
  {
    var f' := fs[o].(size := size);
    var fs' := fs[o := f'];
    assert PageData(v, f') == PageData(v, fs[o]);
    SizeRelinked(g, v, fs, o, size);
    forall o2 | o2 in fs'
      ensures Settled(g, v, fs'[o2])
    {
      assert o2 != o ==> Settled(g, v, fs[o2]);
    }
    FinishFds(fds, fs, o, size);
  }

  lemma SizeRelinked(g: Geometry, v: Volume, fs: Files, o: nat, size: nat)
    requires g.Wf() && Linked(g, v, fs) && o in fs
    ensures Linked(g, v, fs[o := fs[o].(size := size)])
  {
    var fs' := fs[o := fs[o].(size := size)];
    forall o2 | o2 in fs'
      ensures FileLinked(g, v, o2, fs'[o2])
    {
      assert FileLinked(g, v, o2, fs[o2]);
    }
    forall p | p in v
      ensures HasFile(g, v, fs', p)
    {
      assert HasFile(g, v, fs, p);
    }
  }

  lemma FinishFds(fds: seq<Fd>, fs: Files, o: nat, size: nat)
    requires FdsLinked(fds, fs) && FdsSizedBut(fds, fs, o) && o in fs
    requires forall i :: 0 <= i < |fds| && Base(fds[i].objId) == o && fds[i].fileNbr != 0 ==>
            fds[i].size == size || (fds[i].size == 0 && size == UNDEFINED_LEN)
    ensures FdsOk(fds, fs[o := fs[o].(size := size)])
  {
    var fs' := fs[o := fs[o].(size := size)];
    forall i | 0 <= i < |fds|
      ensures FdLinked(fds[i], fs') && FdSized(fds[i], fs')
    {
      assert FdLinked(fds[i], fs);
      if Base(fds[i].objId) != o {
        assert FdSized(fds[i], fs);
      }
    }
  }

  /** A file has no more data pages than the flash has pages, and no more index pages either. */
  lemma PageBound(g: Geometry, v: Volume, fs: Files, fds: seq<Fd>, o: nat)
    requires g.Wf() && Saved(g, v, fs, fds, o)
    ensures |fs[o].dap| <= g.Pages() <= FREE && |fs[o].ixp| <= g.Pages()
  {
    var f := fs[o];
    assert FileLinked(g, v, o, f);
    forall s | 0 <= s < |f.dap|
      ensures f.dap[s] < g.Pages() && v[f.dap[s]].page.span == s
    {
      assert HasFile(g, v, fs, f.dap[s]);
    }
    Pigeonhole(f.dap, g.Pages());
    forall k | 0 <= k < |f.ixp|
      ensures f.ixp[k] < g.Pages() && v[f.ixp[k]].page.span == k
    {
      assert HasFile(g, v, fs, f.ixp[k]);
    }
    Pigeonhole(f.ixp, g.Pages());
  }

  function Elements(s: seq<nat>): set<nat> { set x | x in s }

  lemma Pigeonhole(s: seq<nat>, n: nat)
    requires forall i :: 0 <= i < |s| ==> s[i] < n
    requires forall i, j :: 0 <= i < j < |s| ==> s[i] != s[j]
    ensures |s| <= n
  {
    Distinct(s);
    SubsetSize(Elements(s), Below(n));
  }

  lemma {:induction false} Distinct(s: seq<nat>)
    requires forall i, j :: 0 <= i < j < |s| ==> s[i] != s[j]
    ensures |Elements(s)| == |s|
  {
    if s != [] {
      var t, last := s[..|s| - 1], s[|s| - 1];
      Distinct(t);
      assert s == t + [last];
      assert Elements(s) == Elements(t) + {last};
    }
  }

  // ---------- descriptors ----------

  lemma FdsSizesKept(fds: seq<Fd>, fs: Files, fs': Files, o: nat)
    requires FdsSizedBut(fds, fs, o) && fs.Keys == fs'.Keys
            && (forall o2 :: o2 in fs && o2 != o ==> fs'[o2].size == fs[o2].size)
    ensures FdsSizedBut(fds, fs', o)
  {
    forall i | 0 <= i < |fds| && Base(fds[i].objId) != o
      ensures FdSized(fds[i], fs')
    {
      assert FdSized(fds[i], fs);
    }
  }

  /** Descriptors do not refer to data pages. */
  lemma FdsLinkedKept(fds: seq<Fd>, fs: Files, o: nat, f': File)
    requires FdsLinked(fds, fs) && o in fs && f'.ixp == fs[o].ixp
    ensures FdsLinked(fds, fs[o := f'])
  {
    forall i | 0 <= i < |fds|
      ensures FdLinked(fds[i], fs[o := f'])
    {
      assert FdLinked(fds[i], fs);
    }
  }

  /** A descriptor of the file may take an index page of the file as its cursor. */
  lemma CursorSet(g: Geometry, v: Volume, fs: Files, fds: seq<Fd>, o: nat, h: nat, k: nat, size: nat)
    requires g.Wf() && Saved(g, v, fs, fds, o) && h < |fds| && Base(fds[h].objId) == o && k < |fs[o].ixp|
    ensures Saved(g, v, fs, fds[h := fds[h].(cursorPix := fs[o].ixp[k], cursorSpix := k, size := size)], o)
    ensures Saved(g, v, fs, fds[h := fds[h].(size := size)], o)
  {
    assert FdLinked(fds[h], fs);
  }

  /** Announcing a new index page at the end keeps every descriptor right. */
  lemma IndexAdded(fds: seq<Fd>, fs: Files, ev: Event, raw: nat, q: nat)
    requires FdsLinked(fds, fs) && Base(raw) in fs && ev != IxDel && |fs[Base(raw)].ixp| > 0
    ensures var o := Base(raw);
            FdsLinked(FdsAfter(fds, ev, raw, |fs[o].ixp|, q, 0), fs[o := fs[o].(ixp := fs[o].ixp + [q])])
  {
    var o := Base(raw);
    var fs' := fs[o := fs[o].(ixp := fs[o].ixp + [q])];
    forall i | 0 <= i < |fds|
      ensures FdLinked(FdAfter(fds[i], ev, raw, |fs[o].ixp|, q, 0), fs')
    {
      assert FdLinked(fds[i], fs);
    }
  }

  /** Announcing where an index page is keeps every descriptor right. */
  lemma Announced(g: Geometry, v: Volume, fs: Files, fds: seq<Fd>, o: nat, k: nat, ev: Event, raw: nat, newSize: nat)
    requires g.Wf() && Saved(g, v, fs, fds, o) && k < |fs[o].ixp| && ev != IxDel && Base(raw) == o
    ensures Saved(g, v, fs, FdsAfter(fds, ev, raw, k, fs[o].ixp[k], newSize), o)
  {
    var q := fs[o].ixp[k];
    IndexMoved(fds, fs, ev, raw, k, q, newSize);
    assert fs[o].ixp[k := q] == fs[o].ixp;
    assert fs[o := fs[o].(ixp := fs[o].ixp[k := q])] == fs;
    SizesButKept(fds, fs, fs, ev, raw, k, q, newSize, o);
  }

  // ---------- data pages ----------

  lemma DraftStep(g: Geometry, v: Volume, fs: Files, fds: seq<Fd>, o: nat, v': Volume, fs': Files)
    requires g.Wf() && Saved(g, v, fs, fds, o) && Linked(g, v', fs') && Kept(v, fs, v', fs', o)
    requires o in fs' && fs'[o].ixp == fs[o].ixp
    ensures Saved(g, v', fs', fds, o)
  {
    KeptFiles(g, v, fs, v', fs', o);
    assert fs.Keys == fs'.Keys;
    FdsSizesKept(fds, fs, fs', o);
    FdsLinkedKept(fds, fs, o, fs'[o]);
    forall i | 0 <= i < |fds|
      ensures FdLinked(fds[i], fs')
    {
      assert FdLinked(fds[i], fs);
    }
  }

  /** The header survives what happens to other pages of the file. */
  lemma HeaderKept(g: Geometry, v: Volume, f: File, v': Volume, f': File)
    requires HasHeader(v, f) && f'.ixp == f.ixp
    requires f.ixp[0] in v' && v'[f.ixp[0]].page.flags == v[f.ixp[0]].page.flags
    ensures HasHeader(v', f') && HeaderLive(v', f') == HeaderLive(v, f)
  {}

  /** The data page c has been stored in page q, and the buffer refers to it. */
  lemma AppendStep(g: Geometry, v0: Volume, fs0: Files, v: Volume, fs: Files, fds: seq<Fd>, o: nat, k: nat, x: nat,
      work: Page, pd: seq<seq<Byte>>, q: nat, c: Cell)
    requires g.Wf() && Draft(g, v, fs, fds, o, k, x, work) && Progress(v0, fs0, Pending(v, x, o, work), fs, o, pd)
    requires k == g.IxSpan(|fs[o].dap|) && DataCell(g, c, o, |fs[o].dap|) && q !in v && q < g.Pages()
    ensures g.IxEntry(|fs[o].dap|) < |work.ix|
    ensures var v', fs', work' := v[q := c], fs[o := fs[o].(dap := fs[o].dap + [q])],
            work.(ix := work.ix[g.IxEntry(|fs[o].dap|) := q]);
            && Draft(g, v', fs', fds, o, k, x, work')
            && Progress(v0, fs0, Pending(v', x, o, work'), fs', o, pd + [c.page.data])
    ensures work.ix[g.IxEntry(|fs[o].dap|)] == FREE
  {
    hide FileLinked, Linked;
    var V, f, s := Pending(v, x, o, work), fs[o], |fs[o].dap|;
    DraftIndex(g, v, fs, fds, o, k, x, work);
    SpanRoundTrip(g, s);
    AppendData(g, V, fs, o, q, c);
    var fs', work' := fs[o := f.(dap := f.dap + [q])], work.(ix := work.ix[g.IxEntry(s) := q]);
    var V' := DataAppended(g, V, o, f, q, c);
    assert V' == Pending(v[q := c], x, o, work');
    DraftStep(g, V, fs, fds, o, V', fs');
    KeptTrans(v0, fs0, V, fs, V', fs', o);
    HeaderKept(g, V, f, V', fs'[o]);
  }

  /** Data page s has been written to in place. */
  lemma PatchStep(g: Geometry, v0: Volume, fs0: Files, v: Volume, fs: Files, fds: seq<Fd>, o: nat, k: nat, x: nat,
      work: Page, pd: seq<seq<Byte>>, s: nat, c: Cell)
    requires g.Wf() && Draft(g, v, fs, fds, o, k, x, work) && Progress(v0, fs0, Pending(v, x, o, work), fs, o, pd)
    requires s < |fs[o].dap| && DataCell(g, c, o, s)
    ensures var v' := v[fs[o].dap[s] := c];
            && Draft(g, v', fs, fds, o, k, x, work)
            && Progress(v0, fs0, Pending(v', x, o, work), fs, o, pd[s := c.page.data])
  {
    var V, f := Pending(v, x, o, work), fs[o];
    DraftIndex(g, v, fs, fds, o, k, x, work);
    RewriteData(g, V, fs, o, s, c);
    assert V[f.dap[s]].id == o;
    var V' := V[f.dap[s] := c];
    assert V' == Pending(v[f.dap[s] := c], x, o, work);
    DraftStep(g, V, fs, fds, o, V', fs);
    KeptTrans(v0, fs0, V, fs, V', fs, o);
    HeaderKept(g, V, f, V', f);
  }

  /** On the flash and in the buffer together that is what replacing a data page is. */
  lemma PendingReplaced(g: Geometry, v: Volume, x: nat, o: nat, work: Page, f: File, s: nat, q: nat, c: Cell)
    requires g.Wf() && FileLinked(g, Pending(v, x, o, work), o, f) && s < |f.dap| && q !in v && q <= FREE
    requires g.IxSpan(s) < |f.ixp| && f.ixp[g.IxSpan(s)] == x && x in v && f.dap[s] != x && g.IxEntry(s) < |work.ix|
    ensures DataReplaced(g, Pending(v, x, o, work), o, f, s, q, c)
            == Pending(v[q := c] - {f.dap[s]}, x, o, work.(ix := work.ix[g.IxEntry(s) := q]))
  {
    assert Pending(v, x, o, work)[x] == Cell(o + IX_FLAG, work) && q != x;
  }

  /** Data page s has been stored anew in page q, the old page deleted, and the buffer refers to the new one. */
  lemma ReplaceStep(g: Geometry, v0: Volume, fs0: Files, v: Volume, fs: Files, fds: seq<Fd>, o: nat, k: nat, x: nat,
      work: Page, pd: seq<seq<Byte>>, s: nat, q: nat, c: Cell)
    requires g.Wf() && Draft(g, v, fs, fds, o, k, x, work) && Progress(v0, fs0, Pending(v, x, o, work), fs, o, pd)
    requires s < |fs[o].dap| && k == g.IxSpan(s) && DataCell(g, c, o, s) && q !in v && q < g.Pages()
    ensures g.IxEntry(s) < |work.ix|
    ensures var v', fs', work' := v[q := c] - {fs[o].dap[s]}, fs[o := fs[o].(dap := fs[o].dap[s := q])],
            work.(ix := work.ix[g.IxEntry(s) := q]);
            && Draft(g, v', fs', fds, o, k, x, work')
            && Progress(v0, fs0, Pending(v', x, o, work'), fs', o, pd[s := c.page.data])
            && HeaderSize(Pending(v', x, o, work'), fs'[o]) == HeaderSize(Pending(v, x, o, work), fs[o])
  {
    hide FileLinked, Linked, DataReplaced, Geometry.IxSpan, Geometry.IxEntry;
    var V, f := Pending(v, x, o, work), fs[o];
    DraftIndex(g, v, fs, fds, o, k, x, work);
    DraftData(g, v, fs, fds, o, k, x, work, s);
    SpanRoundTrip(g, s);
    ReplaceData(g, V, fs, o, s, q, c);
    var fs', work' := fs[o := f.(dap := f.dap[s := q])], work.(ix := work.ix[g.IxEntry(s) := q]);
    var V' := DataReplaced(g, V, o, f, s, q, c);
    PendingReplaced(g, v, x, o, work, f, s, q, c);
    DraftStep(g, V, fs, fds, o, V', fs');
    KeptTrans(v0, fs0, V, fs, V', fs', o);
    HeaderKept(g, V, f, V', fs'[o]);
  }

  /** A data page of the file is on the flash, at the place the buffer says. */
  lemma DraftData(g: Geometry, v: Volume, fs: Files, fds: seq<Fd>, o: nat, k: nat, x: nat, work: Page, s: nat)
    requires g.Wf() && Draft(g, v, fs, fds, o, k, x, work) && s < |fs[o].dap|
    ensures fs[o].dap[s] in v && fs[o].dap[s] != x && fs[o].dap[s] < g.Pages() && fs[o].dap[s] !in fs[o].ixp
    ensures DataCell(g, v[fs[o].dap[s]], o, s)
    ensures PageData(Pending(v, x, o, work), fs[o])[s] == v[fs[o].dap[s]].page.data
    ensures g.IxEntry(s) < g.ixLen
    ensures k == g.IxSpan(s) ==> g.IxEntry(s) < |work.ix| && work.ix[g.IxEntry(s)] == fs[o].dap[s]
  {
    var V := Pending(v, x, o, work);
    DraftIndex(g, v, fs, fds, o, k, x, work);
    assert V[fs[o].dap[s]].id == o && V[x].id == o + IX_FLAG;
    assert HasFile(g, V, fs, fs[o].dap[s]);
    SpanRoundTrip(g, s);
    forall j | 0 <= j < |fs[o].ixp|
      ensures fs[o].ixp[j] != fs[o].dap[s]
    {
      assert V[fs[o].ixp[j]].id == o + IX_FLAG;
    }
  }

  // ---------- index pages ----------

  /** The buffer has been stored over page x. */
  lemma StoredInPlace(g: Geometry, v: Volume, fs: Files, fds: seq<Fd>, o: nat, k: nat, x: nat, work: Page)
    requires g.Wf() && Draft(g, v, fs, fds, o, k, x, work)
    ensures Saved(g, v[x := v[x].(page := work)], fs, fds, o) && v[x := v[x].(page := work)] == Pending(v, x, o, work)
  {}

  /** The buffer has been stored in page q instead of x, and that was announced. */
  lemma StoredAway(g: Geometry, v0: Volume, fs0: Files, v: Volume, fs: Files, fds: seq<Fd>, o: nat, k: nat, x: nat,
      work: Page, pd: seq<seq<Byte>>, q: nat, ev: Event, raw: nat, newSize: nat)
    requires g.Wf() && Draft(g, v, fs, fds, o, k, x, work) && Progress(v0, fs0, Pending(v, x, o, work), fs, o, pd)
    requires q !in v && q < g.Pages() && ev != IxDel && Base(raw) == o
    ensures var v', fs' := (v - {x})[q := Cell(o + IX_FLAG, work)], fs[o := fs[o].(ixp := fs[o].ixp[k := q])];
            && Saved(g, v', fs', FdsAfter(fds, ev, raw, k, q, newSize), o) && IndexAt(v', fs', o, k, q)
            && Progress(v0, fs0, v', fs', o, pd)
            && HeaderSize(v', fs'[o]) == HeaderSize(Pending(v, x, o, work), fs[o])
  {
    hide FileLinked, Linked, IndexCell;
    var V, f := Pending(v, x, o, work), fs[o];
    DraftIndex(g, v, fs, fds, o, k, x, work);
    MoveIndex(g, V, fs, o, k, q, Cell(o + IX_FLAG, work));
    var v', fs' := (v - {x})[q := Cell(o + IX_FLAG, work)], fs[o := f.(ixp := f.ixp[k := q])];
    assert (V - {x})[q := Cell(o + IX_FLAG, work)] == v';
    KeptFiles(g, V, fs, v', fs', o);
    IndexMoved(fds, fs, ev, raw, k, q, newSize);
    SizesButKept(fds, fs, fs', ev, raw, k, q, newSize, o);
    KeptTrans(v0, fs0, V, fs, v', fs', o);
    if k > 0 {
      IndexApart(g, V, o, f, k);
    }
    HeaderMoved(g, V, f, k, q, Cell(o + IX_FLAG, work));
  }

  lemma IndexApart(g: Geometry, v: Volume, o: nat, f: File, k: nat)
    requires g.Wf() && FileLinked(g, v, o, f) && 0 < k < |f.ixp|
    ensures f.ixp[0] != f.ixp[k]
  {
    IndexOf(g, v, o, f, 0);
    IndexOf(g, v, o, f, k);
  }

  lemma HeaderMoved(g: Geometry, v: Volume, f: File, k: nat, q: nat, c: Cell)
    requires HasHeader(v, f) && k < |f.ixp| && f.ixp[k] in v
    requires (k == 0 ==> c.page.flags.ixdele == v[f.ixp[0]].page.flags.ixdele)
    requires q !in v && (k > 0 ==> f.ixp[0] != f.ixp[k])
    ensures var v', f' := (v - {f.ixp[k]})[q := c], f.(ixp := f.ixp[k := q]);
            HasHeader(v', f') && HeaderLive(v', f') == HeaderLive(v, f)
  {}

  lemma SizesButKept(fds: seq<Fd>, fs: Files, fs': Files, ev: Event, raw: nat, k: nat, q: nat, newSize: nat, o: nat)
    requires FdsSizedBut(fds, fs, o) && fs'.Keys == fs.Keys && Base(raw) == o && ev != IxDel
    requires forall o2 :: o2 in fs && o2 != o ==> fs'[o2].size == fs[o2].size
    ensures FdsSizedBut(FdsAfter(fds, ev, raw, k, q, newSize), fs', o)
  {
    forall i | 0 <= i < |fds| && Base(FdAfter(fds[i], ev, raw, k, q, newSize).objId) != o
      ensures FdSized(FdAfter(fds[i], ev, raw, k, q, newSize), fs')
    {
      assert FdSized(fds[i], fs);
    }
  }

  /** The buffer may take another version of the index page that has the same entries. */
  lemma Retouch(g: Geometry, v0: Volume, fs0: Files, v: Volume, fs: Files, fds: seq<Fd>, o: nat, k: nat, x: nat,
      work: Page, pd: seq<seq<Byte>>, work': Page)
    requires g.Wf() && Draft(g, v, fs, fds, o, k, x, work) && Progress(v0, fs0, Pending(v, x, o, work), fs, o, pd)
    requires work'.(size := work.size) == work
    ensures Draft(g, v, fs, fds, o, k, x, work') && Progress(v0, fs0, Pending(v, x, o, work'), fs, o, pd)
  {
    var V, V', f := Pending(v, x, o, work), Pending(v, x, o, work'), fs[o];
    DraftIndex(g, v, fs, fds, o, k, x, work);
    RewriteIndex(g, V, fs, o, k, Cell(o + IX_FLAG, work'));
    assert V' == V[x := Cell(o + IX_FLAG, work')];
    DraftStep(g, V, fs, fds, o, V', fs);
    KeptTrans(v0, fs0, V, fs, V', fs, o);
    HeaderKept(g, V, f, V', f);
  }

  /** An empty index page has been added in page q, and that was announced. */
  lemma NewIndexStep(g: Geometry, v0: Volume, fs0: Files, v: Volume, fs: Files, fds: seq<Fd>, o: nat,
      pd: seq<seq<Byte>>, q: nat, c: Cell, raw: nat)
    requires g.Wf() && Saved(g, v, fs, fds, o) && Progress(v0, fs0, v, fs, o, pd)
    requires IndexCell(g, c, o, [], |fs[o].ixp|) && q !in v && q < g.Pages() && Base(raw) == o
    ensures var v', fs' := v[q := c], fs[o := fs[o].(ixp := fs[o].ixp + [q])];
            && Saved(g, v', fs', FdsAfter(fds, IxNew, raw, |fs[o].ixp|, q, 0), o) && IndexAt(v', fs', o, |fs[o].ixp|, q)
            && Progress(v0, fs0, v', fs', o, pd)
  {
    var f := fs[o];
    var v', fs' := v[q := c], fs[o := f.(ixp := f.ixp + [q])];
    assert FileLinked(g, v, o, f);
    assert forall e :: 0 <= e < g.ixLen ==> EntryAt(g, f.dap, |f.ixp|, e) == EntryAt(g, [], |f.ixp|, e);
    AppendIndex(g, v, fs, o, q, c);
    KeptFiles(g, v, fs, v', fs', o);
    IndexAdded(fds, fs, IxNew, raw, q);
    SizesButKept(fds, fs, fs', IxNew, raw, |f.ixp|, q, 0, o);
    KeptTrans(v0, fs0, v, fs, v', fs', o);
  }

  /** What is known even when an operation has failed half-way: the other files. */
  lemma PendingKept(v0: Volume, fs0: Files, v: Volume, fs: Files, o: nat, k: nat, x: nat, work: Page)
    requires Kept(v0, fs0, Pending(v, x, o, work), fs, o) && IndexAt(v, fs, o, k, x) && o < IX_FLAG
    ensures Kept(v0, fs0, v, fs, o)
  {}

  /** Every file but o still has its bytes, and is in order. */
  ghost predicate OthersSame(g: Geometry, v: Volume, fs: Files, v': Volume, fs': Files, o: nat)
    requires g.Wf()
  {
    && (forall o2 :: o2 != o ==> (o2 in fs <==> o2 in fs'))
    && (forall o2 {:trigger SameFile(v, fs[o2], v', fs'[o2])} :: o2 != o && o2 in fs ==>
          SameFile(v, fs[o2], v', fs'[o2]) && FileLinked(g, v', o2, fs'[o2]) && Settled(g, v', fs'[o2]))
  }

  lemma OthersAreSame(g: Geometry, v: Volume, fs: Files, v1: Volume, fs1: Files, v': Volume, fs': Files, o: nat)
    requires g.Wf() && SameContents(v, fs, v1, fs1) && Consistent(g, v1, fs1) && Kept(v1, fs1, v', fs', o)
    ensures OthersSame(g, v, fs, v', fs', o)
  {
    forall o2 | o2 != o && o2 in fs
      ensures SameFile(v, fs[o2], v', fs'[o2]) && FileLinked(g, v', o2, fs'[o2]) && Settled(g, v', fs'[o2])
    {
      ConsistentFile(g, v1, fs1, o2);
      FileKept(g, v1, v', o2, fs1[o2]);
      HeaderPage(g, v1, o2, fs1[o2]);
      assert SameFile(v, fs[o2], v1, fs1[o2]);
    }
  }
}
