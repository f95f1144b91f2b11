/** The file system as a value: which live page holds what, and which pages make up each file.
    A volume maps the page index of every live page to its lookup entry and its contents. */
module Volumes {
  import opened Layout
  import opened Nor

  /** Page header flags; true is the erased value of a flag bit. */
  datatype Flags = Flags(used: bool, final: bool, index: bool, delet: bool, ixdele: bool)

  const ERASED_FLAGS := Flags(true, true, true, true, true)
  const DATA_FLAGS := Flags(false, false, true, true, true)

  /** A page: its header, and the rest read as the size and index of an index page or as data. */
  datatype Page = Page(id: Half, span: Half, flags: Flags, size: Word, ix: seq<Half>, data: seq<Byte>)

  datatype Cell = Cell(id: nat, page: Page)
  type Volume = map<nat, Cell>

  /** The pages of a file: its index pages in order, then its data pages in order. */
  datatype File = File(size: nat, ixp: seq<nat>, dap: seq<nat>)
  type Files = map<nat, File>

  predicate IsIx(id: nat) { id >= IX_FLAG }
  function Base(id: nat): nat { if IsIx(id) then id - IX_FLAG else id }
  function IxId(o: nat): nat { if IsIx(o) then o else o + IX_FLAG }

  /** What entry e of index page k holds for a file with data pages dap. */
  function EntryAt(g: Geometry, dap: seq<nat>, k: nat, e: nat): nat
    requires g.Wf()
  {
    if e < g.Cap(k) && g.FirstSpan(k) + e < |dap| then dap[g.FirstSpan(k) + e] else FREE
  }

  ghost predicate IndexCell(g: Geometry, c: Cell, o: nat, dap: seq<nat>, k: nat)
    requires g.Wf()
  {
    && c.id == o + IX_FLAG && c.page.id == o + IX_FLAG && c.page.span == k
    && !c.page.flags.used && !c.page.flags.final && !c.page.flags.index && c.page.flags.delet
    && (k > 0 ==> c.page.flags.ixdele)
    && |c.page.ix| == g.ixLen
    && forall e :: 0 <= e < g.ixLen ==> c.page.ix[e] == EntryAt(g, dap, k, e)
  }

  ghost predicate DataCell(g: Geometry, c: Cell, o: nat, s: nat) {
    c.id == o && c.page.id == o && c.page.span == s && c.page.flags == DATA_FLAGS && |c.page.data| == g.dataSize
  }

  ghost predicate IndexLinked(g: Geometry, v: Volume, o: nat, f: File)
    requires g.Wf()
  {
    forall k :: 0 <= k < |f.ixp| ==> f.ixp[k] in v && IndexCell(g, v[f.ixp[k]], o, f.dap, k)
  }

  ghost predicate DataLinked(g: Geometry, v: Volume, o: nat, f: File) {
    forall s :: 0 <= s < |f.dap| ==> f.dap[s] in v && DataCell(g, v[f.dap[s]], o, s)
  }

  /** Every live page of object o is the page of its file that its header says. */
  ghost predicate Owned(v: Volume, o: nat, f: File) {
    forall p :: p in v && Base(v[p].id) == o ==>
      var k := v[p].page.span;
      if IsIx(v[p].id) then k < |f.ixp| && f.ixp[k] == p else k < |f.dap| && f.dap[k] == p
  }

  /** Index pages and data pages of file o refer to each other exactly. */
  ghost predicate FileLinked(g: Geometry, v: Volume, o: nat, f: File)
    requires g.Wf()
  {
    && 1 <= o < IX_FLAG - 1
    && IndexLinked(g, v, o, f) && DataLinked(g, v, o, f) && Owned(v, o, f)
    && |f.dap| <= g.FirstSpan(|f.ixp|)
  }

  /** Every file is linked, and every live page belongs to a file. */
  ghost predicate Linked(g: Geometry, v: Volume, fs: Files)
    requires g.Wf()
  {
    && (forall o {:trigger FileLinked(g, v, o, fs[o])} :: o in fs ==> FileLinked(g, v, o, fs[o]))
    && (forall p {:trigger HasFile(g, v, fs, p)} :: p in v ==> HasFile(g, v, fs, p))
  }

  ghost predicate HasFile(g: Geometry, v: Volume, fs: Files, p: nat)
    requires p in v
  {
    p < g.Pages() && Base(v[p].id) in fs
  }

  function PageData(v: Volume, f: File): (d: seq<seq<Byte>>)
    ensures |d| == |f.dap|
  {
    seq<seq<Byte>>(|f.dap|, s requires 0 <= s < |f.dap| => if f.dap[s] in v then v[f.dap[s]].page.data else [])
  }

  /** The data pages hold size bytes, and what follows them in the last page is erased. */
  ghost predicate Sized(g: Geometry, pd: seq<seq<Byte>>, size: nat) {
    if |pd| == 0 then size == 0
    else
      && Times(|pd| - 1, g.dataSize) < size <= Times(|pd|, g.dataSize)
      && var last := pd[|pd| - 1];
         && |last| == g.dataSize
         && forall i :: size - Times(|pd| - 1, g.dataSize) <= i < g.dataSize ==> last[i] == 0xff
  }

  function Length(size: nat): nat { if size == UNDEFINED_LEN then 0 else size }

  /** The header of the file agrees with its data pages. */
  ghost predicate Settled(g: Geometry, v: Volume, f: File)
    requires g.Wf()
  {
    && |f.ixp| == (if |f.dap| == 0 then 1 else g.IxSpan(|f.dap| - 1) + 1)
    && f.ixp[0] in v
    && v[f.ixp[0]].page.size == f.size
    && v[f.ixp[0]].page.flags.ixdele
    && 1 <= f.size <= UNDEFINED_LEN
    && Sized(g, PageData(v, f), Length(f.size))
  }

  ghost predicate SettledBut(g: Geometry, v: Volume, fs: Files, skip: nat)
    requires g.Wf()
  {
    forall o {:trigger Settled(g, v, fs[o])} :: o in fs && o != skip ==> Settled(g, v, fs[o])
  }

  ghost predicate Consistent(g: Geometry, v: Volume, fs: Files)
    requires g.Wf()
  {
    Linked(g, v, fs) && SettledBut(g, v, fs, 0)
  }

  /** Nothing of any file but o has changed. */
  ghost predicate Kept(v: Volume, fs: Files, v': Volume, fs': Files, o: nat) {
    && (forall o2 :: o2 != o ==> (o2 in fs <==> o2 in fs'))
    && (forall o2 :: o2 != o && o2 in fs ==> fs'[o2] == fs[o2])
    && (forall p :: p in v && Base(v[p].id) != o ==> p in v' && v'[p] == v[p])
    && (forall p :: p in v' && Base(v'[p].id) != o ==> p in v && v'[p] == v[p])
  }

  lemma FileKept(g: Geometry, v: Volume, v': Volume, o: nat, f: File)
    requires g.Wf() && FileLinked(g, v, o, f)
    requires forall p :: p in v && Base(v[p].id) == o ==> p in v' && v'[p] == v[p]
    requires forall p :: p in v' && Base(v'[p].id) == o ==> p in v && v'[p] == v[p]
    ensures FileLinked(g, v', o, f) && PageData(v', f) == PageData(v, f)
  {
    assert forall k :: 0 <= k < |f.ixp| ==> v'[f.ixp[k]] == v[f.ixp[k]];
    assert forall s :: 0 <= s < |f.dap| ==> v'[f.dap[s]] == v[f.dap[s]];
  }

  /** What happens to one file leaves the others linked. */
  lemma Relink(g: Geometry, v: Volume, fs: Files, v': Volume, fs': Files, o: nat)
    requires g.Wf() && Linked(g, v, fs) && Kept(v, fs, v', fs', o) && 1 <= o < IX_FLAG - 1
    requires o in fs' ==> FileLinked(g, v', o, fs'[o])
    requires forall p :: p in v' && Base(v'[p].id) == o ==> o in fs' && (p in v || p < g.Pages())
    ensures Linked(g, v', fs')
  {
    forall o2 | o2 in fs' && o2 != o
      ensures FileLinked(g, v', o2, fs'[o2])
    {
      FileKept(g, v, v', o2, fs[o2]);
    }
    forall p | p in v'
      ensures HasFile(g, v', fs', p)
    {
      if p in v {
        assert HasFile(g, v, fs, p);
      }
    }
  }

  lemma KeptTrans(v: Volume, fs: Files, v': Volume, fs': Files, v'': Volume, fs'': Files, o: nat)
    requires Kept(v, fs, v', fs', o) && Kept(v', fs', v'', fs'', o)
    ensures Kept(v, fs, v'', fs'', o)
  {}

  lemma PagesWithin(g: Geometry, v: Volume, o: nat, f: File, f': File)
    requires g.Wf() && FileLinked(g, v, o, f) && FileLinked(g, v, o, f')
    ensures f.ixp <= f'.ixp && f.dap <= f'.dap
  {
    assert forall k :: 0 <= k < |f.ixp| ==> v[f.ixp[k]].page.span == k && f'.ixp[k] == f.ixp[k];
    assert forall s :: 0 <= s < |f.dap| ==> v[f.dap[s]].page.span == s && f'.dap[s] == f.dap[s];
    if |f.ixp| > 0 {
      assert v[f.ixp[|f.ixp| - 1]].page.span == |f.ixp| - 1;
    }
    if |f.dap| > 0 {
      assert v[f.dap[|f.dap| - 1]].page.span == |f.dap| - 1;
    }
  }

  lemma FileUnique(g: Geometry, v: Volume, o: nat, f: File, f': File)
    requires g.Wf() && FileLinked(g, v, o, f) && FileLinked(g, v, o, f') && Settled(g, v, f) && Settled(g, v, f')
    ensures f == f'
  {
    PagesWithin(g, v, o, f, f');
    PagesWithin(g, v, o, f', f);
  }

  lemma ConsistentFile(g: Geometry, v: Volume, fs: Files, o: nat)
    requires g.Wf() && Consistent(g, v, fs) && o in fs
    ensures FileLinked(g, v, o, fs[o]) && Settled(g, v, fs[o])
  {
    assert FileLinked(g, v, o, fs[o]);
  }

  lemma SettledOthers(g: Geometry, v: Volume, fs: Files, o: nat)
    requires g.Wf() && Consistent(g, v, fs)
    ensures SettledBut(g, v, fs, o)
  {
    forall o2 | o2 in fs && o2 != o
      ensures Settled(g, v, fs[o2])
    {
      ConsistentFile(g, v, fs, o2);
    }
  }

  lemma HeaderPage(g: Geometry, v: Volume, o: nat, f: File)
    requires g.Wf() && FileLinked(g, v, o, f) && Settled(g, v, f)
    ensures |f.ixp| > 0 && f.ixp[0] in v && Base(v[f.ixp[0]].id) == o
  {
    assert IndexCell(g, v[f.ixp[0]], o, f.dap, 0);
  }

  lemma KeptFiles(g: Geometry, v: Volume, fs: Files, v': Volume, fs': Files, o: nat)
    requires g.Wf() && Linked(g, v, fs) && Kept(v, fs, v', fs', o)
    ensures forall o2 {:trigger PageData(v', fs'[o2])} :: o2 in fs && o2 != o ==>
            PageData(v', fs'[o2]) == PageData(v, fs[o2])
    ensures SettledBut(g, v, fs, o) ==> SettledBut(g, v', fs', o)
  {
    forall o2 | o2 in fs && o2 != o
      ensures PageData(v', fs'[o2]) == PageData(v, fs[o2])
      ensures Settled(g, v, fs[o2]) ==> Settled(g, v', fs'[o2])
    {
      assert FileLinked(g, v, o2, fs[o2]);
      FileKept(g, v, v', o2, fs[o2]);
      if Settled(g, v, fs[o2]) {
        HeaderPage(g, v, o2, fs[o2]);
      }
    }
  }

  /** The flash contents determine the files: no two readings of one volume are consistent. */
  lemma FilesUnique(g: Geometry, v: Volume, fs: Files, fs': Files)
    requires g.Wf() && Consistent(g, v, fs) && Consistent(g, v, fs')
    ensures fs == fs'
  {
    forall o | o in fs || o in fs'
      ensures o in fs && o in fs' && fs[o] == fs'[o]
    {
      if o in fs {
        ConsistentFile(g, v, fs, o);
        HeaderPage(g, v, o, fs[o]);
        assert HasFile(g, v, fs', fs[o].ixp[0]);
      }
      if o in fs' {
        ConsistentFile(g, v, fs', o);
        HeaderPage(g, v, o, fs'[o]);
        assert HasFile(g, v, fs, fs'[o].ixp[0]);
      }
      ConsistentFile(g, v, fs, o);
      ConsistentFile(g, v, fs', o);
      FileUnique(g, v, o, fs[o], fs'[o]);
    }
  }

  // ---------- steps ----------

  function SetEntry(c: Cell, e: nat, p: nat): Cell
    requires e < |c.page.ix| && p <= FREE
  {
    c.(page := c.page.(ix := c.page.ix[e := p]))
  }

  predicate SameBut(a: seq<nat>, b: seq<nat>, s: nat) {
    && (forall i :: 0 <= i < |a| && i != s ==> i < |b| && b[i] == a[i])
    && (forall i :: 0 <= i < |b| && i != s ==> i < |a| && b[i] == a[i])
  }

  lemma SameAt(a: seq<nat>, b: seq<nat>, s: nat, i: nat)
    requires SameBut(a, b, s) && i != s
    ensures i < |a| <==> i < |b|
    ensures i < |a| ==> a[i] == b[i]
  {
    if i < |a| {
      var x := a[i];
    }
    if i < |b| {
      var x := b[i];
    }
  }

  /** Changing the data page at span s changes exactly one entry of one index page. */
  lemma EntryUpdate(g: Geometry, dap: seq<nat>, dap': seq<nat>, s: nat, k: nat, e: nat)
    requires g.Wf()
    requires SameBut(dap, dap', s)
    ensures (k, e) != (g.IxSpan(s), g.IxEntry(s)) ==> EntryAt(g, dap', k, e) == EntryAt(g, dap, k, e)
    ensures EntryAt(g, dap', g.IxSpan(s), g.IxEntry(s)) == if s < |dap'| then dap'[s] else FREE
  {
    SpanRoundTrip(g, s);
    if e < g.Cap(k) {
      EntrySpanRoundTrip(g, k, e);
      var i := g.FirstSpan(k) + e;
      if i != s {
        SameAt(dap, dap', s, i);
      }
    }
  }

  /** The index cells after the entry of span s has been brought up to date. */
  lemma EntryCells(g: Geometry, v: Volume, o: nat, f: File, s: nat, dap': seq<nat>)
    requires g.Wf() && IndexLinked(g, v, o, f) && g.IxSpan(s) < |f.ixp|
    requires SameBut(f.dap, dap', s) && (s < |dap'| ==> dap'[s] <= FREE)
    ensures g.IxEntry(s) < g.ixLen
    ensures forall k :: 0 <= k < |f.ixp| && k != g.IxSpan(s) ==> IndexCell(g, v[f.ixp[k]], o, dap', k)
    ensures IndexCell(g, SetEntry(v[f.ixp[g.IxSpan(s)]], g.IxEntry(s), if s < |dap'| then dap'[s] else FREE), o, dap',
                      g.IxSpan(s))
  {
    SpanRoundTrip(g, s);
    forall k, e | 0 <= k < |f.ixp|
      ensures (k, e) != (g.IxSpan(s), g.IxEntry(s)) ==> EntryAt(g, dap', k, e) == EntryAt(g, f.dap, k, e)
    {
      if 0 <= e {
        EntryUpdate(g, f.dap, dap', s, k, e);
      }
    }
    EntryUpdate(g, f.dap, dap', s, g.IxSpan(s), g.IxEntry(s));
  }

  // Each step comes twice: once for the file it changes, once for the whole volume.

  lemma RewriteIndexLocal(g: Geometry, v: Volume, o: nat, f: File, k: nat, c: Cell)
    requires g.Wf() && FileLinked(g, v, o, f) && k < |f.ixp| && IndexCell(g, c, o, f.dap, k)
    ensures var v' := v[f.ixp[k] := c]; FileLinked(g, v', o, f) && PageData(v', f) == PageData(v, f)
  {
    assert forall j :: 0 <= j < |f.ixp| && j != k ==> v[f.ixp[j]].page.span == j && f.ixp[j] != f.ixp[k];
    assert forall s :: 0 <= s < |f.dap| ==> v[f.dap[s]].id == o && f.dap[s] != f.ixp[k];
  }

  /** Rewriting an index page in place without touching its entries. */
  lemma RewriteIndex(g: Geometry, v: Volume, fs: Files, o: nat, k: nat, c: Cell)
    requires g.Wf() && Linked(g, v, fs) && o in fs && k < |fs[o].ixp|
    requires IndexCell(g, c, o, fs[o].dap, k)
    ensures var v' := v[fs[o].ixp[k] := c];
            Linked(g, v', fs) && Kept(v, fs, v', fs, o) && PageData(v', fs[o]) == PageData(v, fs[o])
  {
    RewriteIndexLocal(g, v, o, fs[o], k, c);
    Relink(g, v, fs, v[fs[o].ixp[k] := c], fs, o);
  }

  lemma RewriteDataLocal(g: Geometry, v: Volume, o: nat, f: File, s: nat, c: Cell)
    requires g.Wf() && FileLinked(g, v, o, f) && s < |f.dap| && DataCell(g, c, o, s)
    ensures var v' := v[f.dap[s] := c]; FileLinked(g, v', o, f) && PageData(v', f) == PageData(v, f)[s := c.page.data]
  {
    assert v[f.dap[s]].id == o;
    assert forall j :: 0 <= j < |f.ixp| ==> v[f.ixp[j]].id == o + IX_FLAG && f.ixp[j] != f.dap[s];
    assert forall t :: 0 <= t < |f.dap| && t != s ==> v[f.dap[t]].page.span == t && f.dap[t] != f.dap[s];
  }

  /** Writing into data page s in place. */
  lemma RewriteData(g: Geometry, v: Volume, fs: Files, o: nat, s: nat, c: Cell)
    requires g.Wf() && Linked(g, v, fs) && o in fs && s < |fs[o].dap| && DataCell(g, c, o, s)
    ensures var v' := v[fs[o].dap[s] := c];
            Linked(g, v', fs) && Kept(v, fs, v', fs, o) && PageData(v', fs[o]) == PageData(v, fs[o])[s := c.page.data]
  {
    RewriteDataLocal(g, v, o, fs[o], s, c);
    assert Base(v[fs[o].dap[s]].id) == o;
    Relink(g, v, fs, v[fs[o].dap[s] := c], fs, o);
  }

  lemma MoveIndexLocal(g: Geometry, v: Volume, o: nat, f: File, k: nat, q: nat, c: Cell)
    requires g.Wf() && FileLinked(g, v, o, f) && k < |f.ixp| && IndexCell(g, c, o, f.dap, k) && q !in v
    ensures var v', f' := (v - {f.ixp[k]})[q := c], f.(ixp := f.ixp[k := q]);
            FileLinked(g, v', o, f') && PageData(v', f') == PageData(v, f)
  {
    assert forall j :: 0 <= j < |f.ixp| && j != k ==> v[f.ixp[j]].page.span == j && f.ixp[j] != f.ixp[k];
    assert forall s :: 0 <= s < |f.dap| ==> v[f.dap[s]].id == o && f.dap[s] != f.ixp[k];
  }

  /** Storing index page k in a new page q instead of its old page. */
  lemma MoveIndex(g: Geometry, v: Volume, fs: Files, o: nat, k: nat, q: nat, c: Cell)
    requires g.Wf() && Linked(g, v, fs) && o in fs && k < |fs[o].ixp|
    requires IndexCell(g, c, o, fs[o].dap, k) && q !in v && q < g.Pages()
    ensures var v', fs' := (v - {fs[o].ixp[k]})[q := c], fs[o := fs[o].(ixp := fs[o].ixp[k := q])];
            Linked(g, v', fs') && Kept(v, fs, v', fs', o) && PageData(v', fs'[o]) == PageData(v, fs[o])
  {
    MoveIndexLocal(g, v, o, fs[o], k, q, c);
    Relink(g, v, fs, (v - {fs[o].ixp[k]})[q := c], fs[o := fs[o].(ixp := fs[o].ixp[k := q])], o);
  }

  /** The volume after data page s of file f has been stored in page q. */
  ghost function DataReplaced(g: Geometry, v: Volume, o: nat, f: File, s: nat, q: nat, c: Cell): Volume
    requires g.Wf() && FileLinked(g, v, o, f) && s < |f.dap| && q <= FREE
  {
    IxSpanBound(g, s, |f.ixp|);
    SpanRoundTrip(g, s);
    var x := f.ixp[g.IxSpan(s)];
    (v - {f.dap[s]})[q := c][x := SetEntry(v[x], g.IxEntry(s), q)]
  }

  lemma ReplaceDataLocal(g: Geometry, v: Volume, o: nat, f: File, s: nat, q: nat, c: Cell)
    requires g.Wf() && FileLinked(g, v, o, f) && s < |f.dap| && DataCell(g, c, o, s) && q !in v && q <= FREE
    ensures var v', f' := DataReplaced(g, v, o, f, s, q, c), f.(dap := f.dap[s := q]);
            FileLinked(g, v', o, f') && PageData(v', f') == PageData(v, f)[s := c.page.data]
  {
    hide Geometry.IxSpan, Geometry.IxEntry, Geometry.FirstSpan, EntryAt, IndexLinked, DataLinked, Owned, DataReplaced;
    ReplacedIndex(g, v, o, f, s, q, c);
    ReplacedData(g, v, o, f, s, q, c);
    ReplacedOwned(g, v, o, f, s, q, c);
  }

  lemma ReplacedIndex(g: Geometry, v: Volume, o: nat, f: File, s: nat, q: nat, c: Cell)
    requires g.Wf() && FileLinked(g, v, o, f) && s < |f.dap| && DataCell(g, c, o, s) && q !in v && q <= FREE
    ensures IndexLinked(g, DataReplaced(g, v, o, f, s, q, c), o, f.(dap := f.dap[s := q]))
  {
    hide Geometry.IxSpan, Geometry.IxEntry, Geometry.FirstSpan, EntryAt, Owned;
    IxSpanBound(g, s, |f.ixp|);
    EntryCells(g, v, o, f, s, f.dap[s := q]);
    var v' := DataReplaced(g, v, o, f, s, q, c);
    assert v[f.dap[s]].id == o;
    assert forall j :: 0 <= j < |f.ixp| && j != g.IxSpan(s) ==>
            v[f.ixp[j]].page.span == j && v'[f.ixp[j]] == v[f.ixp[j]];
  }

  lemma ReplacedData(g: Geometry, v: Volume, o: nat, f: File, s: nat, q: nat, c: Cell)
    requires g.Wf() && FileLinked(g, v, o, f) && s < |f.dap| && DataCell(g, c, o, s) && q !in v && q <= FREE
    ensures var v', f' := DataReplaced(g, v, o, f, s, q, c), f.(dap := f.dap[s := q]);
            DataLinked(g, v', o, f') && PageData(v', f') == PageData(v, f)[s := c.page.data]
  {
    hide Geometry.IxSpan, Geometry.IxEntry, Geometry.FirstSpan, EntryAt, Owned;
    IxSpanBound(g, s, |f.ixp|);
    var v' := DataReplaced(g, v, o, f, s, q, c);
    assert v[f.ixp[g.IxSpan(s)]].id == o + IX_FLAG;
    assert v[f.dap[s]].page.span == s;
    assert forall t :: 0 <= t < |f.dap| && t != s ==> v[f.dap[t]].page.span == t && v'[f.dap[t]] == v[f.dap[t]];
  }

  lemma ReplacedOwned(g: Geometry, v: Volume, o: nat, f: File, s: nat, q: nat, c: Cell)
    requires g.Wf() && FileLinked(g, v, o, f) && s < |f.dap| && DataCell(g, c, o, s) && q !in v && q <= FREE
    ensures Owned(DataReplaced(g, v, o, f, s, q, c), o, f.(dap := f.dap[s := q]))
  {
    hide Geometry.IxSpan, Geometry.IxEntry, Geometry.FirstSpan, EntryAt;
    IxSpanBound(g, s, |f.ixp|);
    assert v[f.dap[s]].page.span == s;
  }

  /** Storing data page s in a new page q, with the index entry updated. */
  lemma ReplaceData(g: Geometry, v: Volume, fs: Files, o: nat, s: nat, q: nat, c: Cell)
    requires g.Wf() && Linked(g, v, fs) && o in fs && s < |fs[o].dap|
    requires DataCell(g, c, o, s) && q !in v && q < g.Pages()
    ensures var v', fs' := DataReplaced(g, v, o, fs[o], s, q, c), fs[o := fs[o].(dap := fs[o].dap[s := q])];
            Linked(g, v', fs') && Kept(v, fs, v', fs', o)
                && PageData(v', fs'[o]) == PageData(v, fs[o])[s := c.page.data]
  {
    var f := fs[o];
    ReplaceDataLocal(g, v, o, f, s, q, c);
    IxSpanBound(g, s, |f.ixp|);
    var v', fs' := DataReplaced(g, v, o, f, s, q, c), fs[o := f.(dap := f.dap[s := q])];
    assert Base(v[f.dap[s]].id) == o && Base(v[f.ixp[g.IxSpan(s)]].id) == o;
    assert Kept(v, fs, v', fs', o);
    Relink(g, v, fs, v', fs', o);
  }

  /** The volume after a data page has been added to file f in page q. */
  ghost function DataAppended(g: Geometry, v: Volume, o: nat, f: File, q: nat, c: Cell): Volume
    requires g.Wf() && FileLinked(g, v, o, f) && g.IxSpan(|f.dap|) < |f.ixp| && q <= FREE
  {
    SpanRoundTrip(g, |f.dap|);
    var x := f.ixp[g.IxSpan(|f.dap|)];
    v[q := c][x := SetEntry(v[x], g.IxEntry(|f.dap|), q)]
  }

  lemma AppendDataLocal(g: Geometry, v: Volume, o: nat, f: File, q: nat, c: Cell)
    requires g.Wf() && FileLinked(g, v, o, f) && g.IxSpan(|f.dap|) < |f.ixp|
    requires DataCell(g, c, o, |f.dap|) && q !in v && q <= FREE
    ensures var v', f' := DataAppended(g, v, o, f, q, c), f.(dap := f.dap + [q]);
            FileLinked(g, v', o, f') && PageData(v', f') == PageData(v, f) + [c.page.data]
  {
    hide Geometry.IxSpan, Geometry.IxEntry, Geometry.FirstSpan, EntryAt;
    var s := |f.dap|;
    IxSpanBound(g, s, |f.ixp|);
    EntryCells(g, v, o, f, s, f.dap + [q]);
    var v' := DataAppended(g, v, o, f, q, c);
    assert forall j :: 0 <= j < |f.ixp| && j != g.IxSpan(s) ==>
            v[f.ixp[j]].page.span == j && v'[f.ixp[j]] == v[f.ixp[j]];
    assert forall t :: 0 <= t < |f.dap| ==> v[f.dap[t]].id == o && v'[f.dap[t]] == v[f.dap[t]];
  }

  /** Adding a data page at the end, with the index entry filled in. */
  lemma AppendData(g: Geometry, v: Volume, fs: Files, o: nat, q: nat, c: Cell)
    requires g.Wf() && Linked(g, v, fs) && o in fs && g.IxSpan(|fs[o].dap|) < |fs[o].ixp|
    requires DataCell(g, c, o, |fs[o].dap|) && q !in v && q < g.Pages()
    ensures var v', fs' := DataAppended(g, v, o, fs[o], q, c), fs[o := fs[o].(dap := fs[o].dap + [q])];
            Linked(g, v', fs') && Kept(v, fs, v', fs', o) && PageData(v', fs'[o]) == PageData(v, fs[o]) + [c.page.data]
  {
    var f := fs[o];
    AppendDataLocal(g, v, o, f, q, c);
    var v', fs' := DataAppended(g, v, o, f, q, c), fs[o := f.(dap := f.dap + [q])];
    assert Base(v[f.ixp[g.IxSpan(|f.dap|)]].id) == o;
    assert Kept(v, fs, v', fs', o);
    Relink(g, v, fs, v', fs', o);
  }

  /** The volume after the last data page of file f has been deleted. */
  ghost function DataDropped(g: Geometry, v: Volume, o: nat, f: File): Volume
    requires g.Wf() && FileLinked(g, v, o, f) && |f.dap| > 0
  {
    var s := |f.dap| - 1;
    IxSpanBound(g, s, |f.ixp|);
    SpanRoundTrip(g, s);
    var x := f.ixp[g.IxSpan(s)];
    (v - {f.dap[s]})[x := SetEntry(v[x], g.IxEntry(s), FREE)]
  }

  lemma DropDataLocal(g: Geometry, v: Volume, o: nat, f: File)
    requires g.Wf() && FileLinked(g, v, o, f) && |f.dap| > 0
    ensures var v', f' := DataDropped(g, v, o, f), f.(dap := f.dap[..|f.dap| - 1]);
            FileLinked(g, v', o, f') && PageData(v', f') == PageData(v, f)[..|f.dap| - 1]
  {
    hide Geometry.IxSpan, Geometry.IxEntry, Geometry.FirstSpan;
    var s := |f.dap| - 1;
    IxSpanBound(g, s, |f.ixp|);
    EntryCells(g, v, o, f, s, f.dap[..s]);
    var v' := DataDropped(g, v, o, f);
    assert v[f.dap[s]].id == o && v[f.dap[s]].page.span == s;
    assert forall j :: 0 <= j < |f.ixp| && j != g.IxSpan(s) ==>
            v[f.ixp[j]].page.span == j && v'[f.ixp[j]] == v[f.ixp[j]];
    assert forall t :: 0 <= t < s ==> v[f.dap[t]].page.span == t && v'[f.dap[t]] == v[f.dap[t]];
    assert Owned(v', o, f.(dap := f.dap[..s]));
  }

  /** Deleting the last data page, with its index entry reset. */
  lemma DropData(g: Geometry, v: Volume, fs: Files, o: nat)
    requires g.Wf() && Linked(g, v, fs) && o in fs && |fs[o].dap| > 0
    ensures var s := |fs[o].dap| - 1;
            var v', fs' := DataDropped(g, v, o, fs[o]), fs[o := fs[o].(dap := fs[o].dap[..s])];
            Linked(g, v', fs') && Kept(v, fs, v', fs', o) && PageData(v', fs'[o]) == PageData(v, fs[o])[..s]
  {
    var f, s := fs[o], |fs[o].dap| - 1;
    DropDataLocal(g, v, o, f);
    IxSpanBound(g, s, |f.ixp|);
    var v', fs' := DataDropped(g, v, o, f), fs[o := f.(dap := f.dap[..s])];
    assert Base(v[f.dap[s]].id) == o && Base(v[f.ixp[g.IxSpan(s)]].id) == o;
    assert Kept(v, fs, v', fs', o);
    Relink(g, v, fs, v', fs', o);
  }

  lemma AppendIndexLocal(g: Geometry, v: Volume, o: nat, f: File, q: nat, c: Cell)
    requires g.Wf() && FileLinked(g, v, o, f) && IndexCell(g, c, o, f.dap, |f.ixp|) && q !in v
    ensures var v', f' := v[q := c], f.(ixp := f.ixp + [q]);
            FileLinked(g, v', o, f') && PageData(v', f') == PageData(v, f)
  {
    FirstSpanMono(g, |f.ixp|, |f.ixp| + 1);
    assert forall k :: 0 <= k < |f.ixp| ==> f.ixp[k] in v;
    assert forall s :: 0 <= s < |f.dap| ==> f.dap[s] in v;
  }

  /** Adding an empty index page at the end. */
  lemma AppendIndex(g: Geometry, v: Volume, fs: Files, o: nat, q: nat, c: Cell)
    requires g.Wf() && Linked(g, v, fs) && o in fs
    requires IndexCell(g, c, o, fs[o].dap, |fs[o].ixp|) && q !in v && q < g.Pages()
    ensures var v', fs' := v[q := c], fs[o := fs[o].(ixp := fs[o].ixp + [q])];
            Linked(g, v', fs') && Kept(v, fs, v', fs', o) && PageData(v', fs'[o]) == PageData(v, fs[o])
  {
    AppendIndexLocal(g, v, o, fs[o], q, c);
    Relink(g, v, fs, v[q := c], fs[o := fs[o].(ixp := fs[o].ixp + [q])], o);
  }

  lemma DropIndexLocal(g: Geometry, v: Volume, o: nat, f: File)
    requires g.Wf() && FileLinked(g, v, o, f) && |f.ixp| > 0 && |f.dap| <= g.FirstSpan(|f.ixp| - 1)
    ensures var v', f' := v - {f.ixp[|f.ixp| - 1]}, f.(ixp := f.ixp[..|f.ixp| - 1]);
            FileLinked(g, v', o, f') && PageData(v', f') == PageData(v, f)
  {
    var k := |f.ixp| - 1;
    assert forall j :: 0 <= j < k ==> v[f.ixp[j]].page.span == j && f.ixp[j] != f.ixp[k];
    assert forall s :: 0 <= s < |f.dap| ==> v[f.dap[s]].id == o && f.dap[s] != f.ixp[k];
  }

  /** Deleting the last index page once nothing is left in it. */
  lemma DropIndex(g: Geometry, v: Volume, fs: Files, o: nat)
    requires g.Wf() && Linked(g, v, fs) && o in fs && |fs[o].ixp| > 0
    requires |fs[o].dap| <= g.FirstSpan(|fs[o].ixp| - 1)
    ensures var k := |fs[o].ixp| - 1;
            var v', fs' := v - {fs[o].ixp[k]}, fs[o := fs[o].(ixp := fs[o].ixp[..k])];
            Linked(g, v', fs') && Kept(v, fs, v', fs', o) && PageData(v', fs'[o]) == PageData(v, fs[o])
  {
    DropIndexLocal(g, v, o, fs[o]);
    var k := |fs[o].ixp| - 1;
    Relink(g, v, fs, v - {fs[o].ixp[k]}, fs[o := fs[o].(ixp := fs[o].ixp[..k])], o);
  }

  /** A new file: an index header page and nothing else. */
  lemma CreateFile(g: Geometry, v: Volume, fs: Files, o: nat, q: nat, c: Cell)
    requires g.Wf() && Linked(g, v, fs) && o !in fs && 1 <= o < IX_FLAG - 1
    requires IndexCell(g, c, o, [], 0) && q !in v && q < g.Pages()
    ensures var v', fs' := v[q := c], fs[o := File(UNDEFINED_LEN, [q], [])];
            Linked(g, v', fs') && Kept(v, fs, v', fs', o)
  {
    forall p | p in v
      ensures Base(v[p].id) != o
    {
      assert HasFile(g, v, fs, p);
    }
    Relink(g, v, fs, v[q := c], fs[o := File(UNDEFINED_LEN, [q], [])], o);
  }

  /** Removing a file that has only its index header page left. */
  lemma RemoveFile(g: Geometry, v: Volume, fs: Files, o: nat)
    requires g.Wf() && Linked(g, v, fs) && o in fs && |fs[o].ixp| == 1 && |fs[o].dap| == 0
    ensures var v', fs' := v - {fs[o].ixp[0]}, fs - {o};
            Linked(g, v', fs') && Kept(v, fs, v', fs', o)
  {
    assert FileLinked(g, v, o, fs[o]);
    Relink(g, v, fs, v - {fs[o].ixp[0]}, fs - {o}, o);
  }

  // ---------- moving pages ----------

  /** The same files with the same bytes, possibly in other pages. */
  ghost predicate SameContents(v: Volume, fs: Files, v': Volume, fs': Files) {
    && fs.Keys == fs'.Keys
    && forall o {:trigger SameFile(v, fs[o], v', fs'[o])} :: o in fs ==> SameFile(v, fs[o], v', fs'[o])
  }

  ghost predicate SameFile(v: Volume, f: File, v': Volume, f': File) {
    f'.size == f.size && |f'.ixp| == |f.ixp| && |f'.dap| == |f.dap| && PageData(v', f') == PageData(v, f)
  }

  lemma SameContentsTrans(v: Volume, fs: Files, v': Volume, fs': Files, v'': Volume, fs'': Files)
    requires SameContents(v, fs, v', fs') && SameContents(v', fs', v'', fs'')
    ensures SameContents(v, fs, v'', fs'')
  {
    forall o | o in fs
      ensures SameFile(v, fs[o], v'', fs''[o])
    {
      assert SameFile(v, fs[o], v', fs'[o]);
      assert SameFile(v', fs'[o], v'', fs''[o]);
    }
  }

  lemma SameContentsRefl(v: Volume, fs: Files)
    ensures SameContents(v, fs, v, fs)
  {}

  /** A step that keeps the other files and only moves pages of file o keeps everything. */
  lemma StepKeeps(g: Geometry, v: Volume, fs: Files, v': Volume, fs': Files, o: nat)
    requires g.Wf() && Consistent(g, v, fs) && Linked(g, v', fs') && Kept(v, fs, v', fs', o)
    requires o in fs && o in fs' && SameFile(v, fs[o], v', fs'[o])
    requires |fs'[o].ixp| > 0 && fs'[o].ixp[0] in v' && |fs[o].ixp| > 0 && fs[o].ixp[0] in v
    requires v'[fs'[o].ixp[0]].page.size == v[fs[o].ixp[0]].page.size
    requires v'[fs'[o].ixp[0]].page.flags.ixdele == v[fs[o].ixp[0]].page.flags.ixdele
    ensures Consistent(g, v', fs') && SameContents(v, fs, v', fs')
  {
    SettledOthers(g, v, fs, o);
    KeptFiles(g, v, fs, v', fs', o);
    ConsistentFile(g, v, fs, o);
    assert Settled(g, v', fs'[o]);
    assert fs.Keys == fs'.Keys;
    forall o2 | o2 in fs
      ensures SameFile(v, fs[o2], v', fs'[o2])
    {
      if o2 != o {
        assert PageData(v', fs'[o2]) == PageData(v, fs[o2]);
      }
    }
  }

  /** Moving a data page to page q, unchanged, with its index entry updated. */
  lemma MoveDataKeeps(g: Geometry, v: Volume, fs: Files, o: nat, s: nat, q: nat)
    requires g.Wf() && Consistent(g, v, fs) && o in fs && s < |fs[o].dap| && q !in v && q < g.Pages()
    ensures FileLinked(g, v, o, fs[o])
    ensures var v', fs' := DataReplaced(g, v, o, fs[o], s, q, v[fs[o].dap[s]]),
            fs[o := fs[o].(dap := fs[o].dap[s := q])];
            Consistent(g, v', fs') && SameContents(v, fs, v', fs') && Kept(v, fs, v', fs', o)
  {
    ConsistentFile(g, v, fs, o);
    var f := fs[o];
    var c := v[f.dap[s]];
    ReplaceData(g, v, fs, o, s, q, c);
    var v', fs' := DataReplaced(g, v, o, f, s, q, c), fs[o := f.(dap := f.dap[s := q])];
    assert PageData(v, f)[s] == c.page.data;
    HeaderPage(g, v, o, f);
    assert IndexCell(g, v[f.ixp[0]], o, f.dap, 0) && DataCell(g, c, o, s);
    IxSpanBound(g, s, |f.ixp|);
    assert f.ixp[0] == f.ixp[g.IxSpan(s)] || f.ixp[0] != f.ixp[g.IxSpan(s)];
    StepKeeps(g, v, fs, v', fs', o);
  }

  /** Moving an index page to page q, with the same entries and the same header fields. */
  lemma MoveIndexKeeps(g: Geometry, v: Volume, fs: Files, o: nat, k: nat, q: nat, c: Cell)
    requires g.Wf() && Consistent(g, v, fs) && o in fs && k < |fs[o].ixp| && q !in v && q < g.Pages()
    requires fs[o].ixp[k] in v && IndexCell(g, c, o, fs[o].dap, k)
    requires k == 0 ==>
              c.page.size == v[fs[o].ixp[k]].page.size && c.page.flags.ixdele == v[fs[o].ixp[k]].page.flags.ixdele
    ensures var v', fs' := (v - {fs[o].ixp[k]})[q := c], fs[o := fs[o].(ixp := fs[o].ixp[k := q])];
            Consistent(g, v', fs') && SameContents(v, fs, v', fs') && Kept(v, fs, v', fs', o)
  {
    ConsistentFile(g, v, fs, o);
    var f := fs[o];
    MoveIndex(g, v, fs, o, k, q, c);
    HeaderPage(g, v, o, f);
    assert IndexCell(g, v[f.ixp[0]], o, f.dap, 0) && IndexCell(g, v[f.ixp[k]], o, f.dap, k);
    StepKeeps(g, v, fs, (v - {f.ixp[k]})[q := c], fs[o := f.(ixp := f.ixp[k := q])], o);
  }
}
