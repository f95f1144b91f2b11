/** What is left of a file when an operation on it ends early: whether its live pages can still be read as bytes, and
    as which. */
module Remains {
  import opened Nor
  import opened Layout
  import opened Volumes
  import opened Contents
  import opened Gc
  import opened Editing

  /** The index pages of f are all that object o has. */
  ghost predicate IndexOwned(v: Volume, o: nat, f: File) {
    forall p :: p in v && v[p].id == o + IX_FLAG ==> v[p].page.span < |f.ixp| && f.ixp[v[p].page.span] == p
  }

  /** Starting from its header, and following the entries of its index pages, file o reads as the bytes c. There may be
      data pages of the object that no index page names. */
  ghost predicate ReadsWith(g: Geometry, v: Volume, o: nat, f: File, c: seq<Byte>)
    requires g.Wf()
  {
    && |f.ixp| > 0 && IndexLinked(g, v, o, f) && IndexOwned(v, o, f)
    && DataLinked(g, v, o, f) && |f.dap| <= g.FirstSpan(|f.ixp|) && (forall s :: 0 <= s < |f.dap| ==> f.dap[s] < FREE)
    && v[f.ixp[0]].page.flags.ixdele
    && var n := Length(v[f.ixp[0]].page.size);
       n <= Times(|f.dap|, g.dataSize) && c == Flatten(PageData(v, f), g.dataSize, n)
  }

  ghost predicate Reads(g: Geometry, v: Volume, o: nat, c: seq<Byte>)
    requires g.Wf()
  {
    exists f :: ReadsWith(g, v, o, f, c)
  }

  /** The header promises bytes that no live page holds any more, or an index page names a page that is not the data
      page it should be. */
  ghost predicate Torn(g: Geometry, v: Volume, o: nat)
    requires g.Wf()
  {
    forall c :: !Reads(g, v, o, c)
  }

  /** What file o could be read as, if that was not more than n bytes, it can still be read as. */
  ghost predicate StillReads(g: Geometry, v: Volume, v': Volume, o: nat, n: nat)
    requires g.Wf()
  {
    forall c :: |c| <= n && Reads(g, v, o, c) ==> Reads(g, v', o, c)
  }

  lemma StillReadsRefl(g: Geometry, v: Volume, o: nat, n: nat)
    requires g.Wf()
    ensures StillReads(g, v, v, o, n)
  {}

  lemma SameIndex(g: Geometry, v: Volume, o: nat, f: File, f': File)
    requires g.Wf() && IndexLinked(g, v, o, f) && IndexOwned(v, o, f) && IndexLinked(g, v, o, f')
            && IndexOwned(v, o, f')
    ensures f.ixp == f'.ixp
  {
    hide IndexLinked, IndexOwned;
    if |f.ixp| > |f'.ixp| {
      IndexIn(g, v, o, f, |f'.ixp|, f');
    } else if |f'.ixp| > |f.ixp| {
      IndexIn(g, v, o, f', |f.ixp|, f);
    } else {
      forall k | 0 <= k < |f.ixp|
        ensures f'.ixp[k] == f.ixp[k]
      {
        IndexIn(g, v, o, f, k, f');
      }
    }
  }

  lemma IndexIn(g: Geometry, v: Volume, o: nat, f: File, k: nat, f': File)
    requires g.Wf() && IndexLinked(g, v, o, f) && IndexOwned(v, o, f') && k < |f.ixp|
    ensures k < |f'.ixp| && f'.ixp[k] == f.ixp[k]
  {
    assert IndexCell(g, v[f.ixp[k]], o, f.dap, k);
  }

  /** The entry of data page s. */
  lemma EntryIs(g: Geometry, v: Volume, o: nat, f: File, s: nat)
    requires g.Wf() && IndexLinked(g, v, o, f) && s < |f.dap| <= g.FirstSpan(|f.ixp|)
    ensures var k, e := g.IxSpan(s), g.IxEntry(s);
            && k < |f.ixp| && f.ixp[k] in v && e < g.Cap(k) && g.FirstSpan(k) + e == s
            && e < |v[f.ixp[k]].page.ix| && v[f.ixp[k]].page.ix[e] == f.dap[s]
  {
    var k := g.IxSpan(s);
    SpanRoundTrip(g, s);
    IxSpanBound(g, s, |f.ixp|);
    assert IndexCell(g, v[f.ixp[k]], o, f.dap, k);
  }

  /** There is at most one way to read a file. */
  lemma ReadsOnce(g: Geometry, v: Volume, o: nat, c: seq<Byte>, c': seq<Byte>)
    requires g.Wf() && Reads(g, v, o, c) && Reads(g, v, o, c')
    ensures c == c'
  {
    hide IndexLinked, IndexOwned, DataLinked, Flatten, PageData;
    var f :| ReadsWith(g, v, o, f, c);
    var f' :| ReadsWith(g, v, o, f', c');
    SameIndex(g, v, o, f, f');
    NoMore(g, v, o, f, f');
    NoMore(g, v, o, f', f);
    assert f.dap == f'.dap;
    PagesOnly(v, f, f');
  }

  lemma PagesOnly(v: Volume, f: File, f': File)
    requires f.dap == f'.dap
    ensures PageData(v, f) == PageData(v, f')
  {}

  lemma DataOnly(g: Geometry, v: Volume, o: nat, f: File, f': File)
    requires f.dap == f'.dap && DataLinked(g, v, o, f)
    ensures DataLinked(g, v, o, f')
  {}

  lemma NoMore(g: Geometry, v: Volume, o: nat, f: File, f': File)
    requires g.Wf() && IndexLinked(g, v, o, f) && IndexLinked(g, v, o, f') && f.ixp == f'.ixp
    requires |f.dap| <= g.FirstSpan(|f.ixp|) && forall s :: 0 <= s < |f.dap| ==> f.dap[s] < FREE
    ensures f.dap <= f'.dap
  {
    hide IndexLinked;
    if |f.dap| > |f'.dap| {
      NamedToo(g, v, o, f, f', |f'.dap|);
    }
    forall s | 0 <= s < |f.dap|
      ensures f'.dap[s] == f.dap[s]
    {
      NamedToo(g, v, o, f, f', s);
    }
  }

  lemma NamedToo(g: Geometry, v: Volume, o: nat, f: File, f': File, s: nat)
    requires g.Wf() && IndexLinked(g, v, o, f) && IndexLinked(g, v, o, f') && f.ixp == f'.ixp
    requires s < |f.dap| <= g.FirstSpan(|f.ixp|) && f.dap[s] < FREE
    ensures s < |f'.dap| && f'.dap[s] == f.dap[s]
  {
    hide IndexLinked;
    EntryIs(g, v, o, f, s);
    NamedEntry(g, v, o, f', g.IxSpan(s), g.IxEntry(s));
  }

  /** An entry that is not free names the data page of its span. */
  lemma NamedEntry(g: Geometry, v: Volume, o: nat, f: File, k: nat, e: nat)
    requires g.Wf() && IndexLinked(g, v, o, f) && k < |f.ixp| && e < g.Cap(k)
    ensures f.ixp[k] in v && e < |v[f.ixp[k]].page.ix|
    ensures var p, s := v[f.ixp[k]].page.ix[e], g.FirstSpan(k) + e; p != FREE ==> s < |f.dap| && f.dap[s] == p
  {
    assert IndexCell(g, v[f.ixp[k]], o, f.dap, k);
  }

  /** A file whose pages refer to each other exactly reads as the bytes its header promises, if it has them. */
  lemma LinkedReads(g: Geometry, v: Volume, o: nat, f: File)
    requires g.Wf() && FileLinked(g, v, o, f) && HeaderLive(v, f) && forall s :: 0 <= s < |f.dap| ==> f.dap[s] < FREE
    requires Length(v[f.ixp[0]].page.size) <= Times(|f.dap|, g.dataSize)
    ensures Reads(g, v, o, Flatten(PageData(v, f), g.dataSize, Length(v[f.ixp[0]].page.size)))
  {
    hide IndexLinked, DataLinked, Flatten, PageData;
    assert IndexOwned(v, o, f);
    assert ReadsWith(g, v, o, f, Flatten(PageData(v, f), g.dataSize, Length(v[f.ixp[0]].page.size)));
  }

  /** A file in order reads as its bytes. */
  lemma FileReads(g: Geometry, v: Volume, o: nat, f: File)
    requires g.Wf() && FileLinked(g, v, o, f) && Settled(g, v, f) && forall s :: 0 <= s < |f.dap| ==> f.dap[s] < FREE
    ensures Reads(g, v, o, Flatten(PageData(v, f), g.dataSize, Length(f.size)))
  {
    hide FileLinked, Flatten;
    LinkedReads(g, v, o, f);
  }

  // ---------- what keeps a file readable ----------

  /** A new data page, that no index page names. */
  lemma PageAdded(g: Geometry, v: Volume, o: nat, q: nat, c: Cell, n: nat)
    requires g.Wf() && q !in v && c.id != o + IX_FLAG
    ensures StillReads(g, v, v[q := c], o, n)
  {
    hide IndexLinked, DataLinked, IndexOwned, Flatten, PageData;
    forall b | Reads(g, v, o, b)
      ensures Reads(g, v[q := c], o, b)
    {
      var f :| ReadsWith(g, v, o, f, b);
      SameCells(g, v, v[q := c], o, f);
      OwnedStill(v, o, f, q, c);
      assert ReadsWith(g, v[q := c], o, f, b);
    }
  }

  lemma OwnedStill(v: Volume, o: nat, f: File, q: nat, c: Cell)
    requires IndexOwned(v, o, f) && c.id != o + IX_FLAG
    ensures IndexOwned(v[q := c], o, f)
  {}

  lemma SameCells(g: Geometry, v: Volume, v': Volume, o: nat, f: File)
    requires g.Wf() && IndexLinked(g, v, o, f) && DataLinked(g, v, o, f)
    requires forall p :: p in v ==> p in v' && v'[p] == v[p]
    ensures IndexLinked(g, v', o, f) && DataLinked(g, v', o, f) && PageData(v', f) == PageData(v, f)
    ensures |f.ixp| > 0 ==> f.ixp[0] in v && v'[f.ixp[0]] == v[f.ixp[0]]
  {
    assert forall k :: 0 <= k < |f.ixp| ==> v'[f.ixp[k]] == v[f.ixp[k]];
    assert forall s :: 0 <= s < |f.dap| ==> v'[f.dap[s]] == v[f.dap[s]];
  }

  /** More bytes in a data page, past the end. */
  lemma PageFilled(g: Geometry, v: Volume, o: nat, p: nat, s: nat, c: Cell, n: nat, po: nat)
    requires g.Wf() && p in v && DataCell(g, v[p], o, s) && DataCell(g, c, o, s) && po <= g.dataSize
    requires n <= Times(s, g.dataSize) + po && c.page.data[..po] == v[p].page.data[..po]
    ensures StillReads(g, v, v[p := c], o, n)
  {
    hide IndexLinked, DataLinked, IndexOwned, DataCell, Flatten, PageData;
    var v' := v[p := c];
    NotIndex(g, c, o, s);
    forall b | |b| <= n && Reads(g, v, o, b)
      ensures Reads(g, v', o, b)
    {
      var f :| ReadsWith(g, v, o, f, b);
      IndexApartFrom(g, v, o, f, p, s, c);
      SameStart(g, v, o, f, p, s, c, |b|, po);
      OwnedStill(v, o, f, p, c);
      assert ReadsWith(g, v', o, f, b);
    }
  }

  lemma NotIndex(g: Geometry, c: Cell, o: nat, s: nat)
    requires DataCell(g, c, o, s)
    ensures c.id == o
  {}

  lemma IndexApartFrom(g: Geometry, v: Volume, o: nat, f: File, p: nat, s: nat, c: Cell)
    requires g.Wf() && IndexLinked(g, v, o, f) && DataLinked(g, v, o, f) && p in v
    requires DataCell(g, v[p], o, s) && DataCell(g, c, o, s)
    ensures IndexLinked(g, v[p := c], o, f) && DataLinked(g, v[p := c], o, f)
    ensures |f.ixp| > 0 ==> f.ixp[0] in v && v[p := c][f.ixp[0]] == v[f.ixp[0]]
  {
    forall k | 0 <= k < |f.ixp|
      ensures f.ixp[k] in v && f.ixp[k] != p && IndexCell(g, v[p := c][f.ixp[k]], o, f.dap, k)
    {
      assert IndexCell(g, v[f.ixp[k]], o, f.dap, k);
    }
    forall t | 0 <= t < |f.dap|
      ensures f.dap[t] in v && DataCell(g, v[p := c][f.dap[t]], o, t)
    {
      assert DataCell(g, v[f.dap[t]], o, t);
    }
  }

  lemma SameStart(g: Geometry, v: Volume, o: nat, f: File, p: nat, s: nat, c: Cell, n: nat, po: nat)
    requires g.Wf() && DataLinked(g, v, o, f) && p in v && DataCell(g, v[p], o, s) && DataCell(g, c, o, s)
    requires n <= Times(s, g.dataSize) + po && po <= g.dataSize && c.page.data[..po] == v[p].page.data[..po]
    ensures Flatten(PageData(v[p := c], f), g.dataSize, n) == Flatten(PageData(v, f), g.dataSize, n)
  {
    hide DataLinked;
    var pd, pd' := PageData(v, f), PageData(v[p := c], f);
    forall i | 0 <= i < n
      ensures ByteAt(pd', g.dataSize, i) == ByteAt(pd, g.dataSize, i)
    {
      var t, r := Quot(i, g.dataSize), Rem(i, g.dataSize);
      QuotRem(i, g.dataSize);
      if t < |f.dap| {
        DataAt(g, v, o, f, t);
        if f.dap[t] == p {
          assert t == s && r < po;
          assert c.page.data[r] == c.page.data[..po][r] && v[p].page.data[r] == v[p].page.data[..po][r];
        }
      }
    }
  }

  lemma DataAt(g: Geometry, v: Volume, o: nat, f: File, s: nat)
    requires DataLinked(g, v, o, f) && s < |f.dap|
    ensures f.dap[s] in v && DataCell(g, v[f.dap[s]], o, s)
  {}

  /** A new index page at the end, that names nothing. */
  lemma IndexPageAdded(g: Geometry, v: Volume, o: nat, f: File, q: nat, c: Cell, n: nat)
    requires g.Wf() && FileLinked(g, v, o, f) && q !in v && IndexCell(g, c, o, [], |f.ixp|)
    ensures StillReads(g, v, v[q := c], o, n)
  {
    hide FileLinked, IndexLinked, DataLinked, IndexOwned, IndexCell, Flatten, PageData, Geometry.FirstSpan;
    var v' := v[q := c];
    LinkedParts(g, v, o, f);
    forall b | Reads(g, v, o, b)
      ensures Reads(g, v', o, b)
    {
      var r :| ReadsWith(g, v, o, r, b);
      SameIndex(g, v, o, f, r);
      var r' := r.(ixp := r.ixp + [q]);
      FirstSpanMono(g, |r.ixp|, |r.ixp| + 1);
      SameCells(g, v, v', o, r);
      EmptyIndex(g, v', o, r, q, c);
      OwnedMore(g, v, o, r, q, c);
      PagesOnly(v', r, r');
      DataOnly(g, v', o, r, r');
      assert ReadsWith(g, v', o, r', b);
    }
  }

  lemma OwnedMore(g: Geometry, v: Volume, o: nat, r: File, q: nat, c: Cell)
    requires g.Wf() && IndexOwned(v, o, r) && q !in v && IndexCell(g, c, o, [], |r.ixp|)
    ensures IndexOwned(v[q := c], o, r.(ixp := r.ixp + [q]))
  {}

  lemma EmptyIndex(g: Geometry, v: Volume, o: nat, r: File, q: nat, c: Cell)
    requires g.Wf() && IndexLinked(g, v, o, r) && q in v && v[q] == c && IndexCell(g, c, o, [], |r.ixp|)
    requires |r.dap| <= g.FirstSpan(|r.ixp|)
    ensures IndexLinked(g, v, o, r.(ixp := r.ixp + [q]))
  {
    forall e | 0 <= e < g.ixLen
      ensures EntryAt(g, r.dap, |r.ixp|, e) == EntryAt(g, [], |r.ixp|, e)
    {}
    assert IndexCell(g, c, o, r.dap, |r.ixp|);
  }

  lemma LinkedParts(g: Geometry, v: Volume, o: nat, f: File)
    requires g.Wf() && FileLinked(g, v, o, f)
    ensures IndexLinked(g, v, o, f) && IndexOwned(v, o, f) && DataLinked(g, v, o, f) && |f.dap| <= g.FirstSpan(|f.ixp|)
  {}

  /** The index page in the buffer, which is not the header, has been stored: with it the file reads as before, now
      that other pages are named too. */
  lemma IndexPageStored(g: Geometry, v: Volume, o: nat, f: File, k: nat, work: Page, n: nat)
    requires g.Wf() && 0 < k < |f.ixp| && f.ixp[k] in v && v[f.ixp[k]].id == o + IX_FLAG
    requires FileLinked(g, Pending(v, f.ixp[k], o, work), o, f) && forall s :: 0 <= s < |f.dap| ==> f.dap[s] < FREE
    ensures StillReads(g, v, Pending(v, f.ixp[k], o, work), o, n)
  {
    hide FileLinked, Flatten, IndexLinked, DataLinked, PageData, IndexOwned;
    var x, v' := f.ixp[k], Pending(v, f.ixp[k], o, work);
    LinkedParts(g, v', o, f);
    forall b | Reads(g, v, o, b)
      ensures Reads(g, v', o, b)
    {
      var r :| ReadsWith(g, v, o, r, b);
      HeaderStays(g, v, o, r, f, k, work);
      DataStays(g, v, o, r, f, k, work);
      TimesMono(|r.dap|, |f.dap|, g.dataSize);
      FlattenPart(PageData(v, r), PageData(v', f), g.dataSize, |b|);
      assert ReadsWith(g, v', o, f, b);
    }
  }

  lemma HeaderStays(g: Geometry, v: Volume, o: nat, r: File, f: File, k: nat, work: Page)
    requires g.Wf() && 0 < k < |f.ixp| && f.ixp[k] in v && v[f.ixp[k]].id == o + IX_FLAG && |r.ixp| > 0
    requires IndexLinked(g, v, o, r) && IndexOwned(v, o, r)
    requires IndexLinked(g, Pending(v, f.ixp[k], o, work), o, f)
    ensures r.ixp[0] == f.ixp[0] && f.ixp[0] != f.ixp[k] && f.ixp[0] in v
  {
    hide IndexLinked;
    var x, v' := f.ixp[k], Pending(v, f.ixp[k], o, work);
    IndexAtSpan(g, v', o, f, 0);
    IndexAtSpan(g, v', o, f, k);
    assert v[f.ixp[0]] == v'[f.ixp[0]];
  }

  lemma IndexAtSpan(g: Geometry, v: Volume, o: nat, f: File, k: nat)
    requires g.Wf() && IndexLinked(g, v, o, f) && k < |f.ixp|
    ensures f.ixp[k] in v && v[f.ixp[k]].id == o + IX_FLAG && v[f.ixp[k]].page.span == k
  {}

  lemma DataStays(g: Geometry, v: Volume, o: nat, r: File, f: File, k: nat, work: Page)
    requires g.Wf() && k < |f.ixp| && f.ixp[k] in v && v[f.ixp[k]].id == o + IX_FLAG
    requires DataLinked(g, v, o, r) && FileLinked(g, Pending(v, f.ixp[k], o, work), o, f)
    ensures PageData(v, r) <= PageData(Pending(v, f.ixp[k], o, work), f) && |r.dap| <= |f.dap|
  {
    hide FileLinked, DataLinked;
    var v' := Pending(v, f.ixp[k], o, work);
    if |r.dap| > |f.dap| {
      DataStaysAt(g, v, o, r, f, k, work, |f.dap|);
    }
    forall s | 0 <= s < |r.dap|
      ensures PageData(v', f)[s] == PageData(v, r)[s]
    {
      DataStaysAt(g, v, o, r, f, k, work, s);
    }
  }

  lemma DataStaysAt(g: Geometry, v: Volume, o: nat, r: File, f: File, k: nat, work: Page, s: nat)
    requires g.Wf() && k < |f.ixp| && f.ixp[k] in v && v[f.ixp[k]].id == o + IX_FLAG && s < |r.dap|
    requires DataLinked(g, v, o, r) && FileLinked(g, Pending(v, f.ixp[k], o, work), o, f)
    ensures s < |f.dap| && f.dap[s] == r.dap[s] && r.dap[s] in v && r.dap[s] != f.ixp[k]
  {
    var v' := Pending(v, f.ixp[k], o, work);
    assert DataCell(g, v[r.dap[s]], o, s);
    assert v'[r.dap[s]] == v[r.dap[s]];
  }

  lemma FlattenPart(a: seq<seq<Byte>>, b: seq<seq<Byte>>, d: nat, n: nat)
    requires a <= b && d > 0 && n <= Times(|a|, d)
    ensures Flatten(a, d, n) == Flatten(b, d, n)
  {
    forall i | 0 <= i < n
      ensures ByteAt(a, d, i) == ByteAt(b, d, i)
    {
      QuotRem(i, d);
      if Quot(i, d) >= |a| {
        TimesMono(|a|, Quot(i, d), d);
      }
    }
  }

  // ---------- what tears a file ----------

  /** The header promises more bytes than there can be data pages for. */
  lemma TornShort(g: Geometry, v: Volume, o: nat, x: nat, n: nat)
    requires g.Wf() && x in v && v[x].id == o + IX_FLAG && v[x].page.span == 0
    requires forall p :: p in v && v[p].id == o ==> v[p].page.span < n
    requires Length(v[x].page.size) > Times(n, g.dataSize)
    ensures Torn(g, v, o)
  {
    hide Flatten, PageData;
    forall c
      ensures !Reads(g, v, o, c)
    {
      if f :| ReadsWith(g, v, o, f, c) {
        NoLonger(g, v, o, f, n);
        TimesMono(|f.dap|, n, g.dataSize);
      }
    }
  }

  lemma NoLonger(g: Geometry, v: Volume, o: nat, f: File, n: nat)
    requires DataLinked(g, v, o, f) && forall p :: p in v && v[p].id == o ==> v[p].page.span < n
    ensures |f.dap| <= n
  {
    if |f.dap| > n {
      DataAt(g, v, o, f, n);
    }
  }

  /** An entry names a page that is not the data page it should be. */
  lemma TornEntry(g: Geometry, v: Volume, o: nat, x: nat, e: nat)
    requires g.Wf() && x in v && v[x].id == o + IX_FLAG
    requires var page := v[x].page; e < |page.ix| && e < g.Cap(page.span) && page.ix[e] != FREE
    requires var page := v[x].page; page.ix[e] in v ==> !DataCell(g, v[page.ix[e]], o, g.FirstSpan(page.span) + e)
    ensures Torn(g, v, o)
  {
    hide Flatten, PageData, IndexLinked, DataLinked;
    forall c
      ensures !Reads(g, v, o, c)
    {
      if f :| ReadsWith(g, v, o, f, c) {
        NamedEntry(g, v, o, f, v[x].page.span, e);
        DataAt(g, v, o, f, g.FirstSpan(v[x].page.span) + e);
      }
    }
  }

  /** The page an entry on the flash names is not the data page of that span any more. */
  lemma Replaced(g: Geometry, v: Volume, o: nat, f: File, k: nat, x: nat, work: Page, e: nat)
    requires g.Wf() && FileLinked(g, Pending(v, x, o, work), o, f) && k < |f.ixp| && f.ixp[k] == x && x in v
    requires Behind(g, f.dap, k, v[x].page, work) && e < |work.ix| && v[x].page.ix[e] != work.ix[e] && work.span == k
    requires v[x].id == o + IX_FLAG
    ensures e < |v[x].page.ix| && e < g.Cap(k) && v[x].page.ix[e] != FREE && v[x].page.span == k
    ensures var p := v[x].page.ix[e]; p in v ==> !DataCell(g, v[p], o, g.FirstSpan(k) + e)
  {
    hide FileLinked;
    var V, p := Pending(v, x, o, work), v[x].page.ix[e];
    BufferEntry(g, V, o, f, k, e);
    if p in v && DataCell(g, v[p], o, g.FirstSpan(k) + e) {
      DataHere(g, V, o, f, p, g.FirstSpan(k) + e);
    }
  }

  lemma BufferEntry(g: Geometry, v: Volume, o: nat, f: File, k: nat, e: nat)
    requires g.Wf() && FileLinked(g, v, o, f) && k < |f.ixp|
    ensures var x := f.ixp[k];
            && x in v && (e < |v[x].page.ix| ==> v[x].page.ix[e] == EntryAt(g, f.dap, k, e))
  {
    assert IndexCell(g, v[f.ixp[k]], o, f.dap, k);
  }

  lemma DataHere(g: Geometry, v: Volume, o: nat, f: File, p: nat, s: nat)
    requires g.Wf() && FileLinked(g, v, o, f) && p in v && DataCell(g, v[p], o, s)
    ensures s < |f.dap| && f.dap[s] == p
  {}

  // ---------- writes that ended early ----------

  /** File o reads as it did with the first w bytes of the data written, for some w. */
  ghost predicate PartWritten(g: Geometry, v: Volume, o: nat, c: seq<Byte>, off: nat, data: seq<Byte>)
    requires g.Wf() && off <= |c|
  {
    exists w: nat :: w <= |data| && Reads(g, v, o, Write(c, off, data[..w]))
  }

  lemma PartAll(g: Geometry, v: Volume, o: nat, c: seq<Byte>, off: nat, data: seq<Byte>)
    requires g.Wf() && off <= |c| && Reads(g, v, o, Write(c, off, data))
    ensures PartWritten(g, v, o, c, off, data)
  {
    hide Reads, Write;
    assert data[..|data|] == data;
  }

  lemma PartStill(g: Geometry, v: Volume, v': Volume, o: nat, c: seq<Byte>, data: seq<Byte>)
    requires g.Wf() && PartWritten(g, v, o, c, |c|, data) && StillReads(g, v, v', o, |c| + |data|)
    ensures PartWritten(g, v', o, c, |c|, data)
  {
    hide Reads, Write;
    var w: nat :| w <= |data| && Reads(g, v, o, Write(c, |c|, data[..w]));
    assert Reads(g, v', o, Write(c, |c|, data[..w]));
  }

  lemma PartGrows(g: Geometry, v: Volume, o: nat, c: seq<Byte>, off: nat, data: seq<Byte>, data': seq<Byte>)
    requires g.Wf() && off <= |c| && PartWritten(g, v, o, c, off, data) && data <= data'
    ensures PartWritten(g, v, o, c, off, data')
  {
    hide Reads, Write;
    var w: nat :| w <= |data| && Reads(g, v, o, Write(c, off, data[..w]));
    assert data'[..w] == data[..w];
  }

  /** The same, or nothing can be read. */
  ghost predicate PartOrTorn(g: Geometry, v: Volume, o: nat, c: seq<Byte>, off: nat, data: seq<Byte>)
    requires g.Wf() && off <= |c|
  {
    PartWritten(g, v, o, c, off, data) || Torn(g, v, o)
  }

  lemma PartOrTornGrows(g: Geometry, v: Volume, o: nat, c: seq<Byte>, off: nat, data: seq<Byte>, data': seq<Byte>)
    requires g.Wf() && off <= |c| && PartOrTorn(g, v, o, c, off, data) && data <= data'
    ensures PartOrTorn(g, v, o, c, off, data')
  {
    hide PartWritten, Torn;
    if PartWritten(g, v, o, c, off, data) {
      PartGrows(g, v, o, c, off, data, data');
    }
  }

  lemma PartIs(g: Geometry, v: Volume, o: nat, c: seq<Byte>, off: nat, data: seq<Byte>)
    requires g.Wf() && off <= |c| && PartWritten(g, v, o, c, off, data)
    ensures PartOrTorn(g, v, o, c, off, data)
  {}

  lemma PartNone(g: Geometry, v: Volume, o: nat, c: seq<Byte>, off: nat, data: seq<Byte>)
    requires g.Wf() && Reads(g, v, o, c) && off <= |c|
    ensures PartWritten(g, v, o, c, off, data)
  {
    hide Reads;
    assert Write(c, off, data[..0]) == c;
  }

  lemma PartOr(g: Geometry, v: Volume, o: nat, c: seq<Byte>, off: nat, data: seq<Byte>)
    requires g.Wf() && (Reads(g, v, o, c) || Torn(g, v, o)) && off <= |c|
    ensures PartOrTorn(g, v, o, c, off, data)
  {
    hide Reads, Torn, PartWritten;
    if Reads(g, v, o, c) {
      PartNone(g, v, o, c, off, data);
    }
  }
}
