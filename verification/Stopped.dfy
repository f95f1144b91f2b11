/** What the files read as after garbage could not be collected: a cleaning that has stopped halfway may have left one
    index page behind, and with it one file torn. */
module Stopped {
  import opened Nor
  import opened Layout
  import opened Volumes
  import opened Contents
  import opened Nucleus
  import opened Gc
  import opened Editing
  import opened Remains
  import opened Objects

  lemma ConsistentReads(g: Geometry, v: Volume, files: Files, o: nat)
    requires g.Wf() && Consistent(g, v, files) && o in files
    ensures Reads(g, v, o, Bytes(g, v, files, o))
  {
    hide Reads, Flatten;
    ConsistentFile(g, v, files, o);
    forall s | 0 <= s < |files[o].dap|
      ensures files[o].dap[s] < FREE
    {
      assert HasFile(g, v, files, files[o].dap[s]);
    }
    FileReads(g, v, o, files[o]);
  }

  lemma SameBytes(v: Volume, fs: Files, v': Volume, fs': Files, g: Geometry, o: nat)
    requires g.Wf() && SameContents(v, fs, v', fs') && o in fs
    ensures o in fs' && fs'[o].size == fs[o].size && Bytes(g, v', fs', o) == Bytes(g, v, fs, o)
  {
    assert SameFile(v, fs[o], v', fs'[o]);
  }

  /** A page of another object does not matter. */
  lemma ReadsSame(g: Geometry, v: Volume, x: nat, c: Cell, o: nat, b: seq<Byte>)
    requires g.Wf() && Reads(g, v, o, b) && x in v && v[x].id == c.id && c.id != o && c.id != o + IX_FLAG
    ensures Reads(g, v[x := c], o, b)
  {
    hide Flatten, IndexCell, DataCell;
    var f :| ReadsWith(g, v, o, f, b);
    var v' := v[x := c];
    forall k | 0 <= k < |f.ixp|
      ensures f.ixp[k] in v' && v'[f.ixp[k]] == v[f.ixp[k]]
    {
      IndexAtSpan(g, v, o, f, k);
    }
    forall s | 0 <= s < |f.dap|
      ensures f.dap[s] in v' && v'[f.dap[s]] == v[f.dap[s]]
    {
      DataAt(g, v, o, f, s);
      NotIndex(g, v[f.dap[s]], o, s);
    }
    assert PageData(v', f) == PageData(v, f);
    assert ReadsWith(g, v', o, f, b);
  }

  /** The other files do not depend on the index page left behind. */
  lemma OtherThanStopped(g: Geometry, v: Volume, files: Files, x: nat, o: nat, work: Page, o2: nat)
    requires g.Wf() && Consistent(g, Pending(v, x, o, work), files) && x in v && v[x].id == o + IX_FLAG
    requires o in files && o2 in files && o2 != o
    ensures Reads(g, v, o2, Bytes(g, Pending(v, x, o, work), files, o2))
  {
    hide Reads, Bytes, Settled, FileLinked;
    var V := Pending(v, x, o, work);
    ConsistentReads(g, V, files, o2);
    IdsOf(g, V, files, o);
    IdsOf(g, V, files, o2);
    assert V[x := v[x]] == v;
    ReadsSame(g, V, x, v[x], o2, Bytes(g, V, files, o2));
  }

  lemma IdsOf(g: Geometry, v: Volume, files: Files, o: nat)
    requires g.Wf() && Consistent(g, v, files) && o in files
    ensures 1 <= o < IX_FLAG - 1
  {
    ConsistentFile(g, v, files, o);
  }

  /** The file the index page belongs to is as it was, or an entry on the flash names a page that is gone. */
  lemma StoppedItself(g: Geometry, v: Volume, files: Files, o: nat, k: nat, x: nat, work: Page)
    requires g.Wf() && Consistent(g, Pending(v, x, o, work), files) && x in v && v[x].id == o + IX_FLAG
    requires o in files && k < |files[o].ixp| && files[o].ixp[k] == x && Behind(g, files[o].dap, k, v[x].page, work)
    ensures Reads(g, v, o, Bytes(g, Pending(v, x, o, work), files, o)) || Torn(g, v, o)
  {
    hide Reads, Torn, Bytes, FileLinked, Settled;
    var V := Pending(v, x, o, work);
    ConsistentFile(g, V, files, o);
    IndexOf(g, V, o, files[o], k);
    if v[x].page.ix == work.ix {
      assert v == V;
      ConsistentReads(g, V, files, o);
    } else {
      var e :| 0 <= e < |work.ix| && v[x].page.ix[e] != work.ix[e];
      Replaced(g, v, o, files[o], k, x, work, e);
      TornEntry(g, v, o, x, e);
    }
  }

  /** Every file but o reads as it did, except perhaps for one more, which may be torn. */
  ghost predicate OthersBut(g: Geometry, v: Volume, v0: Volume, files0: Files, o: nat, o2: nat)
    requires g.Wf()
  {
    forall o' :: o' in files0 && o' != o ==>
      Reads(g, v, o', Bytes(g, v0, files0, o')) || (o' == o2 && Torn(g, v, o'))
  }

  ghost predicate Spared(g: Geometry, v: Volume, v0: Volume, files0: Files, o: nat)
    requires g.Wf()
  {
    exists o2: nat :: OthersBut(g, v, v0, files0, o, o2)
  }

  /** A cleaning that has stopped halfway leaves every file as it was but for one, which may be torn. */
  lemma HalfwayLeaves(g: Geometry, v: Volume, v0: Volume, files0: Files, o: nat)
    requires g.Wf() && Halfway(g, v, v0, files0)
    ensures Spared(g, v, v0, files0, o)
    ensures o in files0 ==> Reads(g, v, o, Bytes(g, v0, files0, o)) || Torn(g, v, o)
  {
    hide Reads, Torn, Bytes, Consistent, SameContents, Behind;
    if files :| Consistent(g, v, files) && SameContents(v0, files0, v, files) {
      forall o' | o' in files0
        ensures Reads(g, v, o', Bytes(g, v0, files0, o'))
      {
        SameBytes(v0, files0, v, files, g, o');
        ConsistentReads(g, v, files, o');
      }
      assert OthersBut(g, v, v0, files0, o, o);
    } else {
      var files, o2: nat, k, x, work :| HalfwayAt(g, v, v0, files0, files, o2, k, x, work);
      forall o' | o' in files0
        ensures Reads(g, v, o', Bytes(g, v0, files0, o')) || (o' == o2 && Torn(g, v, o'))
      {
        SameBytes(v0, files0, Pending(v, x, o2, work), files, g, o');
        if o' == o2 {
          StoppedItself(g, v, files, o2, k, x, work);
        } else {
          OtherThanStopped(g, v, files, x, o2, work, o');
        }
      }
      assert OthersBut(g, v, v0, files0, o, o2);
    }
  }

  /** Files that are the same read as they did. */
  lemma OtherReads(fs: Spiffs, v: Volume, files: Files, o: nat, o2: nat)
    requires fs.FlashOk() && fs.g.Wf() && OthersSame(fs.g, v, files, fs.Disk(), fs.files, o) && o2 in files && o2 != o
    ensures Reads(fs.g, fs.Disk(), o2, Bytes(fs.g, v, files, o2))
  {
    hide Reads, Flatten;
    assert SameFile(v, files[o2], fs.Disk(), fs.files[o2]);
    var f := fs.files[o2];
    forall s | 0 <= s < |f.dap|
      ensures f.dap[s] < FREE
    {
      LivePage(fs, f.dap[s]);
    }
    FileReads(fs.g, fs.Disk(), o2, f);
  }

  lemma SameIsSpared(fs: Spiffs, v: Volume, files: Files, o: nat)
    requires fs.FlashOk() && fs.g.Wf() && OthersSame(fs.g, v, files, fs.Disk(), fs.files, o)
    ensures Spared(fs.g, fs.Disk(), v, files, o)
  {
    hide Reads, OthersSame, Bytes, Spiffs.FlashOk;
    forall o' | o' in files && o' != o
      ensures Reads(fs.g, fs.Disk(), o', Bytes(fs.g, v, files, o'))
    {
      OtherReads(fs, v, files, o, o');
    }
    assert OthersBut(fs.g, fs.Disk(), v, files, o, o);
  }

  /** What is spared of the files as they were is spared of those that were the same before. */
  lemma SparedTrans(g: Geometry, v0: Volume, files0: Files, v1: Volume, files1: Files, v: Volume, o: nat)
    requires g.Wf() && OthersSame(g, v0, files0, v1, files1, o) && Spared(g, v, v1, files1, o)
    ensures Spared(g, v, v0, files0, o)
  {
    hide Reads, Torn, Flatten;
    var o2: nat :| OthersBut(g, v, v1, files1, o, o2);
    forall o' | o' in files0 && o' != o
      ensures Reads(g, v, o', Bytes(g, v0, files0, o')) || (o' == o2 && Torn(g, v, o'))
    {
      assert SameFile(v0, files0[o'], v1, files1[o']);
    }
    assert OthersBut(g, v, v0, files0, o, o2);
  }
}
