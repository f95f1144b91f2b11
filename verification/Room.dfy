/** How many free pages the cleaning of a block takes, and how many there are. */
module Room {
  import opened Layout
  import opened Lookup
  import opened Volumes
  import opened Flash
  import opened Nucleus

  /** The free pages that are not in block b. */
  ghost function FreeOutside(g: Geometry, lu: seq<nat>, b: nat): set<nat>
    requires LuShape(g, lu)
  {
    set p: nat | p < |lu| && lu[p] == FREE && g.BlockOf(p) != b
  }

  /** The index page that a page is, or that refers to it: its object and its span. */
  function KeyOf(g: Geometry, c: Cell): (nat, nat)
    requires g.Wf()
  {
    if IsIx(c.id) then (c.id - IX_FLAG, c.page.span) else (c.id, g.IxSpan(c.page.span))
  }

  function DataIn(g: Geometry, v: Volume, b: nat): set<nat>
    requires g.Wf()
  {
    set p | p in v && g.BlockOf(p) == b && !IsIx(v[p].id)
  }

  /** The index pages that are in block b or refer to pages in it. */
  function KeysIn(g: Geometry, v: Volume, b: nat): set<(nat, nat)>
    requires g.Wf()
  {
    set p | p in v && g.BlockOf(p) == b :: KeyOf(g, v[p])
  }

  /** The pages to be stored elsewhere before block b is empty: its data pages, and once each of the index pages
      concerned, among them those of which the work buffer has a version to be stored. */
  function Needed(g: Geometry, v: Volume, b: nat, buffered: set<(nat, nat)>): nat
    requires g.Wf()
  {
    |DataIn(g, v, b)| + |KeysIn(g, v, b) + buffered|
  }

  /** There are enough free pages outside block b to empty it. */
  ghost predicate EnoughFree(g: Geometry, lu: seq<nat>, v: Volume, b: nat)
    requires LuShape(g, lu)
  {
    Needed(g, v, b, {}) <= |FreeOutside(g, lu, b)|
  }

  /** The cursor is not inside block b. */
  ghost predicate Outside(g: Geometry, cb: nat, ce: nat, b: nat)
    requires g.Wf()
  {
    StartBlock(g, cb, ce) == b ==> StartEntry(g, ce) == 0
  }

  /** If the cursor is inside block b, then right behind a live page. */
  ghost predicate CursorMark(g: Geometry, v: Volume, cb: nat, ce: nat, b: nat)
    requires g.Wf()
  {
    !Outside(g, cb, ce, b) ==> cb == b && 0 < ce <= g.Entries() && g.Pix(b, ce - 1) in v
  }

  lemma FreeTaken(g: Geometry, lu: seq<nat>, src: nat, dst: nat, id: nat, b: nat)
    requires g.Wf() && LuShape(g, lu) && src < |lu| && Live(lu[src]) && dst < |lu| && lu[dst] == FREE && id < FREE
    ensures src != dst && LuShape(g, lu[dst := id][src := DELETED])
    ensures |FreeOutside(g, lu[dst := id][src := DELETED], b)| ==
            |FreeOutside(g, lu, b)| - if g.BlockOf(dst) != b then 1 else 0
  {
    hide LuShape, Geometry.BlockOf, FreeOutside;
    var lu' := lu[dst := id][src := DELETED];
    ShapeKept(g, lu, src, dst, id);
    forall p
      ensures p in FreeOutside(g, lu, b) <==> p in FreeOutside(g, lu', b) || (p == dst && g.BlockOf(dst) != b)
      ensures p in FreeOutside(g, lu', b) ==> p != dst
    {
      IsOutside(g, lu, b, p);
      IsOutside(g, lu', b, p);
    }
    if g.BlockOf(dst) != b {
      assert FreeOutside(g, lu, b) == FreeOutside(g, lu', b) + {dst};
    } else {
      assert FreeOutside(g, lu, b) == FreeOutside(g, lu', b);
    }
  }

  lemma IsOutside(g: Geometry, lu: seq<nat>, b: nat, p: nat)
    requires g.Wf() && LuShape(g, lu)
    ensures p in FreeOutside(g, lu, b) <==> p < |lu| && lu[p] == FREE && g.BlockOf(p) != b
  {}

  lemma ShapeKept(g: Geometry, lu: seq<nat>, src: nat, dst: nat, id: nat)
    requires LuShape(g, lu) && src < |lu| && Live(lu[src]) && dst < |lu| && lu[dst] == FREE && id < FREE
    ensures src != dst && LuShape(g, lu[dst := id][src := DELETED])
  {
    hide Geometry.IsLookupPage;
  }

  lemma NoneOutside(g: Geometry, lu: seq<nat>, b: nat)
    requires LuShape(g, lu) && NoneFree(g, lu)
    ensures FreeOutside(g, lu, b) == {}
  {
    forall p: nat | p < |lu|
      ensures p !in FreeOutside(g, lu, b)
    {
      if lu[p] == FREE {
        assert !g.IsLookupPage(p);
        EntryRoundTrip(g, p);
        assert Entry(g, lu, g.BlockOf(p), g.EntryOf(p)) != FREE;
      }
    }
  }

  /** A data page has moved, to another block or to a later place in the same one. */
  lemma DataMoves(g: Geometry, v: Volume, p: nat, dst: nat, b: nat, buffered: set<(nat, nat)>)
    requires g.Wf() && p in v && dst !in v && g.BlockOf(p) == b && !IsIx(v[p].id) && KeyOf(g, v[p]) in buffered
    ensures Needed(g, (v - {p})[dst := v[p]], b, buffered) ==
            Needed(g, v, b, buffered) - if g.BlockOf(dst) != b then 1 else 0
  {
    hide KeysIn, KeyOf, Geometry.BlockOf;
    DataMovesKeys(g, v, p, dst, b, buffered);
    DataMovesSet(g, v, p, dst, b);
    var left := DataIn(g, v, b) - {p};
    assert DataIn(g, v, b) == left + {p};
    if g.BlockOf(dst) == b {
      assert |left + {dst}| == |left| + 1;
    }
  }

  lemma DataMovesSet(g: Geometry, v: Volume, p: nat, dst: nat, b: nat)
    requires g.Wf() && p in v && dst !in v && !IsIx(v[p].id)
    ensures DataIn(g, (v - {p})[dst := v[p]], b) == DataIn(g, v, b) - {p} + if g.BlockOf(dst) == b then {dst} else {}
  {
  }

  lemma DataMovesKeys(g: Geometry, v: Volume, p: nat, dst: nat, b: nat, buffered: set<(nat, nat)>)
    requires g.Wf() && p in v && dst !in v && KeyOf(g, v[p]) in buffered
    ensures KeysIn(g, (v - {p})[dst := v[p]], b) + buffered == KeysIn(g, v, b) + buffered
  {
    hide KeyOf;
    var v', key := (v - {p})[dst := v[p]], KeyOf(g, v[p]);
    forall k | k in KeysIn(g, v, b) && k != key
      ensures k in KeysIn(g, v', b)
    {
      var q :| q in v && g.BlockOf(q) == b && KeyOf(g, v[q]) == k;
      assert q in v' && KeyOf(g, v'[q]) == k;
    }
    forall k | k in KeysIn(g, v', b) && k != key
      ensures k in KeysIn(g, v, b)
    {
      var q :| q in v' && g.BlockOf(q) == b && KeyOf(g, v'[q]) == k;
      assert q in v && KeyOf(g, v[q]) == k;
    }
  }

  /** An index page has been stored in another place, and no other page in the block has to do with it. */
  lemma IndexMoves(g: Geometry, v: Volume, x: nat, q: nat, c: Cell, b: nat)
    requires g.Wf() && x in v && q !in v && IsIx(v[x].id) && IsIx(c.id) && KeyOf(g, v[x]) == KeyOf(g, c)
    requires forall p :: p in v && g.BlockOf(p) == b && KeyOf(g, v[p]) == KeyOf(g, c) ==> p == x
    ensures Needed(g, (v - {x})[q := c], b, {}) ==
            Needed(g, v, b, {KeyOf(g, c)}) - if g.BlockOf(q) != b then 1 else 0
  {
    hide KeyOf, KeysIn, DataIn, Geometry.BlockOf;
    var v', key := (v - {x})[q := c], KeyOf(g, c);
    IndexMovesData(g, v, x, q, c, b);
    IndexMovesKeys(g, v, x, q, c, b);
    var others := KeysIn(g, v, b) - {key};
    assert KeysIn(g, v, b) + {key} == others + {key} && KeysIn(g, v', b) + {} == KeysIn(g, v', b);
    assert |others + {key}| == |others| + 1;
  }

  lemma IndexMovesData(g: Geometry, v: Volume, x: nat, q: nat, c: Cell, b: nat)
    requires g.Wf() && x in v && q !in v && IsIx(v[x].id) && IsIx(c.id)
    ensures DataIn(g, (v - {x})[q := c], b) == DataIn(g, v, b)
  {
    hide Geometry.BlockOf;
  }

  lemma IndexMovesKeys(g: Geometry, v: Volume, x: nat, q: nat, c: Cell, b: nat)
    requires g.Wf() && x in v && q !in v && KeyOf(g, v[x]) == KeyOf(g, c)
    requires forall p :: p in v && g.BlockOf(p) == b && KeyOf(g, v[p]) == KeyOf(g, c) ==> p == x
    ensures KeysIn(g, (v - {x})[q := c], b) ==
            KeysIn(g, v, b) - {KeyOf(g, c)} + if g.BlockOf(q) == b then {KeyOf(g, c)} else {}
  {
    hide KeyOf, Geometry.BlockOf;
    var v', key := (v - {x})[q := c], KeyOf(g, c);
    forall k | k in KeysIn(g, v, b) && k != key
      ensures k in KeysIn(g, v', b)
    {
      var p :| p in v && g.BlockOf(p) == b && KeyOf(g, v[p]) == k;
      assert p in v' && KeyOf(g, v'[p]) == k;
    }
    if g.BlockOf(q) == b {
      assert q in v' && KeyOf(g, v'[q]) == key;
    }
  }

  /** Anything left in the block, or in the buffer, takes a page. */
  lemma NeedsSome(g: Geometry, v: Volume, b: nat, buffered: set<(nat, nat)>)
    requires g.Wf()
    requires buffered != {} || exists p :: p in v && g.BlockOf(p) == b
    ensures Needed(g, v, b, buffered) >= 1
  {
    var keys := KeysIn(g, v, b) + buffered;
    if p :| p in v && g.BlockOf(p) == b {
      assert KeyOf(g, v[p]) in keys;
    }
    assert keys != {};
  }

  lemma NeedsNone(g: Geometry, v: Volume, b: nat)
    requires g.Wf() && forall p :: p in v ==> g.BlockOf(p) != b
    ensures Needed(g, v, b, {}) == 0
  {
    assert DataIn(g, v, b) == {} && KeysIn(g, v, b) + {} == {};
  }

  /** A page whose index page is in the buffer adds nothing to what is there already. */
  lemma BufferedIn(g: Geometry, v: Volume, b: nat, p: nat)
    requires g.Wf() && p in v && g.BlockOf(p) == b
    ensures Needed(g, v, b, {KeyOf(g, v[p])}) == Needed(g, v, b, {})
  {
    assert KeysIn(g, v, b) + {KeyOf(g, v[p])} == KeysIn(g, v, b) + {};
  }

  /** Entries of a block are taken in order: a page taken in block b comes after every entry that was not free. */
  lemma TakenLater(g: Geometry, lu: seq<nat>, b: nat, e: nat, dst: nat)
    requires LuShape(g, lu) && FreeSuffix(g, lu) && InRange(g, b, e) && Entry(g, lu, b, e) != FREE
    requires dst < |lu| && lu[dst] == FREE && g.BlockOf(dst) == b
    ensures !g.IsLookupPage(dst) && InRange(g, b, g.EntryOf(dst)) && dst == g.Pix(b, g.EntryOf(dst))
    ensures g.EntryOf(dst) > e
  {
    assert !g.IsLookupPage(dst);
    EntryRoundTrip(g, dst);
    assert Entry(g, lu, b, g.EntryOf(dst)) == FREE;
  }

  /** Right after a page has been taken, the cursor is behind it. */
  lemma MarkPlaced(g: Geometry, lu: seq<nat>, cb: nat, ce: nat, cb': nat, ce': nat, dst: nat, v: Volume, b: nat)
    requires LuShape(g, lu) && Placed(g, lu, cb, ce, cb', ce', dst) && dst in v
    ensures CursorMark(g, v, cb', ce', b)
  {}
}
