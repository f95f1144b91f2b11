/** The writes to the flash, one by one, that moving and deleting a page consist of (spiffs_page_move,
    spiffs_page_delete). */
module Writes {
  import opened Wrappers
  import opened Nor
  import opened Layout
  import opened Volumes
  import opened Flash

  datatype FlashState = FlashState(lu: seq<nat>, pages: seq<Page>)

  datatype FlashWrite =
    | WriteEntry(p: nat, id: nat)
    | WritePage(p: nat, page: Page)
    | WriteFlags(p: nat, flags: Flags)

  function Apply(s: FlashState, w: FlashWrite): FlashState {
    match w
    case WriteEntry(p, id) => if p < |s.lu| then s.(lu := s.lu[p := And(s.lu[p], id)]) else s
    case WritePage(p, page) =>
      if p < |s.pages| && |s.pages[p].ix| == |page.ix| && |s.pages[p].data| == |page.data| then
        s.(pages := s.pages[p := ProgramPage(s.pages[p], page)])
      else s
    case WriteFlags(p, flags) =>
      if p < |s.pages| then s.(pages := s.pages[p := s.pages[p].(flags := AndFlags(s.pages[p].flags, flags))]) else s
  }

  /** The flash after these writes. */
  function After(s: FlashState, ws: seq<FlashWrite>): FlashState {
    if ws == [] then s else Apply(After(s, ws[..|ws| - 1]), ws[|ws| - 1])
  }

  lemma {:induction false} AfterBoth(s: FlashState, ws: seq<FlashWrite>, ws': seq<FlashWrite>)
    ensures After(s, ws + ws') == After(After(s, ws), ws')
  {
    hide Apply;
    if ws' == [] {
      assert ws + ws' == ws;
    } else {
      var n := |ws'| - 1;
      AfterBoth(s, ws, ws'[..n]);
      assert (ws + ws')[..|ws| + n] == ws + ws'[..n] && (ws + ws')[|ws| + n] == ws'[n];
    }
  }

  lemma AfterNone(s: FlashState)
    ensures After(s, []) == s
  {}

  lemma AfterOne(s: FlashState, w: FlashWrite)
    ensures After(s, [w]) == Apply(s, w)
  {
    assert [w][..0] == [];
  }

  lemma AfterTwo(s: FlashState, w: FlashWrite, w': FlashWrite)
    ensures After(s, [w, w']) == Apply(Apply(s, w), w')
  {
    AfterOne(s, w);
    assert [w, w'][..1] == [w];
  }

  /** The page as it is written first: not finalized, but in use. */
  function Unfinal(page: Page): Page { page.(flags := page.flags.(final := true, used := false)) }

  /** The page given, or else a copy of the source page; then its lookup entry; then, if the page given was final, that
      it is finalized. */
  function StoreWrites(data: Option<Page>, id: nat, source: Page, dst: nat): seq<FlashWrite> {
    [WritePage(dst, if data.Some? then Unfinal(data.value) else source), WriteEntry(dst, id)]
    + if data.Some? && !data.value.flags.final then [WriteFlags(dst, data.value.flags.(final := false, used := false))]
        else []
  }

  /** The mark in the lookup entry, then the one in the page. */
  function DeleteWrites(p: nat): seq<FlashWrite> {
    [WriteEntry(p, DELETED), WriteFlags(p, Flags(false, true, true, false, true))]
  }

  function MoveWrites(data: Option<Page>, id: nat, source: Page, src: nat, dst: nat): seq<FlashWrite> {
    StoreWrites(data, id, source, dst) + DeleteWrites(src)
  }

  /** The page that is to end up in its new place. */
  function Moved(data: Option<Page>, source: Page): Page {
    if data.Some? then data.value.(flags := data.value.flags.(used := false)) else source
  }

  /** A free page to write to. */
  predicate FreeAt(g: Geometry, s: FlashState, dst: nat) {
    dst < |s.lu| && dst < |s.pages| && s.lu[dst] == FREE && s.pages[dst] == Blank(g)
  }

  /** The page is there in the end, and nothing else has changed. */
  lemma StoreLeaves(g: Geometry, s: FlashState, data: Option<Page>, id: Half, source: Page, dst: nat)
    requires FreeAt(g, s, dst) && PageShape(g, source) && (data.Some? ==> PageShape(g, data.value))
    ensures After(s, StoreWrites(data, id, source, dst)) ==
            FlashState(s.lu[dst := id], s.pages[dst := Moved(data, source)])
  {
    hide Apply, After, Moved;
    var first := if data.Some? then Unfinal(data.value) else source;
    var t := FlashState(s.lu[dst := id], s.pages[dst := first]);
    WriteNew(g, s, first, id, dst);
    if data.Some? && !data.value.flags.final {
      var w := WriteFlags(dst, data.value.flags.(final := false, used := false));
      AfterBoth(s, [WritePage(dst, first), WriteEntry(dst, id)], [w]);
      AfterOne(t, w);
      Finalized(t, data.value, dst);
      SameMoved(data.value, source);
      assert t.pages[dst := Moved(data, source)] == s.pages[dst := Moved(data, source)];
    } else {
      assert [WritePage(dst, first), WriteEntry(dst, id)] + [] == [WritePage(dst, first), WriteEntry(dst, id)];
      Unchanged(data, source);
    }
  }

  lemma WriteNew(g: Geometry, s: FlashState, page: Page, id: Half, dst: nat)
    requires FreeAt(g, s, dst) && PageShape(g, page)
    ensures After(s, [WritePage(dst, page), WriteEntry(dst, id)]) == FlashState(s.lu[dst := id], s.pages[dst := page])
  {
    hide After;
    ProgramBlank(g, page);
    AndHalf(id);
    AfterTwo(s, WritePage(dst, page), WriteEntry(dst, id));
  }

  lemma Finalized(t: FlashState, page: Page, dst: nat)
    requires dst < |t.pages| && t.pages[dst] == Unfinal(page) && !page.flags.final
    ensures Apply(t, WriteFlags(dst, page.flags.(final := false, used := false)))
            == t.(pages := t.pages[dst := Moved(Some(page), page)])
  {}

  lemma SameMoved(page: Page, source: Page)
    ensures Moved(Some(page), page) == Moved(Some(page), source)
  {}

  lemma Unchanged(data: Option<Page>, source: Page)
    requires data.None? || data.value.flags.final
    ensures Moved(data, source) == if data.Some? then Unfinal(data.value) else source
  {}

  function Marked(page: Page): Page { page.(flags := AndFlags(page.flags, Flags(false, true, true, false, true))) }

  lemma DeleteLeaves(s: FlashState, p: nat)
    requires p < |s.lu| && p < |s.pages|
    ensures And(s.lu[p], DELETED) == DELETED
    ensures After(s, DeleteWrites(p)) == FlashState(s.lu[p := DELETED], s.pages[p := Marked(s.pages[p])])
  {
    AfterTwo(s, DeleteWrites(p)[0], DeleteWrites(p)[1]);
  }

  /** The flash t is as these writes leave it, begun with the volume v once a free page dst has been found. */
  ghost predicate ByWrites(g: Geometry, v: Volume, src: nat, source: Page, dst: nat, ws: seq<FlashWrite>,
                           t: FlashState) {
    exists s: FlashState {:trigger FreeAt(g, s, dst)} ::
      && VolumeOf(s.lu, s.pages) == v && src < |s.lu| && src < |s.pages| && s.pages[src] == source
      && FreeAt(g, s, dst) && t == After(s, ws)
  }

  lemma ByWritesNow(g: Geometry, s: FlashState, src: nat, dst: nat, ws: seq<FlashWrite>)
    requires src < |s.lu| && src < |s.pages| && FreeAt(g, s, dst)
    ensures ByWrites(g, VolumeOf(s.lu, s.pages), src, s.pages[src], dst, ws, After(s, ws))
  {}

  lemma ByMoreWrites(g: Geometry, v: Volume, src: nat, source: Page, dst: nat, ws: seq<FlashWrite>, t: FlashState,
      ws': seq<FlashWrite>)
    requires ByWrites(g, v, src, source, dst, ws, t)
    ensures ByWrites(g, v, src, source, dst, ws + ws', After(t, ws'))
  {
    hide After, VolumeOf;
    var s: FlashState :| VolumeOf(s.lu, s.pages) == v && src < |s.lu| && src < |s.pages| && s.pages[src] == source
                         && FreeAt(g, s, dst) && t == After(s, ws);
    AfterBoth(s, ws, ws');
    ByWritesNow(g, s, src, dst, ws + ws');
  }
}
