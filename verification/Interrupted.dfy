/** What is on the flash if moving a page is interrupted between two of its writes
    (spiffs_page_move, spiffs_page_delete). */
module Interrupted {
  import opened Wrappers
  import opened Nor
  import opened Layout
  import opened Volumes
  import opened Flash
  import opened Nucleus
  import opened Writes

  /** A search for the object and span finds page p. */
  predicate FoundAt(s: FlashState, id: nat, span: nat, p: nat) {
    p < |s.lu| && p < |s.pages| && s.lu[p] == id && Matches(s.pages[p], id, span, 0, p)
  }

  predicate CanMove(g: Geometry, s: FlashState, id: Half, src: nat, dst: nat, data: Option<Page>) {
    && |s.lu| == |s.pages| && src < |s.lu| && Live(id) && s.lu[src] == id && PageShape(g, s.pages[src])
    && FreeAt(g, s, dst) && (data.Some? ==> PageShape(g, data.value))
  }

  /** All writes of the move, from the flash s on. */
  function AllWrites(s: FlashState, id: nat, src: nat, dst: nat, data: Option<Page>): seq<FlashWrite>
    requires src < |s.pages|
  {
    MoveWrites(data, id, s.pages[src], src, dst)
  }

  /** The flash if power fails after i of the writes. */
  function Cut(s: FlashState, id: nat, src: nat, dst: nat, data: Option<Page>, i: nat): FlashState
    requires src < |s.pages| && i <= |AllWrites(s, id, src, dst, data)|
  {
    After(s, AllWrites(s, id, src, dst, data)[..i])
  }

  /** Before the page is marked deleted: it is as it was, and the new one is there once all its writes are done. */
  lemma CutStoring(g: Geometry, s: FlashState, id: Half, src: nat, dst: nat, data: Option<Page>, i: nat)
    requires CanMove(g, s, id, src, dst, data) && i <= |StoreWrites(data, id, s.pages[src], dst)|
    ensures var t := Cut(s, id, src, dst, data, i);
            && |t.lu| == |s.lu| && |t.pages| == |s.pages| && t.lu[src] == id && t.pages[src] == s.pages[src]
    ensures Cut(s, id, src, dst, data, |StoreWrites(data, id, s.pages[src], dst)|)
            == FlashState(s.lu[dst := id], s.pages[dst := Moved(data, s.pages[src])])
  {
    hide Apply;
    var ws := StoreWrites(data, id, s.pages[src], dst);
    assert AllWrites(s, id, src, dst, data)[..i] == ws[..i];
    assert AllWrites(s, id, src, dst, data)[..|ws|] == ws;
    StoreLeaves(g, s, data, id, s.pages[src], dst);
    Elsewhere(s, ws[..i], src);
  }

  /** What is written elsewhere does not change a page. */
  lemma {:induction false} Elsewhere(s: FlashState, ws: seq<FlashWrite>, p: nat)
    requires forall w :: w in ws ==> w.p != p
    ensures var t := After(s, ws);
            && |t.lu| == |s.lu| && |t.pages| == |s.pages|
            && (p < |s.lu| ==> t.lu[p] == s.lu[p]) && (p < |s.pages| ==> t.pages[p] == s.pages[p])
  {
    if ws != [] {
      Elsewhere(s, ws[..|ws| - 1], p);
      assert ws[|ws| - 1] in ws;
    }
  }

  /** From then on the new page is there, and no page but the two has changed. */
  lemma CutDeleting(g: Geometry, s: FlashState, id: Half, src: nat, dst: nat, data: Option<Page>, i: nat)
    requires CanMove(g, s, id, src, dst, data)
    requires |StoreWrites(data, id, s.pages[src], dst)| <= i <= |AllWrites(s, id, src, dst, data)|
    ensures var t := Cut(s, id, src, dst, data, i);
            && |t.lu| == |s.lu| && |t.pages| == |s.pages| && t.lu[dst] == id
                && t.pages[dst] == Moved(data, s.pages[src])
            && (forall p :: 0 <= p < |s.lu| && p != src && p != dst ==> t.lu[p] == s.lu[p] && t.pages[p] == s.pages[p])
    ensures var t := Cut(s, id, src, dst, data, |AllWrites(s, id, src, dst, data)|);
            t.lu == s.lu[dst := id][src := DELETED]
  {
    hide Apply, Moved;
    var ws, del := StoreWrites(data, id, s.pages[src], dst), DeleteWrites(src);
    var j := i - |ws|;
    StoreLeaves(g, s, data, id, s.pages[src], dst);
    assert AllWrites(s, id, src, dst, data)[..i] == ws + del[..j];
    AfterBoth(s, ws, del[..j]);
    assert AllWrites(s, id, src, dst, data)[..|ws| + 2] == ws + del;
    AfterBoth(s, ws, del);
    DeleteLeaves(After(s, ws), src);
    forall p: nat | p != src
      ensures var t, t0 := After(After(s, ws), del[..j]), After(s, ws);
              && |t.lu| == |t0.lu| && |t.pages| == |t0.pages|
              && (p < |t0.lu| ==> t.lu[p] == t0.lu[p]) && (p < |t0.pages| ==> t.pages[p] == t0.pages[p])
    {
      Elsewhere(After(s, ws), del[..j], p);
    }
    Elsewhere(After(s, ws), del[..j], dst);
  }

  /** However many of the writes have been done, a search does not come back empty-handed, if it found the source page
      before and would find the page that replaces it. */
  lemma NeverLost(g: Geometry, s: FlashState, id: Half, span: nat, src: nat, dst: nat, data: Option<Page>, i: nat)
    requires CanMove(g, s, id, src, dst, data) && i <= |AllWrites(s, id, src, dst, data)|
    requires FoundAt(s, id, span, src) && Matches(Moved(data, s.pages[src]), id, span, 0, dst)
    ensures var t := Cut(s, id, src, dst, data, i); FoundAt(t, id, span, src) || FoundAt(t, id, span, dst)
  {
    hide Cut, Matches;
    if i <= |StoreWrites(data, id, s.pages[src], dst)| {
      CutStoring(g, s, id, src, dst, data, i);
    } else {
      CutDeleting(g, s, id, src, dst, data, i);
    }
  }

  /** If the source page was the only one found, the new page is the only one found in the end. */
  lemma OneInTheEnd(g: Geometry, s: FlashState, id: Half, span: nat, src: nat, dst: nat, data: Option<Page>)
    requires CanMove(g, s, id, src, dst, data)
    requires (forall p :: FoundAt(s, id, span, p) ==> p == src) && Matches(Moved(data, s.pages[src]), id, span, 0, dst)
    ensures var t := Cut(s, id, src, dst, data, |AllWrites(s, id, src, dst, data)|);
            forall p :: FoundAt(t, id, span, p) <==> p == dst
  {
    hide Cut, Moved;
    var n := |AllWrites(s, id, src, dst, data)|;
    CutDeleting(g, s, id, src, dst, data, n);
    var t := Cut(s, id, src, dst, data, n);
    forall p | FoundAt(t, id, span, p)
      ensures p == dst
    {
      assert p != src && p != dst ==> FoundAt(s, id, span, p);
    }
  }

  /** The page survives exactly if what replaces it is a finalized page of the same object and
      span; pages that were not final when they were given are never finalized. */
  lemma SurvivesExactly(g: Geometry, s: FlashState, id: Half, span: nat, src: nat, dst: nat, data: Option<Page>)
    requires CanMove(g, s, id, src, dst, data)
    requires forall p :: FoundAt(s, id, span, p) <==> p == src
    requires data.Some? ==>
              data.value.id == id && data.value.span == span && data.value.flags.delet && data.value.flags.ixdele
    ensures var t := Cut(s, id, src, dst, data, |AllWrites(s, id, src, dst, data)|);
            (exists p :: FoundAt(t, id, span, p)) <==> (data.None? || !data.value.flags.final)
  {
    hide Cut;
    var n := |AllWrites(s, id, src, dst, data)|;
    CutDeleting(g, s, id, src, dst, data, n);
    var t := Cut(s, id, src, dst, data, n);
    assert FoundAt(s, id, span, src);
    forall p | FoundAt(t, id, span, p)
      ensures p == dst
    {
      assert p != src && p != dst ==> FoundAt(s, id, span, p);
    }
    if data.None? || !data.value.flags.final {
      assert FoundAt(t, id, span, dst);
    }
  }

  /** While a page is copied piece by piece, whatever is in the free page so far does no harm. */
  lemma HalfCopied(s: FlashState, id: nat, span: nat, src: nat, dst: nat, partial: Page)
    requires |s.lu| == |s.pages| && FoundAt(s, id, span, src) && dst < |s.lu| && s.lu[dst] == FREE && Live(id)
    ensures FoundAt(s.(pages := s.pages[dst := partial]), id, span, src)
    ensures !FoundAt(s.(pages := s.pages[dst := partial]), id, span, dst)
  {}

  /** The flash after all writes is one that spiffs_page_move leaves behind. */
  lemma EndsAsMoved(g: Geometry, s: FlashState, id: Half, src: nat, dst: nat, data: Option<Page>)
    requires CanMove(g, s, id, src, dst, data)
    ensures var t := Cut(s, id, src, dst, data, |AllWrites(s, id, src, dst, data)|);
            && VolumeOf(t.lu, t.pages) == (VolumeOf(s.lu, s.pages) - {src})[dst := Cell(id, Moved(data, s.pages[src]))]
            && ByWrites(g, VolumeOf(s.lu, s.pages), src, s.pages[src], dst,
                        MoveWrites(data, id, s.pages[src], src, dst), t)
  {
    hide Moved, After, StoreWrites, DeleteWrites;
    var ws := AllWrites(s, id, src, dst, data);
    assert ws[..|ws|] == ws;
    CutDeleting(g, s, id, src, dst, data, |ws|);
    ByWritesNow(g, s, src, dst, ws);
  }
}
