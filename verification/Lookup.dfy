/** The search through the object lookup tables (spiffs_obj_lu_find_entry_visitor). */
module Lookup {
  import opened Wrappers
  import opened Layout

  datatype Found = NotFound | At(block: nat, entry: nat)

  /** Marks the places of lookup pages, which have no lookup entry of their own. */
  const NO_ENTRY: nat := 0x1_0000

  predicate LuShape(g: Geometry, lu: seq<nat>) {
    g.Wf() && |lu| == g.Pages()
    && (forall p :: 0 <= p < |lu| ==> lu[p] <= NO_ENTRY)
    && (forall p {:trigger g.IsLookupPage(p)} :: 0 <= p < |lu| ==> (lu[p] == NO_ENTRY <==> g.IsLookupPage(p)))
  }

  predicate InRange(g: Geometry, b: nat, e: nat)
    requires g.Wf()
  {
    b < g.blocks && e < g.Entries()
  }

  /** The lookup entry e of block b. */
  function Entry(g: Geometry, lu: seq<nat>, b: nat, e: nat): (id: nat)
    requires LuShape(g, lu) && InRange(g, b, e)
    ensures id <= FREE
  {
    PixRoundTrip(g, b, e);
    lu[g.Pix(b, e)]
  }

  function SetLu(g: Geometry, lu: seq<nat>, b: nat, e: nat, id: nat): seq<nat>
    requires LuShape(g, lu) && InRange(g, b, e)
  {
    PixRoundTrip(g, b, e);
    lu[g.Pix(b, e) := id]
  }

  /** The lookup page of block b whose first entry is the given one, as read into the lookup buffer. */
  function LookupPage(g: Geometry, lu: seq<nat>, b: nat, first: nat): (buf: seq<nat>)
    requires LuShape(g, lu) && b < g.blocks
    ensures |buf| == Max(0, Min(g.entriesPerPage, g.Entries() - first))
    ensures forall i :: 0 <= i < |buf| ==> buf[i] == Entry(g, lu, b, first + i)
  {
    var len: nat := Max(0, Min(g.entriesPerPage, g.Entries() - first));
    seq<nat>(len, i requires 0 <= i < len => Entry(g, lu, b, first + i))
  }

  /** The visitor is asked about entry e of block b, and ends the search there. */
  ghost predicate Stops(g: Geometry, lu: seq<nat>, checkId: bool, id: nat, visit: (nat, nat) -> bool, b: nat, e: nat)
    requires LuShape(g, lu) && InRange(g, b, e)
  {
    (checkId ==> Entry(g, lu, b, e) == id) && visit(Entry(g, lu, b, e), g.Pix(b, e))
  }

  predicate Before(b: nat, e: nat, b': nat, e': nat) { b < b' || (b == b' && e < e') }

  /** (b, e) comes before (b', e') on the way round that starts at (sb, se). */
  predicate CyclicBefore(sb: nat, se: nat, b: nat, e: nat, b': nat, e': nat) {
    if Before(b, e, sb, se) then Before(b', e', sb, se) && Before(b, e, b', e')
    else Before(b', e', sb, se) || Before(b, e, b', e')
  }

  /** The place a search that is told to start at (b, e) starts at. */
  function StartBlock(g: Geometry, b: nat, e: nat): nat
    requires g.Wf()
  {
    if e < g.Entries() then b else if b + 1 >= g.blocks then 0 else b + 1
  }
  function StartEntry(g: Geometry, e: nat): nat
    requires g.Wf()
  {
    if e < g.Entries() then e else 0
  }

  /** No entry that comes before (b, e) on the way round stops the visitor. */
  ghost predicate NoneBefore(g: Geometry, lu: seq<nat>, checkId: bool, id: nat, visit: (nat, nat) -> bool,
                             sb: nat, se: nat, b: nat, e: nat)
    requires LuShape(g, lu)
  {
    forall b', e' | 0 <= b' < g.blocks && 0 <= e' < g.Entries() :: CyclicBefore(sb, se, b', e', b, e) ==>
            !Stops(g, lu, checkId, id, visit, b', e')
  }

  ghost predicate NoneAtAll(g: Geometry, lu: seq<nat>, checkId: bool, id: nat, visit: (nat, nat) -> bool)
    requires LuShape(g, lu)
  {
    forall b, e | 0 <= b < g.blocks && 0 <= e < g.Entries() :: !Stops(g, lu, checkId, id, visit, b, e)
  }

  ghost predicate NoneAfter(g: Geometry, lu: seq<nat>, checkId: bool, id: nat, visit: (nat, nat) -> bool, sb: nat,
      se: nat)
    requires LuShape(g, lu)
  {
    forall b, e | 0 <= b < g.blocks && 0 <= e < g.Entries() :: !Before(b, e, sb, se) ==>
            !Stops(g, lu, checkId, id, visit, b, e)
  }

  /** After k rounds over a block, started at entry se of the first one, this many entries are
      still to be visited. */
  function Remaining(g: Geometry, se: nat, k: nat): int
    requires g.Wf()
  {
    var whole: int := if k <= g.blocks then Times(g.blocks - k, g.Entries()) else 0 - Times(k - g.blocks, g.Entries());
    whole + if k == 0 then 0 else se
  }

  lemma RemainingStep(g: Geometry, se: nat, k: nat)
    requires g.Wf() && se < g.Entries()
    ensures Remaining(g, se, k + 1) == Remaining(g, se, k) - if k == 0 then g.Entries() - se else g.Entries()
    ensures Remaining(g, se, k) > 0 <==> k < g.blocks || (k == g.blocks && se > 0)
  {
    if k > g.blocks {
      TimesMono(1, k - g.blocks, g.Entries());
    } else if k < g.blocks {
      TimesMono(1, g.blocks - k, g.Entries());
    }
  }

  lemma RemainingStart(g: Geometry, se: nat)
    requires g.Wf()
    ensures Remaining(g, se, 0) == Times(g.blocks, g.Entries()) > 0
  {
    TimesMono(1, g.blocks, g.Entries());
  }

  /** The search has come to entry e of block b in round k. */
  ghost predicate Visited(g: Geometry, lu: seq<nat>, checkId: bool, id: nat, visit: (nat, nat) -> bool,
                          sb: nat, se: nat, k: nat, b: nat, e: nat)
    requires LuShape(g, lu)
  {
    && (forall b', e' | 0 <= b' < g.blocks && 0 <= e' < g.Entries() ::
          !Before(b', e', sb, se) && (sb + k >= g.blocks || Before(b', e', b, e)) ==>
              !Stops(g, lu, checkId, id, visit, b', e'))
    && (sb + k >= g.blocks ==> forall b', e' | 0 <= b' < g.blocks && 0 <= e' < g.Entries() ::
          Before(b', e', b, e) ==> !Stops(g, lu, checkId, id, visit, b', e'))
  }

  /** The block the search is in during round k. */
  function RoundBlock(g: Geometry, sb: nat, k: nat): int {
    if sb + k < g.blocks then sb + k else sb + k - g.blocks
  }

  /** Having gone through the rest of a block, the search has come to the start of the next one,
      or has seen everything. */
  lemma RoundDone(g: Geometry, lu: seq<nat>, checkId: bool, id: nat, visit: (nat, nat) -> bool,
                  sb: nat, se: nat, k: nat, b: nat, e: nat)
    requires LuShape(g, lu) && InRange(g, sb, se) && b < g.blocks && b == RoundBlock(g, sb, k)
    requires e == (if k == 0 then se else 0)
    requires Visited(g, lu, checkId, id, visit, sb, se, k, b, e)
    requires forall e' :: e <= e' < g.Entries() ==> !Stops(g, lu, checkId, id, visit, b, e')
    ensures k < g.blocks && !(k + 1 == g.blocks && se == 0) ==>
              Visited(g, lu, checkId, id, visit, sb, se, k + 1, if b + 1 >= g.blocks then 0 else b + 1, 0)
    ensures k + 1 > g.blocks || (k + 1 == g.blocks && se == 0) ==> NoneAtAll(g, lu, checkId, id, visit)
    ensures b + 1 == g.blocks && sb + k < g.blocks ==> NoneAfter(g, lu, checkId, id, visit, sb, se)
  {
    assert Visited(g, lu, checkId, id, visit, sb, se, k, b + 1, 0);
  }

  /** What a round stops at is the first stopping entry on the way round. */
  lemma FoundFirst(g: Geometry, lu: seq<nat>, checkId: bool, id: nat, visit: (nat, nat) -> bool,
                   sb: nat, se: nat, k: nat, b: nat, e: nat)
    requires LuShape(g, lu) && InRange(g, sb, se) && InRange(g, b, e) && b == RoundBlock(g, sb, k)
    requires k <= g.blocks && (k == 0 ==> se <= e)
    requires Visited(g, lu, checkId, id, visit, sb, se, k, b, if k == 0 then se else 0)
    requires Stops(g, lu, checkId, id, visit, b, e)
    requires forall e' :: (if k == 0 then se else 0) <= e' < e ==> !Stops(g, lu, checkId, id, visit, b, e')
    ensures NoneBefore(g, lu, checkId, id, visit, sb, se, b, e)
    ensures sb + k < g.blocks ==> !Before(b, e, sb, se)
  {
    hide Stops;
  }

  lemma VisitedStart(g: Geometry, lu: seq<nat>, checkId: bool, id: nat, visit: (nat, nat) -> bool, sb: nat, se: nat)
    requires LuShape(g, lu) && InRange(g, sb, se)
    ensures Visited(g, lu, checkId, id, visit, sb, se, 0, sb, se)
  {}

  /** An entry past the end of a block stands for the start of the next one. */
  lemma StartShifted(g: Geometry, lu: seq<nat>, checkId: bool, id: nat, visit: (nat, nat) -> bool, b: nat, e: nat)
    requires LuShape(g, lu) && b < g.blocks
    ensures e >= g.Entries() && b + 1 >= g.blocks ==> NoneAfter(g, lu, checkId, id, visit, b, e)
    ensures !(e >= g.Entries() && b + 1 >= g.blocks)
            && NoneAfter(g, lu, checkId, id, visit, StartBlock(g, b, e), StartEntry(g, e)) ==>
              NoneAfter(g, lu, checkId, id, visit, b, e)
  {}

  /** How often entry e of block b is visited in the first rounds of a search that starts at (sb, se). */
  function Visits(g: Geometry, sb: nat, se: nat, rounds: nat, b: nat, e: nat): nat {
    if rounds == 0 then 0 else
      var k := rounds - 1;
      Visits(g, sb, se, k, b, e) + if RoundBlock(g, sb, k) == b && (k == 0 ==> e >= se) then 1 else 0
  }

  /** A search visits no entry more than twice, and every entry exactly once if it starts at the start of a block and
      goes all the way round. */
  lemma VisitsFew(g: Geometry, sb: nat, se: nat, rounds: nat, b: nat, e: nat)
    requires g.Wf() && InRange(g, sb, se) && InRange(g, b, e) && rounds <= g.blocks + (if se > 0 then 1 else 0)
    ensures Visits(g, sb, se, rounds, b, e) <= 2
    ensures se == 0 && rounds == g.blocks ==> Visits(g, sb, se, rounds, b, e) == 1
  {
    var j := if b >= sb then b - sb else b + g.blocks - sb;
    VisitsAre(g, sb, se, if rounds <= g.blocks then rounds else g.blocks, b, e, j);
  }

  lemma {:induction false} VisitsAre(g: Geometry, sb: nat, se: nat, rounds: nat, b: nat, e: nat, j: nat)
    requires sb < g.blocks && b < g.blocks && rounds <= g.blocks
    requires j == if b >= sb then b - sb else b + g.blocks - sb
    ensures Visits(g, sb, se, rounds, b, e) == if j < rounds && (j == 0 ==> e >= se) then 1 else 0
  {
    if rounds > 0 {
      VisitsAre(g, sb, se, rounds - 1, b, e, j);
    }
  }

  /** The entries of a block from lo up to hi, in order. */
  ghost function Row(b: nat, lo: nat, hi: nat): seq<(nat, nat)>
    requires lo <= hi
  {
    if lo == hi then [] else Row(b, lo, hi - 1) + [(b, hi - 1)]
  }

  lemma {:induction false} RowCount(b: nat, lo: nat, hi: nat, b': nat, e: nat)
    requires lo <= hi
    ensures multiset(Row(b, lo, hi))[(b', e)] == if b == b' && lo <= e < hi then 1 else 0
  {
    if lo < hi {
      RowCount(b, lo, hi - 1, b', e);
    }
  }

  /** What has been visited in k whole rounds. */
  ghost predicate Counted(g: Geometry, visited: seq<(nat, nat)>, sb: nat, se: nat, k: nat)
    requires g.Wf()
  {
    forall b, e :: InRange(g, b, e) ==> multiset(visited)[(b, e)] == Visits(g, sb, se, k, b, e)
  }

  /** No entry has been visited more than twice. */
  ghost predicate AtMostTwice(g: Geometry, visited: seq<(nat, nat)>)
    requires g.Wf()
  {
    forall b, e :: InRange(g, b, e) ==> multiset(visited)[(b, e)] <= 2
  }

  ghost predicate OnceEach(g: Geometry, visited: seq<(nat, nat)>)
    requires g.Wf()
  {
    forall b, e :: InRange(g, b, e) ==> multiset(visited)[(b, e)] == 1
  }

  /** One more round, the whole of a block or a part of it. */
  lemma CountedStep(g: Geometry, visited: seq<(nat, nat)>, sb: nat, se: nat, k: nat, block: nat, hi: nat)
    requires g.Wf() && InRange(g, sb, se) && Counted(g, visited, sb, se, k) && block == RoundBlock(g, sb, k)
    requires (if k == 0 then se else 0) <= hi <= g.Entries() && k < g.blocks + (if se > 0 then 1 else 0)
    ensures var visited' := visited + Row(block, if k == 0 then se else 0, hi);
            AtMostTwice(g, visited') && (hi == g.Entries() ==> Counted(g, visited', sb, se, k + 1))
  {
    var lo := if k == 0 then se else 0;
    forall b, e | InRange(g, b, e)
      ensures var n := multiset(visited + Row(block, lo, hi))[(b, e)];
              n <= Visits(g, sb, se, k + 1, b, e) <= 2 && (hi == g.Entries() ==> n == Visits(g, sb, se, k + 1, b, e))
    {
      RowCount(block, lo, hi, b, e);
      VisitsFew(g, sb, se, k + 1, b, e);
    }
  }

  lemma NoneCounted(g: Geometry, sb: nat, se: nat)
    requires g.Wf()
    ensures Counted(g, [], sb, se, 0) && AtMostTwice(g, [])
  {}

  lemma CountedFew(g: Geometry, visited: seq<(nat, nat)>, sb: nat, se: nat, k: nat)
    requires g.Wf() && InRange(g, sb, se) && Counted(g, visited, sb, se, k) && k <= g.blocks + (if se > 0 then 1 else 0)
    ensures AtMostTwice(g, visited) && (se == 0 && k == g.blocks ==> OnceEach(g, visited))
  {
    forall b, e | InRange(g, b, e)
      ensures Visits(g, sb, se, k, b, e) <= 2 && (se == 0 && k == g.blocks ==> Visits(g, sb, se, k, b, e) == 1)
    {
      VisitsFew(g, sb, se, k, b, e);
    }
  }

  /** Visits the entries of one block, from the given one on, lookup page by lookup page. */
  method FindInBlock(g: Geometry, lu: seq<nat>, block: nat, startEntry: nat, checkId: bool, id: nat,
      visit: (nat, nat) -> bool)
    returns (found: bool, curEntry: nat, ghost visited: seq<(nat, nat)>)
    requires LuShape(g, lu) && InRange(g, block, startEntry)
    ensures startEntry <= curEntry <= g.Entries()
    ensures visited == Row(block, startEntry, if found then curEntry + 1 else g.Entries())
    ensures found ==> |visited| > 0 && visited[|visited| - 1] == (block, curEntry)
    ensures found <==> curEntry < g.Entries()
    ensures found ==> Stops(g, lu, checkId, id, visit, block, curEntry)
    ensures forall e :: startEntry <= e < curEntry ==> !Stops(g, lu, checkId, id, visit, block, e)
  {
    var n := g.Entries();
    curEntry := startEntry;
    visited := [];
    var lookupPage := Quot(curEntry, g.entriesPerPage);
    QuotRem(curEntry, g.entriesPerPage);
    var entryOffset := Times(lookupPage, g.entriesPerPage);
    while lookupPage < g.lookupPages
      invariant entryOffset == Times(lookupPage, g.entriesPerPage)
      invariant startEntry <= curEntry <= n && visited == Row(block, startEntry, curEntry)
      invariant curEntry == n || entryOffset <= curEntry < entryOffset + g.entriesPerPage
      invariant forall e :: startEntry <= e < curEntry ==> !Stops(g, lu, checkId, id, visit, block, e)
      decreases g.lookupPages - lookupPage
    {
      var buf := LookupPage(g, lu, block, entryOffset);
      while curEntry - entryOffset < g.entriesPerPage && curEntry < n
        invariant startEntry <= curEntry <= n && visited == Row(block, startEntry, curEntry)
        invariant curEntry == n || entryOffset <= curEntry <= entryOffset + g.entriesPerPage
        invariant forall e :: startEntry <= e < curEntry ==> !Stops(g, lu, checkId, id, visit, block, e)
        decreases n - curEntry
      {
        var entry := buf[curEntry - entryOffset];
        visited := visited + [(block, curEntry)];
        if !checkId || entry == id {
          if visit(entry, g.Pix(block, curEntry)) {
            return true, curEntry, visited;
          }
        }
        curEntry := curEntry + 1;
      }
      lookupPage := lookupPage + 1;
      entryOffset := entryOffset + g.entriesPerPage;
      assert Times(lookupPage, g.entriesPerPage) == Times(lookupPage - 1, g.entriesPerPage) + g.entriesPerPage;
    }
    if curEntry < n {
      TimesMono(g.lookupPages, lookupPage, g.entriesPerPage);
    }
    found := false;
  }

  lemma LuWf(g: Geometry, lu: seq<nat>)
    requires LuShape(g, lu)
    ensures g.Wf()
  {}

  /** In round k of the search from entry se of block sb, which is to go on from entry e of block b,
      unless nothing is left. */
  ghost predicate Searching(g: Geometry, lu: seq<nat>, checkId: bool, id: nat, visit: (nat, nat) -> bool,
                            sb: nat, se: nat, k: nat, b: nat, e: nat, left: int)
    requires LuShape(g, lu)
  {
    && InRange(g, sb, se) && InRange(g, b, e) && e == (if k == 0 then se else 0)
    && left == Remaining(g, se, k) && k <= g.blocks + (if se > 0 then 1 else 0)
    && if left > 0 then
         k < g.blocks + (if se > 0 then 1 else 0) && b == RoundBlock(g, sb, k)
         && Visited(g, lu, checkId, id, visit, sb, se, k, b, e)
       else k == g.blocks + (if se > 0 then 1 else 0) && NoneAtAll(g, lu, checkId, id, visit)
  }

  lemma SearchStarts(g: Geometry, lu: seq<nat>, checkId: bool, id: nat, visit: (nat, nat) -> bool, sb: nat, se: nat)
    requires LuShape(g, lu) && InRange(g, sb, se)
    ensures Searching(g, lu, checkId, id, visit, sb, se, 0, sb, se, Times(g.blocks, g.Entries()))
  {
    VisitedStart(g, lu, checkId, id, visit, sb, se);
    RemainingStart(g, se);
  }

  lemma SearchStands(g: Geometry, lu: seq<nat>, checkId: bool, id: nat, visit: (nat, nat) -> bool,
                     sb: nat, se: nat, k: nat, b: nat, e: nat, left: int)
    requires LuShape(g, lu) && Searching(g, lu, checkId, id, visit, sb, se, k, b, e, left)
    ensures e == (if k == 0 then se else 0) && k <= g.blocks + (if se > 0 then 1 else 0)
    ensures left > 0 ==> k < g.blocks + (if se > 0 then 1 else 0) && b == RoundBlock(g, sb, k)
    ensures left > 0 ==> Visited(g, lu, checkId, id, visit, sb, se, k, b, e)
    ensures left <= 0 ==> k == g.blocks + (if se > 0 then 1 else 0) && NoneAtAll(g, lu, checkId, id, visit)
  {}

  /** Nothing in the rest of this block stops the search. */
  lemma SearchGoesOn(g: Geometry, lu: seq<nat>, checkId: bool, id: nat, visit: (nat, nat) -> bool,
                     sb: nat, se: nat, k: nat, b: nat, e: nat, left: int)
    requires LuShape(g, lu) && Searching(g, lu, checkId, id, visit, sb, se, k, b, e, left) && left > 0
    requires forall e' :: e <= e' < g.Entries() ==> !Stops(g, lu, checkId, id, visit, b, e')
    ensures Searching(g, lu, checkId, id, visit, sb, se, k + 1, if b + 1 >= g.blocks then 0 else b + 1, 0,
                      left - (g.Entries() - e))
    ensures b + 1 == g.blocks && sb + k < g.blocks ==> NoneAfter(g, lu, checkId, id, visit, sb, se)
    ensures sb + k < g.blocks ==> b == sb + k
    ensures left - (g.Entries() - e) < left
  {
    hide Stops, LuShape, Visited, NoneAfter, NoneAtAll, Remaining;
    LuWf(g, lu);
    RemainingStep(g, se, k);
    RemainingStep(g, se, k + 1);
    RoundDone(g, lu, checkId, id, visit, sb, se, k, b, e);
  }

  /** Visits entries from entry se of block sb on, round to the first block if need be. */
  method SearchFrom(g: Geometry, lu: seq<nat>, sb: nat, se: nat, noWrap: bool,
                    checkId: bool, id: nat, visit: (nat, nat) -> bool)
    returns (r: Found, ghost visited: seq<(nat, nat)>)
    requires LuShape(g, lu) && InRange(g, sb, se)
    ensures AtMostTwice(g, visited)
    ensures r.NotFound? && !noWrap && se == 0 ==> OnceEach(g, visited)
    ensures r.At? ==> |visited| > 0 && visited[|visited| - 1] == (r.block, r.entry)
    ensures r.At? ==> InRange(g, r.block, r.entry) && Stops(g, lu, checkId, id, visit, r.block, r.entry)
    ensures r.At? ==> NoneBefore(g, lu, checkId, id, visit, sb, se, r.block, r.entry)
    ensures r.NotFound? && !noWrap ==> NoneAtAll(g, lu, checkId, id, visit)
    ensures r.NotFound? && noWrap ==> NoneAfter(g, lu, checkId, id, visit, sb, se)
    ensures r.At? && noWrap ==> !Before(r.block, r.entry, sb, se)
  {
    hide Stops, LuShape, Row, Counted, AtMostTwice, OnceEach, Visits, Visited, NoneBefore, NoneAfter, NoneAtAll,
         Searching, RoundBlock, Before;
    LuWf(g, lu);
    visited := [];
    var n := g.Entries();
    var entryCount: int := Times(g.blocks, n);
    var curBlock: nat, curEntry: nat := sb, se;
    ghost var k: nat := 0;
    NoneCounted(g, sb, se);
    SearchStarts(g, lu, checkId, id, visit, sb, se);
    while entryCount > 0
      invariant InRange(g, curBlock, curEntry)
      invariant Searching(g, lu, checkId, id, visit, sb, se, k, curBlock, curEntry, entryCount)
      invariant Counted(g, visited, sb, se, k)
      invariant noWrap ==> sb + k < g.blocks
      decreases entryCount
    {
      SearchStands(g, lu, checkId, id, visit, sb, se, k, curBlock, curEntry, entryCount);
      var found, reached;
      ghost var row;
      found, reached, row := FindInBlock(g, lu, curBlock, curEntry, checkId, id, visit);
      CountedStep(g, visited, sb, se, k, curBlock, if found then reached + 1 else n);
      visited := visited + row;
      if found {
        FoundFirst(g, lu, checkId, id, visit, sb, se, k, curBlock, reached);
        return At(curBlock, reached), visited;
      }
      SearchGoesOn(g, lu, checkId, id, visit, sb, se, k, curBlock, curEntry, entryCount);
      entryCount := entryCount - (n - curEntry);
      curEntry := 0;
      curBlock := curBlock + 1;
      k := k + 1;
      if curBlock >= g.blocks {
        if noWrap {
          CountedFew(g, visited, sb, se, k);
          return NotFound, visited;
        }
        curBlock := 0;
      }
    }
    SearchStands(g, lu, checkId, id, visit, sb, se, k, curBlock, curEntry, entryCount);
    CountedFew(g, visited, sb, se, k);
    return NotFound, visited;
  }

  /** Visits entries from (startBlock, startEntry) on, round to the first block if need be.
      The search finds the first stopping entry in that order, or finds there is none. It visits no entry more than
      twice, and each exactly once if it starts at the start of a block and goes all the way round. */
  method FindEntry(g: Geometry, lu: seq<nat>, startBlock: nat, startEntry: nat, noWrap: bool,
                   checkId: bool, id: nat, visit: (nat, nat) -> bool)
    returns (r: Found, ghost visited: seq<(nat, nat)>)
    requires LuShape(g, lu) && startBlock < g.blocks
    ensures AtMostTwice(g, visited)
    ensures r.NotFound? && !noWrap && StartEntry(g, startEntry) == 0 ==> OnceEach(g, visited)
    ensures r.At? ==> |visited| > 0 && visited[|visited| - 1] == (r.block, r.entry)
    ensures r.At? ==> InRange(g, r.block, r.entry) && Stops(g, lu, checkId, id, visit, r.block, r.entry)
    ensures r.At? ==> NoneBefore(g, lu, checkId, id, visit, StartBlock(g, startBlock, startEntry),
                                 StartEntry(g, startEntry), r.block, r.entry)
    ensures r.NotFound? && !noWrap ==> NoneAtAll(g, lu, checkId, id, visit)
    ensures r.NotFound? && noWrap ==> NoneAfter(g, lu, checkId, id, visit, startBlock, startEntry)
    ensures r.At? && noWrap ==> !Before(r.block, r.entry, startBlock, startEntry)
  {
    hide Stops, LuShape, Counted, AtMostTwice, OnceEach, Visits, NoneBefore, NoneAfter, NoneAtAll;
    LuWf(g, lu);
    StartShifted(g, lu, checkId, id, visit, startBlock, startEntry);
    var curBlock, curEntry := startBlock, startEntry;
    if curEntry > g.Entries() - 1 {
      curEntry := 0;
      curBlock := curBlock + 1;
      if curBlock >= g.blocks {
        if noWrap {
          NoneCounted(g, 0, 0);
          return NotFound, [];
        }
        curBlock := 0;
      }
    }
    r, visited := SearchFrom(g, lu, curBlock, curEntry, noWrap, checkId, id, visit);
  }
}
