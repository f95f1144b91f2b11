/** The choice of the block to clean (spiffs_gc_find_candidate). */
module Candidates {
  import opened Wrappers
  import opened Nor
  import opened Layout
  import opened Lookup
  import opened Volumes
  import opened Flash
  import opened Nucleus

  const NO_BLOCK: nat := 0xffff      // an unused place of the candidate table
  const W_DELETED: int := 5
  const W_USED: int := -1
  const W_AGE: int := 50

  /** How many block erasures ago a block was erased, in 16 bits. The counts themselves have 15. */
  function EraseAge(max: Half, count: Half): Half {
    if max > count then max - count else FREE - (count - max)
  }

  /** The count that erasures go on with (spiffs_erase_block). */
  function NextCount(count: nat): nat { if count + 1 == IX_FLAG then 0 else count + 1 }

  function CountAfter(count: nat, n: nat): nat {
    if n == 0 then count else NextCount(CountAfter(count, n - 1))
  }

  /** The age of a block is the number of erasures since it got its count; but where the count has started over in
      between, it is 0x7fff more. */
  lemma EraseAgeIs(count: Half, n: nat)
    requires count < 0x8000 && 0 < n < 0x8000
    ensures CountAfter(count, n) <= HALF_MAX
    ensures EraseAge(CountAfter(count, n), count) == if count + n < 0x8000 then n else n + 0x7fff
  {
    CountIs(count, n);
  }

  lemma {:induction false} CountIs(count: nat, n: nat)
    requires count < 0x8000 && n < 0x8000
    ensures CountAfter(count, n) == if count + n < 0x8000 then count + n else count + n - 0x8000
  {
    if n > 0 {
      CountIs(count, n - 1);
    }
  }

  /** A block is scored by its deleted and its used pages, and by its age unless space is tight. */
  ghost function Score(g: Geometry, lu: seq<nat>, count: Half, max: Half, crammed: bool, b: nat): int
    requires g.Wf()
  {
    |PagesIn(lu, g.Pix(b, 0), g.Pix(b, g.Entries()), DeletedKind)| * W_DELETED
    + |PagesIn(lu, g.Pix(b, 0), g.Pix(b, g.Entries()), LiveKind)| * W_USED
    + EraseAge(max, count) * (if crammed then 0 else W_AGE)
  }

  ghost function Scores(g: Geometry, lu: seq<nat>, counts: seq<Half>, max: Half, crammed: bool): (sc: seq<int>)
    requires g.Wf()
    ensures |sc| == |counts|
  {
    seq<int>(|counts|, b requires 0 <= b < |counts| => Score(g, lu, counts[b], max, crammed, b))
  }

  /** Block a is to be cleaned before block b. */
  predicate Better(sc: seq<int>, a: nat, b: nat) {
    a < |sc| && b < |sc| && (sc[a] > sc[b] || (sc[a] == sc[b] && a < b))
  }

  /** The table holds the best of the first n blocks, as many as fit, best first. */
  ghost predicate TopBlocks(sc: seq<int>, n: nat, blocks: seq<nat>, scores: seq<int>) {
    var m := Min(n, |blocks|);
    && |scores| == |blocks| && n <= |sc|
    && (forall i :: 0 <= i < m ==> blocks[i] < n && scores[i] == sc[blocks[i]])
    && (forall i :: m <= i < |blocks| ==> blocks[i] == NO_BLOCK)
    && (forall i, j :: 0 <= i < j < m ==> Better(sc, blocks[i], blocks[j]))
    && (forall b: nat :: b < n <= |blocks| ==> b in blocks[..m])
    && (forall b: nat, i :: b < n && b !in blocks[..m] && 0 <= i < m ==> Better(sc, blocks[i], b))
  }

  /** Puts x at place i and drops the last element. */
  function Inserted<T>(s: seq<T>, i: nat, x: T): (r: seq<T>)
    requires i < |s|
    ensures |r| == |s|
  {
    s[..i] + [x] + s[i..|s| - 1]
  }

  /** A block goes before the first candidate with a lower score, or into the first free place. */
  predicate Place(blocks: seq<nat>, scores: seq<int>, score: int, i: nat)
    requires |scores| == |blocks|
  {
    && i <= |blocks|
    && (forall j :: 0 <= j < i ==> blocks[j] != NO_BLOCK && scores[j] >= score)
    && (i < |blocks| ==> blocks[i] == NO_BLOCK || scores[i] < score)
  }

  /** The table after a block has been put in place i. */
  predicate PutAt(blocks: seq<nat>, scores: seq<int>, block: nat, score: int, i: nat, blocks': seq<nat>,
      scores': seq<int>)
    requires |scores| == |blocks| && i <= |blocks|
  {
    if i == |blocks| then blocks' == blocks && scores' == scores
    else if blocks[i] == NO_BLOCK then blocks' == blocks[i := block] && scores' == scores[i := score]
    else blocks' == Inserted(blocks, i, block) && scores' == Inserted(scores, i, score)
  }

  /** The candidates after block n has been put in place i. */
  function Shifted(blocks: seq<nat>, n: nat, i: nat, j: nat): nat
    requires j <= |blocks| && i <= |blocks|
  {
    if j < i then blocks[j] else if j == i then n else blocks[j - 1]
  }

  lemma PutShifts(sc: seq<int>, n: nat, blocks: seq<nat>, scores: seq<int>, i: nat, blocks': seq<nat>,
      scores': seq<int>)
    requires TopBlocks(sc, n, blocks, scores) && n < NO_BLOCK && n < |sc| && Place(blocks, scores, sc[n], i)
    requires PutAt(blocks, scores, n, sc[n], i, blocks', scores')
    ensures |blocks'| == |scores'| == |blocks| && i <= Min(n, |blocks|)
    ensures forall j :: 0 <= j < Min(n + 1, |blocks|) ==>
            blocks'[j] == Shifted(blocks, n, i, j) && scores'[j] == sc[blocks'[j]]
    ensures forall j :: Min(n + 1, |blocks|) <= j < |blocks| ==> blocks'[j] == NO_BLOCK
    ensures forall j :: i <= j < Min(n, |blocks|) ==> Better(sc, n, blocks[j])
  {
    var m := Min(n, |blocks|);
    assert m < |blocks| ==> blocks[m] == NO_BLOCK;
    assert i <= m;
    forall j | i <= j < m
      ensures Better(sc, n, blocks[j])
    {
      assert scores[i] < sc[n];
      assert j > i ==> Better(sc, blocks[i], blocks[j]);
    }
  }

  /** A block that is not among the candidates afterwards comes after all of them. */
  lemma NotChosen(sc: seq<int>, n: nat, blocks: seq<nat>, scores: seq<int>, i: nat, blocks': seq<nat>, b: nat, j: nat)
    requires TopBlocks(sc, n, blocks, scores) && n < |sc| && Place(blocks, scores, sc[n], i) && i <= Min(n, |blocks|)
    requires |blocks'| == |blocks| && forall k :: 0 <= k < Min(n + 1, |blocks|) ==>
            blocks'[k] == Shifted(blocks, n, i, k)
    requires forall k :: i <= k < Min(n, |blocks|) ==> Better(sc, n, blocks[k])
    requires b < n + 1 && b !in blocks'[..Min(n + 1, |blocks|)] && j < Min(n + 1, |blocks|)
    ensures Better(sc, Shifted(blocks, n, i, j), b)
  {
    hide Place;
    StillIn(n, blocks, i, blocks');
    var m := Min(n, |blocks|);
    if b == n {
      PlaceBefore(sc, n, blocks, scores, i, j);
    } else if b in blocks[..m] {
      var l :| 0 <= l < m && blocks[l] == b;
      assert l == |blocks| - 1;
    } else if j == i {
      assert i < m ==> Better(sc, blocks[i], b);
    } else {
      assert Better(sc, if j < i then blocks[j] else blocks[j - 1], b);
    }
  }

  /** Putting the next block into its place keeps the table right. */
  lemma PutKeepsTop(sc: seq<int>, n: nat, blocks: seq<nat>, scores: seq<int>, i: nat, blocks': seq<nat>,
      scores': seq<int>)
    requires TopBlocks(sc, n, blocks, scores) && n < NO_BLOCK && n < |sc| && Place(blocks, scores, sc[n], i)
    requires PutAt(blocks, scores, n, sc[n], i, blocks', scores')
    ensures TopBlocks(sc, n + 1, blocks', scores')
  {
    hide PutAt, Place, Inserted, Better;
    PutShifts(sc, n, blocks, scores, i, blocks', scores');
    StillIn(n, blocks, i, blocks');
    var m, m' := Min(n, |blocks|), Min(n + 1, |blocks|);
    forall j, k | 0 <= j < k < m'
      ensures Better(sc, blocks'[j], blocks'[k])
    {
      Ordered(sc, n, blocks, scores, i, j, k);
    }
    forall b: nat, j | b < n + 1 && b !in blocks'[..m'] && 0 <= j < m'
      ensures Better(sc, blocks'[j], b)
    {
      NotChosen(sc, n, blocks, scores, i, blocks', b, j);
    }
    forall b: nat | b < n + 1 <= |blocks|
      ensures b in blocks'[..m']
    {
      AllIn(sc, n, blocks, scores, i, blocks', b);
    }
  }

  lemma AllIn(sc: seq<int>, n: nat, blocks: seq<nat>, scores: seq<int>, i: nat, blocks': seq<nat>, b: nat)
    requires TopBlocks(sc, n, blocks, scores) && n + 1 <= |blocks| == |blocks'| && i <= n && b < n + 1
    requires forall j :: 0 <= j < n + 1 ==> blocks'[j] == Shifted(blocks, n, i, j)
    ensures b in blocks'[..n + 1]
  {
    StillIn(n, blocks, i, blocks');
    if b < n {
      assert b in blocks[..n];
      var l :| 0 <= l < n && blocks[l] == b;
    }
  }

  lemma Ordered(sc: seq<int>, n: nat, blocks: seq<nat>, scores: seq<int>, i: nat, j: nat, k: nat)
    requires TopBlocks(sc, n, blocks, scores) && n < |sc| && Place(blocks, scores, sc[n], i) && i <= Min(n, |blocks|)
    requires forall l :: i <= l < Min(n, |blocks|) ==> Better(sc, n, blocks[l])
    requires j < k < Min(n + 1, |blocks|)
    ensures Better(sc, Shifted(blocks, n, i, j), Shifted(blocks, n, i, k))
  {
    hide Place;
    assert k != i ==> k - 1 < Min(n, |blocks|);
    if j < i <= k {
      PlaceBefore(sc, n, blocks, scores, i, j);
    }
  }

  lemma PlaceBefore(sc: seq<int>, n: nat, blocks: seq<nat>, scores: seq<int>, i: nat, j: nat)
    requires |scores| == |blocks| && n < |sc| && Place(blocks, scores, sc[n], i) && j < i
    ensures scores[j] >= sc[n]
  {}

  /** Only the last candidate can have been dropped. */
  lemma StillIn(n: nat, blocks: seq<nat>, i: nat, blocks': seq<nat>)
    requires |blocks'| == |blocks| && i <= Min(n, |blocks|)
    requires forall j :: 0 <= j < Min(n + 1, |blocks|) ==> blocks'[j] == Shifted(blocks, n, i, j)
    ensures i < |blocks| ==> n in blocks'[..Min(n + 1, |blocks|)]
    ensures forall j :: 0 <= j < Min(n, |blocks|) && (i == |blocks| || j < |blocks| - 1) ==>
            blocks[j] in blocks'[..Min(n + 1, |blocks|)]
  {
    var m, m' := Min(n, |blocks|), Min(n + 1, |blocks|);
    if i < |blocks| {
      assert blocks'[..m'][i] == n;
    }
    forall j | 0 <= j < m && (i == |blocks| || j < |blocks| - 1)
      ensures blocks[j] in blocks'[..m']
    {
      if j < i {
        assert blocks'[..m'][j] == blocks[j];
      } else {
        assert blocks'[..m'][j + 1] == blocks[j];
      }
    }
  }

  /** The block in the first place is the lowest-numbered one of the highest score. */
  lemma FirstIsBest(sc: seq<int>, n: nat, blocks: seq<nat>, scores: seq<int>, b: nat)
    requires TopBlocks(sc, n, blocks, scores) && |blocks| > 0 && b < n
    ensures blocks[0] < n && sc[blocks[0]] >= sc[b] && (sc[blocks[0]] == sc[b] ==> blocks[0] <= b)
  {
    var m := Min(n, |blocks|);
    if b in blocks[..m] {
      var i :| 0 <= i < m && blocks[i] == b;
      assert i > 0 ==> Better(sc, blocks[0], blocks[i]);
    } else {
      assert Better(sc, blocks[0], b);
    }
  }

  /** Moves the candidates from place candIx on back by one. */
  method MakeRoom(candBlocks: array<nat>, candScores: array<int>, candIx: nat)
    requires candIx < candBlocks.Length == candScores.Length
    modifies candBlocks, candScores
    ensures candBlocks[..candIx] == old(candBlocks[..candIx]) && candScores[..candIx] == old(candScores[..candIx])
    ensures candBlocks[candIx + 1..] == old(candBlocks[candIx..candBlocks.Length - 1])
    ensures candScores[candIx + 1..] == old(candScores[candIx..candScores.Length - 1])
  {
    var reorder := candBlocks.Length - 2;
    while reorder >= candIx
      invariant candIx - 1 <= reorder <= candBlocks.Length - 2
      invariant candBlocks[..reorder + 2] == old(candBlocks[..])[..reorder + 2]
      invariant candScores[..reorder + 2] == old(candScores[..])[..reorder + 2]
      invariant candBlocks[reorder + 2..] == old(candBlocks[..])[reorder + 1..candBlocks.Length - 1]
      invariant candScores[reorder + 2..] == old(candScores[..])[reorder + 1..candScores.Length - 1]
    {
      candBlocks[reorder + 1], candScores[reorder + 1] := candBlocks[reorder], candScores[reorder];
      reorder := reorder - 1;
    }
  }

  /** Puts a block into the candidate table, in place. */
  method Insert(candBlocks: array<nat>, candScores: array<int>, block: nat, score: int) returns (ghost i: nat)
    requires candBlocks.Length == candScores.Length
    modifies candBlocks, candScores
    ensures Place(old(candBlocks[..]), old(candScores[..]), score, i)
    ensures PutAt(old(candBlocks[..]), old(candScores[..]), block, score, i, candBlocks[..], candScores[..])
  {
    ghost var blocks0, scores0 := candBlocks[..], candScores[..];
    var candIx, maxCandidates := 0, candBlocks.Length;
    while candIx < maxCandidates
      invariant 0 <= candIx <= maxCandidates
      invariant candBlocks[..] == blocks0 && candScores[..] == scores0
      invariant forall j :: 0 <= j < candIx ==> blocks0[j] != NO_BLOCK && scores0[j] >= score
    {
      if candBlocks[candIx] == NO_BLOCK {
        candBlocks[candIx], candScores[candIx] := block, score;
        return candIx;
      } else if candScores[candIx] < score {
        MakeRoom(candBlocks, candScores, candIx);
        candBlocks[candIx], candScores[candIx] := block, score;
        assert candBlocks[..] == candBlocks[..candIx] + [candBlocks[candIx]] + candBlocks[candIx + 1..];
        assert candScores[..] == candScores[..candIx] + [candScores[candIx]] + candScores[candIx + 1..];
        return candIx;
      }
      candIx := candIx + 1;
    }
    return candIx;
  }

  /** The free entries that the scan of a block leaves out make no difference: they come last. */
  lemma RestFree(g: Geometry, lu: seq<nat>, b: nat, e: nat)
    requires LuShape(g, lu) && FreeSuffix(g, lu) && InRange(g, b, e) && Entry(g, lu, b, e) == FREE
    ensures PagesIn(lu, g.Pix(b, 0), g.Pix(b, g.Entries()), DeletedKind) ==
            PagesIn(lu, g.Pix(b, 0), g.Pix(b, e), DeletedKind)
    ensures PagesIn(lu, g.Pix(b, 0), g.Pix(b, g.Entries()), LiveKind) == PagesIn(lu, g.Pix(b, 0), g.Pix(b, e), LiveKind)
  {
    forall p: nat | g.Pix(b, e) <= p < g.Pix(b, g.Entries())
      ensures p < |lu| && lu[p] == FREE
    {
      var e' := p - g.Pix(b, 0);
      PixRoundTrip(g, b, e');
      assert Entry(g, lu, b, e') == FREE;
    }
  }

  /** The scan of one block, which ends at its first free entry. */
  method ScanBlock(fs: Spiffs, b: nat) returns (deleted: nat, used: nat)
    requires fs.TablesOk() && b < fs.g.blocks
    ensures deleted == |PagesIn(fs.lu, fs.g.Pix(b, 0), fs.g.Pix(b, fs.g.Entries()), DeletedKind)|
    ensures used == |PagesIn(fs.lu, fs.g.Pix(b, 0), fs.g.Pix(b, fs.g.Entries()), LiveKind)|
  {
    hide FreeSuffix, FreeBlank;
    ghost var lo := fs.g.Pix(b, 0);
    deleted, used := 0, 0;
    var curEntry := 0;
    while curEntry < fs.g.Entries()
      invariant 0 <= curEntry <= fs.g.Entries()
      invariant deleted == |PagesIn(fs.lu, lo, fs.g.Pix(b, curEntry), DeletedKind)|
      invariant used == |PagesIn(fs.lu, lo, fs.g.Pix(b, curEntry), LiveKind)|
    {
      var objId := Entry(fs.g, fs.lu, b, curEntry);
      PixRoundTrip(fs.g, b, curEntry);
      CountStep(fs.lu, lo, fs.g.Pix(b, curEntry), DeletedKind);
      CountStep(fs.lu, lo, fs.g.Pix(b, curEntry), LiveKind);
      if objId == FREE {
        // free entries come last, so the rest need not be counted
        RestFree(fs.g, fs.lu, b, curEntry);
        return;
      } else if objId == DELETED {
        deleted := deleted + 1;
      } else {
        used := used + 1;
      }
      curEntry := curEntry + 1;
    }
  }

  lemma FewBlocks(g: Geometry)
    requires g.Wf()
    ensures g.blocks < NO_BLOCK
  {
    TimesAtLeast(g.blocks - 1, g.pagesPerBlock);
  }

  lemma NoneYet(sc: seq<int>, blocks: seq<nat>, scores: seq<int>)
    requires |scores| == |blocks| && forall i :: 0 <= i < |blocks| ==> blocks[i] == NO_BLOCK
    ensures TopBlocks(sc, 0, blocks, scores)
  {}

  /** Scores every block and keeps the best in a table that fits into the work buffer. */
  method FindCandidate(fs: Spiffs, crammed: bool) returns (candidates: array<nat>, count: nat, ghost scores: seq<int>)
    requires fs.Sound()
    modifies fs`work
    ensures fs.Sound() && fresh(candidates) && candidates.Length > 0 && count == fs.g.blocks
    ensures TopBlocks(Scores(fs.g, fs.lu, fs.eraseCounts, fs.maxEraseCount, crammed), fs.g.blocks, candidates[..],
                      scores)
    ensures candidates[0] < fs.g.blocks
  {
    hide FreeSuffix, FreeBlank, LuShape, TopBlocks, Place, PutAt, PagesIn, Consistent, FdsOk, CursorOk, DeletedPages,
         FreeBlocks, VolumeOf;
    var maxCandidates := Min(fs.g.blocks, (fs.g.dataSize + PAGE_HDR_BYTES - 8) / 6);
    candidates := new nat[maxCandidates](_ => NO_BLOCK);
    var candScores := new int[maxCandidates];
    // the table overwrites the work buffer
    assert PageShape(fs.g, Blank(fs.g));
    var table :| PageShape(fs.g, table);
    fs.work := table;
    count := 0;
    ghost var sc := Scores(fs.g, fs.lu, fs.eraseCounts, fs.maxEraseCount, crammed);
    NoneYet(sc, candidates[..], candScores[..]);
    var curBlock := 0;
    while curBlock < fs.g.blocks
      invariant 0 <= curBlock <= fs.g.blocks && count == curBlock
      invariant fs.Sound() && candidates.Length == candScores.Length == maxCandidates
      invariant TopBlocks(sc, curBlock, candidates[..], candScores[..])
    {
      FewBlocks(fs.g);
      var deleted, used := ScanBlock(fs, curBlock);
      var score := deleted * W_DELETED + used * W_USED
                   + EraseAge(fs.maxEraseCount, fs.eraseCounts[curBlock]) * (if crammed then 0 else W_AGE);
      assert score == sc[curBlock];
      ghost var blocks0, scores0 := candidates[..], candScores[..];
      ghost var i := Insert(candidates, candScores, curBlock, score);
      PutKeepsTop(sc, curBlock, blocks0, scores0, i, candidates[..], candScores[..]);
      count := count + 1;
      curBlock := curBlock + 1;
    }
    scores := candScores[..];
    FirstIsBest(sc, fs.g.blocks, candidates[..], scores, 0);
  }
}
