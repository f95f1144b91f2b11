/** The bytes of a file, as its data pages hold them. */
module Contents {
  import opened Wrappers
  import opened Layout
  import opened Nor

  function ByteAt(pd: seq<seq<Byte>>, d: nat, i: nat): Byte
    requires d > 0
  {
    if Quot(i, d) < |pd| && Rem(i, d) < |pd[Quot(i, d)]| then pd[Quot(i, d)][Rem(i, d)] else 0xff
  }

  function Flatten(pd: seq<seq<Byte>>, d: nat, n: nat): (c: seq<Byte>)
    requires d > 0
    ensures |c| == n
    ensures forall i :: 0 <= i < n ==> c[i] == ByteAt(pd, d, i)
  {
    seq<Byte>(n, i requires 0 <= i < n => ByteAt(pd, d, i))
  }

  /** Writing the bytes w at offset off, which may reach past the end. */
  function Write(c: seq<Byte>, off: nat, w: seq<Byte>): (r: seq<Byte>)
    requires off <= |c|
    ensures |r| == if off + |w| > |c| then off + |w| else |c|
  {
    c[..off] + w + (if off + |w| <= |c| then c[off + |w|..] else [])
  }

  /** The number of chunks in which len bytes are written from offset po of a page on. */
  function Chunks(d: nat, po: nat, len: nat): nat
    requires po < d
    decreases len
  {
    if len == 0 then 0 else 1 + Chunks(d, 0, len - Min(len, d - po))
  }

  lemma {:induction false} ChunksCover(d: nat, po: nat, len: nat)
    requires po < d
    ensures len <= Times(Chunks(d, po, len), d)
    decreases len
  {
    if len > 0 {
      ChunksCover(d, 0, len - Min(len, d - po));
    }
  }

  /** The chunks of a write of len bytes at offset off of a file. */
  function ChunksAt(d: nat, off: nat, len: nat): nat
    requires d > 0
  {
    QuotRem(off, d);
    Chunks(d, Rem(off, d), len)
  }

  lemma WriteWrite(c: seq<Byte>, off: nat, w: seq<Byte>, w': seq<Byte>)
    requires off <= |c|
    ensures Write(Write(c, off, w), off + |w|, w') == Write(c, off, w + w')
  {}

  /** A page with the bytes w put at offset po. */
  function Patch(page: seq<Byte>, po: nat, w: seq<Byte>): (r: seq<Byte>)
    requires po + |w| <= |page|
    ensures |r| == |page|
  {
    page[..po] + w + page[po + |w|..]
  }

  lemma PatchByte(pd: seq<seq<Byte>>, d: nat, s: nat, po: nat, w: seq<Byte>, i: nat)
    requires d > 0 && s < |pd| && |pd[s]| == d && po + |w| <= d
    ensures ByteAt(pd[s := Patch(pd[s], po, w)], d, i)
            == if Times(s, d) + po <= i < Times(s, d) + po + |w| then w[i - (Times(s, d) + po)] else ByteAt(pd, d, i)
  {
    if Times(s, d) <= i < Times(s, d) + d {
      QuotUnique(i, d, s, i - Times(s, d));
    } else {
      QuotRem(i, d);
    }
  }

  lemma FlattenPatch(pd: seq<seq<Byte>>, d: nat, n: nat, n': nat, s: nat, po: nat, w: seq<Byte>)
    requires d > 0 && s < |pd| && |pd[s]| == d && po + |w| <= d
    requires Times(s, d) + po <= n
    requires n' == if Times(s, d) + po + |w| > n then Times(s, d) + po + |w| else n
    ensures Flatten(pd[s := Patch(pd[s], po, w)], d, n') == Write(Flatten(pd, d, n), Times(s, d) + po, w)
  {
    var pd' := pd[s := Patch(pd[s], po, w)];
    var r := Write(Flatten(pd, d, n), Times(s, d) + po, w);
    forall i | 0 <= i < n'
      ensures ByteAt(pd', d, i) == r[i]
    {
      PatchByte(pd, d, s, po, w, i);
    }
  }

  lemma FlattenAppend(pd: seq<seq<Byte>>, d: nat, w: seq<Byte>, page: seq<Byte>)
    requires d > 0 && |page| == d && w <= page
    ensures Flatten(pd + [page], d, Times(|pd|, d) + |w|) == Flatten(pd, d, Times(|pd|, d)) + w
  {
    var n := Times(|pd|, d);
    forall i | 0 <= i < n + |w|
      ensures ByteAt(pd + [page], d, i) == (Flatten(pd, d, n) + w)[i]
    {
      QuotRem(i, d);
      if i >= n {
        QuotUnique(i, d, |pd|, i - n);
      } else if Quot(i, d) >= |pd| {
        TimesMono(|pd|, Quot(i, d), d);
      }
    }
  }
}
