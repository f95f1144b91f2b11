/** NOR flash cells. A cell of w bits is erased to all ones, and programming a value into it
    can only turn ones into zeroes, so a write stores the bitwise AND of what was there and
    what is written. */
module Nor {
  function And(a: nat, b: nat): (r: nat)
    ensures r <= a && r <= b
  {
    if a == 0 || b == 0 then 0
    else 2 * And(a / 2, b / 2) + (if a % 2 == 1 && b % 2 == 1 then 1 else 0)
  }

  function Pow2(w: nat): (r: nat)
    ensures r >= 1
  {
    if w == 0 then 1 else 2 * Pow2(w - 1)
  }

  predicate Bit(n: nat, i: nat) { if i == 0 then n % 2 == 1 else Bit(n / 2, i - 1) }

  /** Of what a cell holds and what is written, only the ones in common stay. */
  lemma {:induction false} AndBits(a: nat, b: nat, i: nat)
    ensures Bit(And(a, b), i) <==> Bit(a, i) && Bit(b, i)
  {
    if a == 0 {
      NoBits(i);
    } else if b == 0 {
      NoBits(i);
    } else if i > 0 {
      AndBits(a / 2, b / 2, i - 1);
    }
  }

  lemma {:induction false} NoBits(i: nat)
    ensures !Bit(0, i)
  {
    if i > 0 {
      NoBits(i - 1);
    }
  }

  /** Writing what a cell already holds leaves it alone. */
  lemma {:induction false} AndSelf(a: nat)
    ensures And(a, a) == a
  {
    if a != 0 {
      AndSelf(a / 2);
    }
  }

  /** Writing any value that fits into an erased cell stores that value. */
  lemma {:induction false} AndErased(w: nat, a: nat)
    requires a < Pow2(w)
    ensures And(Pow2(w) - 1, a) == a
  {
    if a != 0 {
      assert (Pow2(w) - 1) / 2 == Pow2(w - 1) - 1;
      AndErased(w - 1, a / 2);
    }
  }

  const BYTE_MAX: nat := 0xff
  const HALF_MAX: nat := 0xffff
  const WORD_MAX: nat := 0xffff_ffff

  type Byte = x: nat | x <= 0xff
  type Half = x: nat | x <= 0xffff
  type Word = x: nat | x <= 0xffff_ffff

  lemma AndByte(a: nat)
    requires a <= BYTE_MAX
    ensures And(BYTE_MAX, a) == a
  {
    Pow2Sizes();
    AndErased(8, a);
  }

  lemma AndHalf(a: nat)
    requires a <= HALF_MAX
    ensures And(HALF_MAX, a) == a
  {
    Pow2Sizes();
    AndErased(16, a);
  }

  lemma AndWord(a: nat)
    requires a <= WORD_MAX
    ensures And(WORD_MAX, a) == a
  {
    Pow2Sizes();
    AndErased(32, a);
  }

  lemma Pow2Sizes()
    ensures Pow2(8) == 0x100 && Pow2(16) == 0x1_0000 && Pow2(32) == 0x1_0000_0000
  {
    assert Pow2(2) == 4;
    assert Pow2(4) == 0x10;
    assert Pow2(6) == 0x40;
    assert Pow2(8) == 0x100;
    assert Pow2(10) == 0x400;
    assert Pow2(12) == 0x1000;
    assert Pow2(14) == 0x4000;
    assert Pow2(16) == 0x1_0000;
    assert Pow2(18) == 0x4_0000;
    assert Pow2(20) == 0x10_0000;
    assert Pow2(22) == 0x40_0000;
    assert Pow2(24) == 0x100_0000;
    assert Pow2(26) == 0x400_0000;
    assert Pow2(28) == 0x1000_0000;
    assert Pow2(30) == 0x4000_0000;
  }

  /** Programming a run of bytes. */
  function AndBytes(cells: seq<Byte>, bytes: seq<Byte>): (r: seq<Byte>)
    requires |cells| == |bytes|
    ensures |r| == |cells|
    ensures forall i :: 0 <= i < |r| ==> r[i] == And(cells[i], bytes[i])
  {
    seq<Byte>(|cells|, i requires 0 <= i < |cells| => And(cells[i], bytes[i]))
  }

  function AndHalves(cells: seq<Half>, halves: seq<Half>): (r: seq<Half>)
    requires |cells| == |halves|
    ensures |r| == |cells|
    ensures forall i :: 0 <= i < |r| ==> r[i] == And(cells[i], halves[i])
  {
    seq<Half>(|cells|, i requires 0 <= i < |cells| => And(cells[i], halves[i]))
  }

  lemma AndBytesErased(cells: seq<Byte>, bytes: seq<Byte>)
    requires |cells| == |bytes|
    requires forall i :: 0 <= i < |cells| ==> cells[i] == BYTE_MAX || cells[i] == bytes[i]
    ensures AndBytes(cells, bytes) == bytes
  {
    forall i | 0 <= i < |cells|
      ensures And(cells[i], bytes[i]) == bytes[i]
    {
      AndByte(bytes[i]);
      AndSelf(bytes[i]);
    }
  }

  lemma AndHalvesErased(cells: seq<Half>, halves: seq<Half>)
    requires |cells| == |halves|
    requires forall i :: 0 <= i < |cells| ==> cells[i] == HALF_MAX || cells[i] == halves[i]
    ensures AndHalves(cells, halves) == halves
  {
    forall i | 0 <= i < |cells|
      ensures And(cells[i], halves[i]) == halves[i]
    {
      AndHalf(halves[i]);
      AndSelf(halves[i]);
    }
  }
}
