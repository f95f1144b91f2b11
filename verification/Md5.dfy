/** The MD5 digest (ESP32/components/md5/md5.c), against RFC 1321. */
module Md5 {
  type Word = bv32
  type Byte = bv8

  const LIMIT: nat := 0x1_0000_0000

  // ---------- words and bytes ----------

  /** A word as four bytes, low-order byte first. */
  function ToBytes(v: Word): (b: seq<Byte>)
    ensures |b| == 4
  {
    [(v & 0xff) as Byte, ((v >> 8) & 0xff) as Byte, ((v >> 16) & 0xff) as Byte, ((v >> 24) & 0xff) as Byte]
  }

  function ToInt32(b: seq<Byte>): Word
    requires |b| == 4
  {
    (b[0] as Word) | ((b[1] as Word) << 8) | ((b[2] as Word) << 16) | ((b[3] as Word) << 24)
  }

  lemma BytesOfWord(v: Word)
    ensures ToInt32(ToBytes(v)) == v
  {
  }

  lemma Joined(b0: Byte, b1: Byte, b2: Byte, b3: Byte)
    ensures var v := (b0 as Word) | ((b1 as Word) << 8) | ((b2 as Word) << 16) | ((b3 as Word) << 24);
            && ((v & 0xff) as Byte) == b0 && (((v >> 8) & 0xff) as Byte) == b1
            && (((v >> 16) & 0xff) as Byte) == b2 && (((v >> 24) & 0xff) as Byte) == b3
  {
  }

  lemma WordOfBytes(b: seq<Byte>)
    requires |b| == 4
    ensures ToBytes(ToInt32(b)) == b
  {
    Joined(b[0], b[1], b[2], b[3]);
  }

  /** Sums are modulo 2^32. */
  function Add(x: Word, y: Word): Word {
    x + y
  }

  function Add4(x: Word, y: Word, z: Word, u: Word): Word {
    x + y + z + u
  }

  lemma AddedInAnyOrder(x: Word, y: Word, z: Word, u: Word)
    ensures Add4(x, y, z, u) == Add4(x, y, u, z)
  {
  }

  function RotateLeft(x: Word, c: Word): Word
    requires 0 < c < 32
  {
    (x << c) | (x >> (32 - c))
  }

  // ---------- what the operations do bit by bit ----------

  /** Rotating moves the bits of a word to the left: all but the lowest c bits of the result are all but the highest c
      bits of the word, in their order. */
  lemma RotatesLeft(x: Word, c: Word)
    requires 0 < c < 32
    ensures RotateLeft(x, c) >> c == (x << c) >> c
  {
  }

  /** And the lowest c bits are the highest ones of the word. */
  lemma RotatesRound(x: Word, c: Word)
    requires 0 < c < 32
    ensures RotateLeft(x, c) << (32 - c) == (x >> (32 - c)) << (32 - c)
  {
  }

  // ---------- padding, sections 3.1 and 3.2 of RFC 1321 ----------

  /** The bytes of a number below 2^32, low-order byte first. */
  function NatBytes(n: nat): (b: seq<Byte>)
    requires n < LIMIT
    ensures |b| == 4
  {
    [(n % 256) as Byte, (n / 256 % 256) as Byte, (n / 0x1_0000 % 256) as Byte, (n / 0x100_0000) as Byte]
  }

  function NatWord(n: nat): Word
    requires n < LIMIT
  {
    ToInt32(NatBytes(n))
  }

  function LowWord(len: nat): Word {
    NatWord(len * 8 % LIMIT)
  }

  function HighWord(len: nat): Word {
    NatWord(len * 8 / LIMIT % LIMIT)
  }

  /** How many zero bytes follow the byte with the first padding bit. */
  function ZeroCount(len: nat): (z: nat)
    ensures z < 64 && (len + 1 + z) % 64 == 56 && (len + z + 9) % 64 == 0
  {
    (119 - len % 64) % 64
  }

  function Zeros(n: nat): (z: seq<Byte>)
    ensures |z| == n && forall i :: 0 <= i < n ==> z[i] == 0
  {
    seq(n, _ => 0)
  }

  /** The message, a one bit, zero bits up to 448 modulo 512 bits, and the length in bits modulo 2^64, low-order word
      first. */
  function Padded(m: seq<Byte>): (p: seq<Byte>)
    ensures |p| % 64 == 0 && |p| == |m| + ZeroCount(|m|) + 9
  {
    m + [0x80] + Zeros(ZeroCount(|m|)) + ToBytes(LowWord(|m|)) + ToBytes(HighWord(|m|))
  }

  lemma PaddedAt(m: seq<Byte>, i: nat)
    requires |m| <= i < |m| + 1 + ZeroCount(|m|)
    ensures Padded(m)[..|m|] == m && Padded(m)[i] == if i == |m| then 0x80 else 0
  {
    hide ToBytes, Zeros, LowWord, HighWord;
    var p, z := Padded(m), Zeros(ZeroCount(|m|));
    assert i > |m| ==> p[i] == z[i - |m| - 1];
  }

  /** Different messages have different paddings: the last byte before the length that is not zero ends the message. */
  lemma PaddingInjective(m: seq<Byte>, m': seq<Byte>)
    ensures Padded(m) == Padded(m') ==> m == m'
  {
    hide Padded, ZeroCount;
    PaddedAt(m, |m|);
    PaddedAt(m', |m'|);
    if Padded(m) == Padded(m') {
      if |m| < |m'| {
        PaddedAt(m, |m'|);
      } else if |m'| < |m| {
        PaddedAt(m', |m|);
      }
    }
  }

  function ValueOf(b: seq<Byte>): int
    requires |b| == 4
  {
    b[0] as int + b[1] as int * 256 + b[2] as int * 0x1_0000 + b[3] as int * 0x100_0000
  }

  lemma NextByte(v: Byte)
    requires v != 255
    ensures (v + 1) as int == v as int + 1
  {
  }

  lemma ByteOfValue(v: Byte, n: nat)
    requires v as int == n
    ensures v == n as Byte
  {
  }

  lemma {:induction false} ByteValue(n: nat)
    requires n < 256
    ensures n as Byte as int == n
  {
    if n == 0 {
      ByteOfValue(0, 0);
    } else {
      var v := (n - 1) as Byte;
      ByteValue(n - 1);
      NextByte(v);
      ByteOfValue(v + 1, n);
    }
  }

  lemma NatValue(n: nat)
    requires n < LIMIT
    ensures ValueOf(ToBytes(NatWord(n))) == n
  {
    hide ToBytes, ToInt32;
    WordOfBytes(NatBytes(n));
    ByteValue(n % 256);
    ByteValue(n / 256 % 256);
    ByteValue(n / 0x1_0000 % 256);
    ByteValue(n / 0x100_0000);
    Digits(n);
  }

  lemma Digits(n: nat)
    ensures n == n % 256 + n / 256 % 256 * 256 + n / 0x1_0000 % 256 * 0x1_0000 + n / 0x100_0000 * 0x100_0000
  {
    assert n / 0x1_0000 == n / 256 / 256 && n / 0x100_0000 == n / 0x1_0000 / 256;
  }

  /** The last eight bytes of the padding are the length in bits modulo 2^64, low-order byte first. */
  lemma LengthReadBack(m: seq<Byte>)
    ensures var p := Padded(m);
            ValueOf(p[|p| - 8..|p| - 4]) + ValueOf(p[|p| - 4..]) * LIMIT == 8 * |m| % (LIMIT * LIMIT)
  {
    hide ToBytes, Padded, NatWord, ValueOf;
    LengthBytes(m);
    NatValue(8 * |m| % LIMIT);
    NatValue(8 * |m| / LIMIT % LIMIT);
    Halves(8 * |m|);
  }

  lemma LengthBytes(m: seq<Byte>)
    ensures var p := Padded(m);
            p[|p| - 8..|p| - 4] == ToBytes(LowWord(|m|)) && p[|p| - 4..] == ToBytes(HighWord(|m|))
  {
    hide ToBytes, Zeros, LowWord, HighWord;
  }

  lemma Halves(n: nat)
    ensures n % LIMIT + n / LIMIT % LIMIT * LIMIT == n % (LIMIT * LIMIT)
  {
    var q := n / LIMIT;
    assert n == n % LIMIT + (q / LIMIT * LIMIT + q % LIMIT) * LIMIT;
  }

  // ---------- the digest, sections 3.3 to 3.5 ----------

  datatype Regs = Regs(a: Word, b: Word, c: Word, d: Word)

  const START: Regs := Regs(0x67452301, 0xefcdab89, 0x98badcfe, 0x10325476)

  function F(x: Word, y: Word, z: Word): Word { (x & y) | (!x & z) }

  function G(x: Word, y: Word, z: Word): Word { (x & z) | (y & !z) }

  function H(x: Word, y: Word, z: Word): Word { x ^ y ^ z }

  function I(x: Word, y: Word, z: Word): Word { y ^ (x | !z) }

  /** Two words are the same where the third has its ones. */
  predicate SameAt(x: Word, y: Word, where_: Word) { x & where_ == y & where_ }

  /** In F each bit of x chooses between those of y and z. */
  lemma BitsOfF(x: Word, y: Word, z: Word)
    ensures SameAt(F(x, y, z), y, x) && SameAt(F(x, y, z), z, !x)
  {
  }

  /** In G each bit of z chooses between those of x and y. */
  lemma BitsOfG(x: Word, y: Word, z: Word)
    ensures SameAt(G(x, y, z), x, z) && SameAt(G(x, y, z), y, !z)
  {
  }

  /** H is the parity of the three: x where y and z are the same, and the opposite where they are not. */
  lemma BitsOfH(x: Word, y: Word, z: Word)
    ensures SameAt(H(x, y, z), x, !(y ^ z)) && SameAt(H(x, y, z), !x, y ^ z)
  {
  }

  /** I is y where z has a one and x none, and elsewhere the opposite. */
  lemma BitsOfI(x: Word, y: Word, z: Word)
    ensures SameAt(I(x, y, z), y, z & !x) && SameAt(I(x, y, z), !y, x | !z)
  {
  }

  /** For each round, the integer parts of 2^32 times the absolute value of the sine of 1, 2 and so on up to 64. */
  const SINES1: seq<Word> := [
    0xd76aa478, 0xe8c7b756, 0x242070db, 0xc1bdceee,
    0xf57c0faf, 0x4787c62a, 0xa8304613, 0xfd469501,
    0x698098d8, 0x8b44f7af, 0xffff5bb1, 0x895cd7be,
    0x6b901122, 0xfd987193, 0xa679438e, 0x49b40821]

  const SINES2: seq<Word> := [
    0xf61e2562, 0xc040b340, 0x265e5a51, 0xe9b6c7aa,
    0xd62f105d, 0x02441453, 0xd8a1e681, 0xe7d3fbc8,
    0x21e1cde6, 0xc33707d6, 0xf4d50d87, 0x455a14ed,
    0xa9e3e905, 0xfcefa3f8, 0x676f02d9, 0x8d2a4c8a]

  const SINES3: seq<Word> := [
    0xfffa3942, 0x8771f681, 0x6d9d6122, 0xfde5380c,
    0xa4beea44, 0x4bdecfa9, 0xf6bb4b60, 0xbebfbc70,
    0x289b7ec6, 0xeaa127fa, 0xd4ef3085, 0x04881d05,
    0xd9d4d039, 0xe6db99e5, 0x1fa27cf8, 0xc4ac5665]

  const SINES4: seq<Word> := [
    0xf4292244, 0x432aff97, 0xab9423a7, 0xfc93a039,
    0x655b59c3, 0x8f0ccc92, 0xffeff47d, 0x85845dd1,
    0x6fa87e4f, 0xfe2ce6e0, 0xa3014314, 0x4e0811a1,
    0xf7537e82, 0xbd3af235, 0x2ad7d2bb, 0xeb86d391]

  /** The word of the block that each operation of rounds two to four uses, as the rounds list them. */
  const ROUND2: seq<nat> := [1, 6, 11, 0, 5, 10, 15, 4, 9, 14, 3, 8, 13, 2, 7, 12]

  const ROUND3: seq<nat> := [5, 8, 11, 14, 1, 4, 7, 10, 13, 0, 3, 6, 9, 12, 15, 2]

  const ROUND4: seq<nat> := [0, 7, 14, 5, 12, 3, 10, 1, 8, 15, 6, 13, 4, 11, 2, 9]

  function WordOf(n: nat): (k: nat)
    requires n < 64
    ensures k < 16
  {
    if n < 16 then n else if n < 32 then ROUND2[n - 16] else if n < 48 then ROUND3[n - 32] else ROUND4[n - 48]
  }

  function Sine(n: nat): Word
    requires n < 64
  {
    if n < 16 then SINES1[n] else if n < 32 then SINES2[n - 16] else if n < 48 then SINES3[n - 32] else SINES4[n - 48]
  }

  const SHIFTS1: seq<Word> := [7, 12, 17, 22]

  const SHIFTS2: seq<Word> := [5, 9, 14, 20]

  const SHIFTS3: seq<Word> := [4, 11, 16, 23]

  const SHIFTS4: seq<Word> := [6, 10, 15, 21]

  /** The function of the round an operation is in. */
  function Mix(n: nat, x: Word, y: Word, z: Word): Word {
    if n < 16 then F(x, y, z) else if n < 32 then G(x, y, z) else if n < 48 then H(x, y, z) else I(x, y, z)
  }

  function Shift(n: nat): (c: Word)
    requires n < 64
    ensures 0 < c < 32
  {
    if n < 16 then SHIFTS1[n % 4] else if n < 32 then SHIFTS2[n % 4]
    else if n < 48 then SHIFTS3[n % 4] else SHIFTS4[n % 4]
  }

  /** What [abcd k s i] assigns to the first register it names. */
  function Turned(n: nat, a: Word, b: Word, c: Word, d: Word, x: seq<Word>): Word
    requires n < 64 && |x| == 16
  {
    Add(b, RotateLeft(Add4(a, Mix(n, b, c, d), x[WordOf(n)], Sine(n)), Shift(n)))
  }

  /** One operation: they name the registers as ABCD, DABC, CDAB, BCDA in turn. */
  function Operation(n: nat, r: Regs, x: seq<Word>): Regs
    requires n < 64 && |x| == 16
  {
    if n % 4 == 0 then r.(a := Turned(n, r.a, r.b, r.c, r.d, x))
    else if n % 4 == 1 then r.(d := Turned(n, r.d, r.a, r.b, r.c, x))
    else if n % 4 == 2 then r.(c := Turned(n, r.c, r.d, r.a, r.b, x))
    else r.(b := Turned(n, r.b, r.c, r.d, r.a, x))
  }

  function Operations(n: nat, r: Regs, x: seq<Word>): Regs
    requires n <= 64 && |x| == 16
  {
    if n == 0 then r else Operation(n - 1, Operations(n - 1, r, x), x)
  }

  function Words(p: seq<Byte>, at: nat): (x: seq<Word>)
    requires at + 64 <= |p|
    ensures |x| == 16
  {
    seq(16, j requires 0 <= j < 16 => ToInt32(p[at + 4 * j..at + 4 * j + 4]))
  }

  function Plus(r: Regs, s: Regs): Regs {
    Regs(Add(r.a, s.a), Add(r.b, s.b), Add(r.c, s.c), Add(r.d, s.d))
  }

  /** The registers after the first n blocks. */
  function Blocks(p: seq<Byte>, n: nat): Regs
    requires n * 64 <= |p|
  {
    if n == 0 then START else
      var r := Blocks(p, n - 1);
      Plus(r, Operations(64, r, Words(p, (n - 1) * 64)))
  }

  function Digest(m: seq<Byte>): (h: seq<Byte>)
    ensures |h| == 16
  {
    var p := Padded(m);
    var r := Blocks(p, |p| / 64);
    ToBytes(r.a) + ToBytes(r.b) + ToBytes(r.c) + ToBytes(r.d)
  }

  // ---------- the loop that renames registers instead ----------

  /** The registers as the loop holds them before its step n: its b is the one assigned last. */
  function View(n: nat, r: Regs): Regs {
    if n % 4 == 0 then r
    else if n % 4 == 1 then Regs(r.d, r.a, r.b, r.c)
    else if n % 4 == 2 then Regs(r.c, r.d, r.a, r.b)
    else Regs(r.b, r.c, r.d, r.a)
  }

  function Row(a: Word, b: Word, c: Word, d: Word): (q: seq<Word>)
    ensures |q| == 16
  {
    seq(16, t requires 0 <= t < 16 => [a, b, c, d][t % 4])
  }

  /** The shift amounts, row by row. */
  function R(i: nat): Word
    requires i < 64
  {
    if i < 16 then Row(7, 12, 17, 22)[i]
    else if i < 32 then Row(5, 9, 14, 20)[i - 16]
    else if i < 48 then Row(4, 11, 16, 23)[i - 32]
    else Row(6, 10, 15, 21)[i - 48]
  }

  /** G with the operands of the loop, which takes the roles of F's for d, b and c. */
  function LoopG(b: Word, c: Word, d: Word): Word { (d & b) | (!d & c) }

  /** The f the loop computes. */
  function Chosen(i: nat, b: Word, c: Word, d: Word): Word {
    if i < 16 then F(b, c, d) else if i < 32 then LoopG(b, c, d) else if i < 48 then H(b, c, d) else I(b, c, d)
  }

  /** The g the loop computes. */
  function ChosenWord(i: nat): (g: nat)
    ensures i < 64 ==> g < 16
  {
    if i < 16 then i else if i < 32 then (5 * i + 1) % 16 else if i < 48 then (3 * i + 5) % 16 else 7 * i % 16
  }

  lemma ChosenIsG(b: Word, c: Word, d: Word)
    ensures LoopG(b, c, d) == G(b, c, d)
  {
  }

  lemma ChosenIsMix(i: nat, b: Word, c: Word, d: Word)
    ensures Chosen(i, b, c, d) == Mix(i, b, c, d)
  {
    hide F, G, H, I, LoopG;
    ChosenIsG(b, c, d);
  }

  lemma Listed2(i: nat)
    requires 16 <= i < 32
    ensures WordOf(i) == (5 * i + 1) % 16
  {
  }

  lemma Listed3(i: nat)
    requires 32 <= i < 48
    ensures WordOf(i) == (3 * i + 5) % 16
  {
  }

  lemma Listed4(i: nat)
    requires 48 <= i < 64
    ensures WordOf(i) == 7 * i % 16
  {
  }

  lemma ChosenIsListed(i: nat)
    requires i < 64
    ensures ChosenWord(i) == WordOf(i)
  {
    if i < 16 {
    } else {
      hide WordOf;
      if i < 32 {
        Listed2(i);
      } else if i < 48 {
        Listed3(i);
      } else {
        Listed4(i);
      }
    }
  }

  lemma RowAt(a: Word, b: Word, c: Word, d: Word, t: nat)
    requires t < 16
    ensures Row(a, b, c, d)[t] == [a, b, c, d][t % 4]
  {
  }

  lemma ShiftIsListed(i: nat)
    requires i < 64
    ensures R(i) == Shift(i)
  {
    hide Row;
    if i < 16 {
      RowAt(7, 12, 17, 22, i);
    } else if i < 32 {
      RowAt(5, 9, 14, 20, i - 16);
      assert i % 4 == (i - 16) % 4;
    } else if i < 48 {
      RowAt(4, 11, 16, 23, i - 32);
      assert i % 4 == (i - 32) % 4;
    } else {
      RowAt(6, 10, 15, 21, i - 48);
      assert i % 4 == (i - 48) % 4;
    }
  }

  /** What the loop assigns to b. */
  function LoopTurned(i: nat, v: Regs, w: seq<Word>): Word
    requires i < 64 && |w| == 16
  {
    ShiftIsListed(i);
    Add(v.b, RotateLeft(Add4(v.a, Chosen(i, v.b, v.c, v.d), Sine(i), w[ChosenWord(i)]), R(i)))
  }

  lemma LoopTurnedIsTurned(i: nat, v: Regs, x: seq<Word>)
    requires i < 64 && |x| == 16
    ensures LoopTurned(i, v, x) == Turned(i, v.a, v.b, v.c, v.d, x)
  {
    hide Add, Add4, Chosen, Mix, ChosenWord, WordOf, Shift, RotateLeft, Sine;
    ChosenIsMix(i, v.b, v.c, v.d);
    ChosenIsListed(i);
    ShiftIsListed(i);
    AddedInAnyOrder(v.a, Mix(i, v.b, v.c, v.d), Sine(i), x[WordOf(i)]);
  }

  lemma StepAD(i: nat, r: Regs, x: seq<Word>)
    requires i < 64 && |x| == 16 && i % 4 < 2
    ensures var v, t := View(i, r), Turned(i, View(i, r).a, View(i, r).b, View(i, r).c, View(i, r).d, x);
            View(i + 1, Operation(i, r, x)) == Regs(v.d, t, v.b, v.c)
  {
    hide Turned;
  }

  lemma StepCB(i: nat, r: Regs, x: seq<Word>)
    requires i < 64 && |x| == 16 && i % 4 >= 2
    ensures var v, t := View(i, r), Turned(i, View(i, r).a, View(i, r).b, View(i, r).c, View(i, r).d, x);
            View(i + 1, Operation(i, r, x)) == Regs(v.d, t, v.b, v.c)
  {
    hide Turned;
  }

  /** A step of the loop does the next operation, on the registers as it holds them. */
  lemma StepIsOperation(i: nat, r: Regs, x: seq<Word>)
    requires i < 64 && |x| == 16
    ensures var v := View(i, r); View(i + 1, Operation(i, r, x)) == Regs(v.d, LoopTurned(i, v, x), v.b, v.c)
  {
    hide *;
    LoopTurnedIsTurned(i, View(i, r), x);
    if i % 4 < 2 {
      StepAD(i, r, x);
    } else {
      StepCB(i, r, x);
    }
  }

  lemma ViewEnds(r: Regs)
    ensures View(0, r) == r == View(64, r)
  {
  }

  // ---------- the program ----------

  method PutBytes(val: Word, bytes: array<Byte>, at: nat)
    requires at + 4 <= bytes.Length
    modifies bytes
    ensures bytes[..] == old(bytes[..at]) + ToBytes(val) + old(bytes[at + 4..])
  {
    bytes[at] := (val & 0xff) as Byte;
    bytes[at + 1] := ((val >> 8) & 0xff) as Byte;
    bytes[at + 2] := ((val >> 16) & 0xff) as Byte;
    bytes[at + 3] := ((val >> 24) & 0xff) as Byte;
  }

  lemma HighBits(len: nat)
    requires len < LIMIT
    ensures len / 0x2000_0000 < LIMIT && NatWord(len / 0x2000_0000) == HighWord(len)
  {
    hide NatWord;
    assert len * 8 / LIMIT == len / 0x2000_0000;
  }

  method PaddedLength(len: nat) returns (newLen: nat)
    ensures newLen == len + 1 + ZeroCount(len)
  {
    newLen := len + 1;
    while newLen % 64 != 56
      invariant len + 1 <= newLen <= len + 1 + ZeroCount(len)
      decreases len + 64 - newLen
    {
      newLen := newLen + 1;
    }
    ZerosEnd(len, newLen);
  }

  /** The message with a one bit and zero bits, in a buffer that has room for the length. */
  method Fill(initialMsg: array<Byte>, newLen: nat) returns (msg: array<Byte>)
    requires initialMsg.Length + 1 <= newLen
    ensures fresh(msg) && msg.Length == newLen + 8
    ensures msg[..newLen] == initialMsg[..] + [0x80] + Zeros(newLen - initialMsg.Length - 1)
  {
    var len := initialMsg.Length;
    msg := new Byte[newLen + 8];
    forall i | 0 <= i < len {
      msg[i] := initialMsg[i];
    }
    msg[len] := 0x80;
    var offset := len + 1;
    while offset < newLen
      invariant len + 1 <= offset <= newLen
      invariant msg[..offset] == initialMsg[..] + [0x80] + Zeros(offset - len - 1)
    {
      msg[offset] := 0;
      offset := offset + 1;
    }
  }

  /** The buffer of the padded message. The sizes stay within 32 bits. */
  method Prepare(initialMsg: array<Byte>) returns (msg: array<Byte>, newLen: nat)
    requires initialMsg.Length + 72 < LIMIT
    ensures fresh(msg) && msg[..] == Padded(initialMsg[..]) && newLen + 8 == msg.Length < LIMIT
  {
    hide ToBytes, Zeros, ZeroCount, NatWord;
    var len := initialMsg.Length;
    newLen := PaddedLength(len);
    msg := Fill(initialMsg, newLen);
    ghost var front := msg[..newLen];
    HighBits(len);
    PutBytes(NatWord(len * 8 % LIMIT), msg, newLen);
    assert msg[..newLen + 4] == front + ToBytes(LowWord(len));
    PutBytes(NatWord(len / 0x2000_0000), msg, newLen + 4);
    assert msg[..] == front + ToBytes(LowWord(len)) + ToBytes(HighWord(len));
  }

  lemma ZerosEnd(len: nat, newLen: nat)
    requires len + 1 <= newLen <= len + 1 + ZeroCount(len) && newLen % 64 == 56
    ensures newLen == len + 1 + ZeroCount(len)
  {
  }

  /** One step of the main loop. */
  method Step(i: nat, a0: Word, b0: Word, c0: Word, d0: Word, w: array<Word>)
    returns (a: Word, b: Word, c: Word, d: Word)
    requires i < 64 && w.Length == 16
    ensures Regs(a, b, c, d) == Regs(d0, LoopTurned(i, Regs(a0, b0, c0, d0), w[..]), b0, c0)
  {
    hide Add, Add4, RotateLeft, Shift, Sine, F, H, I, LoopG;
    a, b, c, d := a0, b0, c0, d0;
    var f, g;
    if i < 16 {
      f, g := F(b, c, d), i;
    } else if i < 32 {
      f, g := LoopG(b, c, d), (5 * i + 1) % 16;
    } else if i < 48 {
      f, g := H(b, c, d), (3 * i + 5) % 16;
    } else {
      f, g := I(b, c, d), 7 * i % 16;
    }
    ShiftIsListed(i);
    var temp := d;
    d := c;
    c := b;
    b := Add(b, RotateLeft(Add4(a, f, Sine(i), w[g]), R(i)));
    a := temp;
  }

  /** One block: the sixteen words are read, within the buffer, and the 64 steps done. */
  method Block(msg: array<Byte>, offset: nat, h: Regs) returns (r: Regs)
    requires offset + 64 <= msg.Length
    ensures r == Plus(h, Operations(64, h, Words(msg[..], offset)))
  {
    hide Add, ToInt32, Operation, LoopTurned, View;
    var w := new Word[16];
    ghost var x := Words(msg[..], offset);
    for i := 0 to 16
      invariant forall j :: 0 <= j < i ==> w[j] == x[j]
    {
      w[i] := ToInt32(msg[offset + 4 * i..offset + 4 * i + 4]);
      assert msg[..][offset + 4 * i..offset + 4 * i + 4] == msg[offset + 4 * i..offset + 4 * i + 4];
    }
    assert w[..] == x;
    var a, b, c, d := h.a, h.b, h.c, h.d;
    ViewEnds(h);
    for i := 0 to 64
      invariant Regs(a, b, c, d) == View(i, Operations(i, h, x))
      invariant w[..] == x
    {
      StepIsOperation(i, Operations(i, h, x), x);
      a, b, c, d := Step(i, a, b, c, d, w);
    }
    ViewEnds(Operations(64, h, x));
    r := Regs(Add(h.a, a), Add(h.b, b), Add(h.c, c), Add(h.d, d));
  }

  /** The four registers as the sixteen bytes of the digest. */
  method Finish(h: Regs, digest: array<Byte>)
    requires digest.Length >= 16
    modifies digest
    ensures digest[..] == ToBytes(h.a) + ToBytes(h.b) + ToBytes(h.c) + ToBytes(h.d) + old(digest[16..])
  {
    hide ToBytes;
    ghost var rest := digest[..];
    PutBytes(h.a, digest, 0);
    assert digest[..] == ToBytes(h.a) + rest[4..];
    PutBytes(h.b, digest, 4);
    assert digest[..] == ToBytes(h.a) + ToBytes(h.b) + rest[8..];
    PutBytes(h.c, digest, 8);
    assert digest[..] == ToBytes(h.a) + ToBytes(h.b) + ToBytes(h.c) + rest[12..];
    PutBytes(h.d, digest, 12);
  }

  lemma NextBlock(p: seq<Byte>, offset: nat)
    requires offset % 64 == 0 && offset + 64 <= |p|
    ensures var r := Blocks(p, offset / 64);
            Blocks(p, (offset + 64) / 64) == Plus(r, Operations(64, r, Words(p, offset)))
  {
    hide Plus, Operations, Words;
    assert (offset + 64) / 64 == offset / 64 + 1 && offset / 64 * 64 == offset;
  }

  /** The digest of the message of RFC 1321, for every message whose padding fits in 32 bits of size. */
  method Md5(initialMsg: array<Byte>, digest: array<Byte>)
    requires initialMsg.Length + 72 < LIMIT && digest.Length >= 16
    modifies digest
    ensures digest[..] == Digest(old(initialMsg[..])) + old(digest[16..])
  {
    hide Plus, Operations, Words, Blocks, Padded, ToBytes, ToInt32;
    var msg, newLen := Prepare(initialMsg);
    ghost var p := msg[..];
    var h := START;
    var offset := 0;
    NoBlocks(p);
    while offset < newLen
      invariant offset % 64 == 0 && offset <= newLen + 8
      invariant msg[..] == p && digest[..] == old(digest[..]) && h == Blocks(p, offset / 64)
    {
      NextBlock(p, offset);
      h := Block(msg, offset, h);
      offset := offset + 64;
    }
    assert offset == |p| && digest[16..] == old(digest[16..]);
    Finish(h, digest);
  }

  lemma NoBlocks(p: seq<Byte>)
    ensures Blocks(p, 0) == START
  {
  }
}
