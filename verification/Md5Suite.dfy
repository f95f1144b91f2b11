/** The digest of the empty message, worked out operation by operation: it is the one that section A.5 of RFC 1321
    lists. Every sine and every shift has a part in it. */
module Md5Suite {
  import opened Md5

  const BLOCK: seq<Word> := [0x80, 0, 0, 0, 0, 0, 0, 0, 0, 0, 0, 0, 0, 0, 0, 0]

  /** The word, the sine and the shift that an operation uses. */
  predicate Uses(n: nat, w: Word, k: Word, s: Word)
    requires n < 64
  {
    BLOCK[WordOf(n)] == w && Sine(n) == k && Shift(n) == s
  }

  /** What an operation assigns then. */
  lemma Turning(n: nat, a: Word, b: Word, c: Word, d: Word, w: Word, k: Word, s: Word, t: Word)
    requires n < 64 && Uses(n, w, k, s) && 0 < s < 32
    requires t == Add(b, RotateLeft(Add4(a, Mix(n, b, c, d), w, k), s))
    ensures Turned(n, a, b, c, d, BLOCK) == t
  {
    hide Add, RotateLeft, Add4, Mix, Sine, Shift, WordOf;
  }

  lemma OneMore(n: nat, r: Regs)
    requires n < 64 && Operations(n, START, BLOCK) == r
    ensures Operations(n + 1, START, BLOCK) == Operation(n, r, BLOCK)
  {
    hide Operation;
  }

  /** Four operations, one to each register. */
  lemma FourOperations(n: nat, r: Regs, a: Word, b: Word, c: Word, d: Word)
    requires n % 4 == 0 && n + 4 <= 64 && Operations(n, START, BLOCK) == r
    requires a == Turned(n, r.a, r.b, r.c, r.d, BLOCK) && d == Turned(n + 1, r.d, a, r.b, r.c, BLOCK)
    requires c == Turned(n + 2, r.c, d, a, r.b, BLOCK) && b == Turned(n + 3, r.b, c, d, a, BLOCK)
    ensures Operations(n + 4, START, BLOCK) == Regs(a, b, c, d)
  {
    hide Turned, Operations;
    OneMore(n, r);
    OneMore(n + 1, r.(a := a));
    OneMore(n + 2, r.(a := a, d := d));
    OneMore(n + 3, r.(a := a, d := d, c := c));
  }

  lemma After0()
    ensures Operations(0, START, BLOCK) == START
  {
  }


  lemma Row0()
    ensures Uses(0, 0x80, 0xd76aa478, 7) && Uses(1, 0, 0xe8c7b756, 12)
  {
  }

  lemma Row2()
    ensures Uses(2, 0, 0x242070db, 17) && Uses(3, 0, 0xc1bdceee, 22)
  {
  }

  lemma Row4()
    ensures Uses(4, 0, 0xf57c0faf, 7) && Uses(5, 0, 0x4787c62a, 12)
  {
  }

  lemma Row6()
    ensures Uses(6, 0, 0xa8304613, 17) && Uses(7, 0, 0xfd469501, 22)
  {
  }

  lemma After8()
    ensures Operations(8, START, BLOCK) == Regs(0x32033344, 0x9bc13ce9, 0xf5b158db, 0x2f35d494)
  {
    hide Uses, Turned, Operations;
    After0();
    Row0();
    Row2();
    Turning(0, 0x67452301, 0xefcdab89, 0x98badcfe, 0x10325476, 0x80, 0xd76aa478, 7, 0xa5202774);
    Turning(1, 0x10325476, 0xa5202774, 0xefcdab89, 0x98badcfe, 0, 0xe8c7b756, 12, 0xf59592dd);
    Turning(2, 0x98badcfe, 0xf59592dd, 0xa5202774, 0xefcdab89, 0, 0x242070db, 17, 0xe7f06b23);
    Turning(3, 0xefcdab89, 0xe7f06b23, 0xf59592dd, 0xa5202774, 0, 0xc1bdceee, 22, 0x1b163203);
    FourOperations(0, Regs(0x67452301, 0xefcdab89, 0x98badcfe, 0x10325476),
                   0xa5202774, 0x1b163203, 0xe7f06b23, 0xf59592dd);
    Row4();
    Row6();
    Turning(4, 0xa5202774, 0x1b163203, 0xe7f06b23, 0xf59592dd, 0, 0xf57c0faf, 7, 0x32033344);
    Turning(5, 0xf59592dd, 0x32033344, 0x1b163203, 0xe7f06b23, 0, 0x4787c62a, 12, 0x2f35d494);
    Turning(6, 0xe7f06b23, 0x2f35d494, 0x32033344, 0x1b163203, 0, 0xa8304613, 17, 0xf5b158db);
    Turning(7, 0x1b163203, 0xf5b158db, 0x2f35d494, 0x32033344, 0, 0xfd469501, 22, 0x9bc13ce9);
    FourOperations(4, Regs(0xa5202774, 0x1b163203, 0xe7f06b23, 0xf59592dd),
                   0x32033344, 0x9bc13ce9, 0xf5b158db, 0x2f35d494);
  }

  lemma Row8()
    ensures Uses(8, 0, 0x698098d8, 7) && Uses(9, 0, 0x8b44f7af, 12)
  {
  }

  lemma Row10()
    ensures Uses(10, 0, 0xffff5bb1, 17) && Uses(11, 0, 0x895cd7be, 22)
  {
  }

  lemma Row12()
    ensures Uses(12, 0, 0x6b901122, 7) && Uses(13, 0, 0xfd987193, 12)
  {
  }

  lemma Row14()
    ensures Uses(14, 0, 0xa679438e, 17) && Uses(15, 0, 0x49b40821, 22)
  {
  }

  lemma After16()
    ensures Operations(16, START, BLOCK) == Regs(0xf56c7cf1, 0xd6819c6a, 0x5aa53f75, 0x374943a7)
  {
    hide Uses, Turned, Operations;
    After8();
    Row8();
    Row10();
    Turning(8, 0x32033344, 0x9bc13ce9, 0xf5b158db, 0x2f35d494, 0, 0x698098d8, 7, 0x3893b991);
    Turning(9, 0x2f35d494, 0x3893b991, 0x9bc13ce9, 0xf5b158db, 0, 0x8b44f7af, 12, 0xfce4a312);
    Turning(10, 0xf5b158db, 0xfce4a312, 0x3893b991, 0x9bc13ce9, 0, 0xffff5bb1, 17, 0xe1ef0576);
    Turning(11, 0x9bc13ce9, 0xe1ef0576, 0xfce4a312, 0x3893b991, 0, 0x895cd7be, 22, 0x70768a29);
    FourOperations(8, Regs(0x32033344, 0x9bc13ce9, 0xf5b158db, 0x2f35d494),
                   0x3893b991, 0x70768a29, 0xe1ef0576, 0xfce4a312);
    Row12();
    Row14();
    Turning(12, 0x3893b991, 0x70768a29, 0xe1ef0576, 0xfce4a312, 0, 0x6b901122, 7, 0xf56c7cf1);
    Turning(13, 0xfce4a312, 0xf56c7cf1, 0x70768a29, 0xe1ef0576, 0, 0xfd987193, 12, 0x374943a7);
    Turning(14, 0xe1ef0576, 0x374943a7, 0xf56c7cf1, 0x70768a29, 0, 0xa679438e, 17, 0x5aa53f75);
    Turning(15, 0x70768a29, 0x5aa53f75, 0x374943a7, 0xf56c7cf1, 0, 0x49b40821, 22, 0xd6819c6a);
    FourOperations(12, Regs(0x3893b991, 0x70768a29, 0xe1ef0576, 0xfce4a312),
                   0xf56c7cf1, 0xd6819c6a, 0x5aa53f75, 0x374943a7);
  }

  lemma Row16()
    ensures Uses(16, 0, 0xf61e2562, 5) && Uses(17, 0, 0xc040b340, 9)
  {
  }

  lemma Row18()
    ensures Uses(18, 0, 0x265e5a51, 14) && Uses(19, 0x80, 0xe9b6c7aa, 20)
  {
  }

  lemma Row20()
    ensures Uses(20, 0, 0xd62f105d, 5) && Uses(21, 0, 0x02441453, 9)
  {
  }

  lemma Row22()
    ensures Uses(22, 0, 0xd8a1e681, 14) && Uses(23, 0, 0xe7d3fbc8, 20)
  {
  }

  lemma After24()
    ensures Operations(24, START, BLOCK) == Regs(0x3d1e3e6c, 0xe422531a, 0xeb41643e, 0x68b7b3e3)
  {
    hide Uses, Turned, Operations;
    After16();
    Row16();
    Row18();
    Turning(16, 0xf56c7cf1, 0xd6819c6a, 0x5aa53f75, 0x374943a7, 0, 0xf61e2562, 5, 0x1c7d7513);
    Turning(17, 0x374943a7, 0x1c7d7513, 0xd6819c6a, 0x5aa53f75, 0, 0xc040b340, 9, 0x7bd57a3a);
    Turning(18, 0x5aa53f75, 0x7bd57a3a, 0x1c7d7513, 0xd6819c6a, 0, 0x265e5a51, 14, 0xc095f13a);
    Turning(19, 0xd6819c6a, 0xc095f13a, 0x7bd57a3a, 0x1c7d7513, 0x80, 0xe9b6c7aa, 20, 0xbd782e17);
    FourOperations(16, Regs(0xf56c7cf1, 0xd6819c6a, 0x5aa53f75, 0x374943a7),
                   0x1c7d7513, 0xbd782e17, 0xc095f13a, 0x7bd57a3a);
    Row20();
    Row22();
    Turning(20, 0x1c7d7513, 0xbd782e17, 0xc095f13a, 0x7bd57a3a, 0, 0xd62f105d, 5, 0x3d1e3e6c);
    Turning(21, 0x7bd57a3a, 0x3d1e3e6c, 0xbd782e17, 0xc095f13a, 0, 0x02441453, 9, 0x68b7b3e3);
    Turning(22, 0xc095f13a, 0x68b7b3e3, 0x3d1e3e6c, 0xbd782e17, 0, 0xd8a1e681, 14, 0xeb41643e);
    Turning(23, 0xbd782e17, 0xeb41643e, 0x68b7b3e3, 0x3d1e3e6c, 0, 0xe7d3fbc8, 20, 0xe422531a);
    FourOperations(20, Regs(0x1c7d7513, 0xbd782e17, 0xc095f13a, 0x7bd57a3a),
                   0x3d1e3e6c, 0xe422531a, 0xeb41643e, 0x68b7b3e3);
  }

  lemma Row24()
    ensures Uses(24, 0, 0x21e1cde6, 5) && Uses(25, 0, 0xc33707d6, 9)
  {
  }

  lemma Row26()
    ensures Uses(26, 0, 0xf4d50d87, 14) && Uses(27, 0, 0x455a14ed, 20)
  {
  }

  lemma Row28()
    ensures Uses(28, 0, 0xa9e3e905, 5) && Uses(29, 0, 0xfcefa3f8, 9)
  {
  }

  lemma Row30()
    ensures Uses(30, 0, 0x676f02d9, 14) && Uses(31, 0, 0x8d2a4c8a, 20)
  {
  }

  lemma After32()
    ensures Operations(32, START, BLOCK) == Regs(0x13707036, 0xa2205f1f, 0x1c31c384, 0xae7813db)
  {
    hide Uses, Turned, Operations;
    After24();
    Row24();
    Row26();
    Turning(24, 0x3d1e3e6c, 0xe422531a, 0xeb41643e, 0x68b7b3e3, 0, 0x21e1cde6, 5, 0x306ec122);
    Turning(25, 0x68b7b3e3, 0x306ec122, 0xe422531a, 0xeb41643e, 0, 0xc33707d6, 9, 0xd28c77c2);
    Turning(26, 0xeb41643e, 0xd28c77c2, 0x306ec122, 0xe422531a, 0, 0xf4d50d87, 14, 0xa3c663da);
    Turning(27, 0xe422531a, 0xa3c663da, 0xd28c77c2, 0x306ec122, 0, 0x455a14ed, 20, 0xa0572807);
    FourOperations(24, Regs(0x3d1e3e6c, 0xe422531a, 0xeb41643e, 0x68b7b3e3),
                   0x306ec122, 0xa0572807, 0xa3c663da, 0xd28c77c2);
    Row28();
    Row30();
    Turning(28, 0x306ec122, 0xa0572807, 0xa3c663da, 0xd28c77c2, 0, 0xa9e3e905, 5, 0x13707036);
    Turning(29, 0xd28c77c2, 0x13707036, 0xa0572807, 0xa3c663da, 0, 0xfcefa3f8, 9, 0xae7813db);
    Turning(30, 0xa3c663da, 0xae7813db, 0x13707036, 0xa0572807, 0, 0x676f02d9, 14, 0x1c31c384);
    Turning(31, 0xa0572807, 0x1c31c384, 0xae7813db, 0x13707036, 0, 0x8d2a4c8a, 20, 0xa2205f1f);
    FourOperations(28, Regs(0x306ec122, 0xa0572807, 0xa3c663da, 0xd28c77c2),
                   0x13707036, 0xa2205f1f, 0x1c31c384, 0xae7813db);
  }

  lemma Row32()
    ensures Uses(32, 0, 0xfffa3942, 4) && Uses(33, 0, 0x8771f681, 11)
  {
  }

  lemma Row34()
    ensures Uses(34, 0, 0x6d9d6122, 16) && Uses(35, 0, 0xfde5380c, 23)
  {
  }

  lemma Row36()
    ensures Uses(36, 0, 0xa4beea44, 4) && Uses(37, 0, 0x4bdecfa9, 11)
  {
  }

  lemma Row38()
    ensures Uses(38, 0, 0xf6bb4b60, 16) && Uses(39, 0, 0xbebfbc70, 23)
  {
  }

  lemma After40()
    ensures Operations(40, START, BLOCK) == Regs(0x5f7a9b2e, 0xc5dc8c15, 0x91ca4cb7, 0xabc34e16)
  {
    hide Uses, Turned, Operations;
    After32();
    Row32();
    Row34();
    Turning(32, 0x13707036, 0xa2205f1f, 0x1c31c384, 0xae7813db, 0, 0xfffa3942, 4, 0xdf63eaa1);
    Turning(33, 0xae7813db, 0xdf63eaa1, 0xa2205f1f, 0x1c31c384, 0, 0x8771f681, 11, 0xc3689f5b);
    Turning(34, 0x1c31c384, 0xc3689f5b, 0xdf63eaa1, 0xa2205f1f, 0, 0x6d9d6122, 16, 0x12f3e755);
    Turning(35, 0xa2205f1f, 0x12f3e755, 0xc3689f5b, 0xdf63eaa1, 0, 0xfde5380c, 23, 0x004b6669);
    FourOperations(32, Regs(0x13707036, 0xa2205f1f, 0x1c31c384, 0xae7813db),
                   0xdf63eaa1, 0x004b6669, 0x12f3e755, 0xc3689f5b);
    Row36();
    Row38();
    Turning(36, 0xdf63eaa1, 0x004b6669, 0x12f3e755, 0xc3689f5b, 0, 0xa4beea44, 4, 0x5f7a9b2e);
    Turning(37, 0xc3689f5b, 0x5f7a9b2e, 0x004b6669, 0x12f3e755, 0, 0x4bdecfa9, 11, 0xabc34e16);
    Turning(38, 0x12f3e755, 0xabc34e16, 0x5f7a9b2e, 0x004b6669, 0, 0xf6bb4b60, 16, 0x91ca4cb7);
    Turning(39, 0x004b6669, 0x91ca4cb7, 0xabc34e16, 0x5f7a9b2e, 0, 0xbebfbc70, 23, 0xc5dc8c15);
    FourOperations(36, Regs(0xdf63eaa1, 0x004b6669, 0x12f3e755, 0xc3689f5b),
                   0x5f7a9b2e, 0xc5dc8c15, 0x91ca4cb7, 0xabc34e16);
  }

  lemma Row40()
    ensures Uses(40, 0, 0x289b7ec6, 4) && Uses(41, 0x80, 0xeaa127fa, 11)
  {
  }

  lemma Row42()
    ensures Uses(42, 0, 0xd4ef3085, 16) && Uses(43, 0, 0x04881d05, 23)
  {
  }

  lemma Row44()
    ensures Uses(44, 0, 0xd9d4d039, 4) && Uses(45, 0, 0xe6db99e5, 11)
  {
  }

  lemma Row46()
    ensures Uses(46, 0, 0x1fa27cf8, 16) && Uses(47, 0, 0xc4ac5665, 23)
  {
  }

  lemma After48()
    ensures Operations(48, START, BLOCK) == Regs(0x3f55edfd, 0xca7d2dbd, 0x68d84ea2, 0x22a31f54)
  {
    hide Uses, Turned, Operations;
    After40();
    Row40();
    Row42();
    Turning(40, 0x5f7a9b2e, 0xc5dc8c15, 0x91ca4cb7, 0xabc34e16, 0, 0x289b7ec6, 4, 0x4497169d);
    Turning(41, 0xabc34e16, 0x4497169d, 0xc5dc8c15, 0x91ca4cb7, 0x80, 0xeaa127fa, 11, 0x76fd93d4);
    Turning(42, 0x91ca4cb7, 0x76fd93d4, 0x4497169d, 0xc5dc8c15, 0, 0xd4ef3085, 16, 0xfd95f243);
    Turning(43, 0xc5dc8c15, 0xfd95f243, 0x76fd93d4, 0x4497169d, 0, 0x04881d05, 23, 0x0fe32453);
    FourOperations(40, Regs(0x5f7a9b2e, 0xc5dc8c15, 0x91ca4cb7, 0xabc34e16),
                   0x4497169d, 0x0fe32453, 0xfd95f243, 0x76fd93d4);
    Row44();
    Row46();
    Turning(44, 0x4497169d, 0x0fe32453, 0xfd95f243, 0x76fd93d4, 0, 0xd9d4d039, 4, 0x3f55edfd);
    Turning(45, 0x76fd93d4, 0x3f55edfd, 0x0fe32453, 0xfd95f243, 0, 0xe6db99e5, 11, 0x22a31f54);
    Turning(46, 0xfd95f243, 0x22a31f54, 0x3f55edfd, 0x0fe32453, 0, 0x1fa27cf8, 16, 0x68d84ea2);
    Turning(47, 0x0fe32453, 0x68d84ea2, 0x22a31f54, 0x3f55edfd, 0, 0xc4ac5665, 23, 0xca7d2dbd);
    FourOperations(44, Regs(0x4497169d, 0x0fe32453, 0xfd95f243, 0x76fd93d4),
                   0x3f55edfd, 0xca7d2dbd, 0x68d84ea2, 0x22a31f54);
  }

  lemma Row48()
    ensures Uses(48, 0x80, 0xf4292244, 6) && Uses(49, 0, 0x432aff97, 10)
  {
  }

  lemma Row50()
    ensures Uses(50, 0, 0xab9423a7, 15) && Uses(51, 0, 0xfc93a039, 21)
  {
  }

  lemma Row52()
    ensures Uses(52, 0, 0x655b59c3, 6) && Uses(53, 0, 0x8f0ccc92, 10)
  {
  }

  lemma Row54()
    ensures Uses(54, 0, 0xffeff47d, 15) && Uses(55, 0, 0x85845dd1, 21)
  {
  }

  lemma After56()
    ensures Operations(56, START, BLOCK) == Regs(0x5625a114, 0x1e77fa61, 0x392ad0d0, 0x3450f42b)
  {
    hide Uses, Turned, Operations;
    After48();
    Row48();
    Row50();
    Turning(48, 0x3f55edfd, 0xca7d2dbd, 0x68d84ea2, 0x22a31f54, 0x80, 0xf4292244, 6, 0x93aa2577);
    Turning(49, 0x22a31f54, 0x93aa2577, 0xca7d2dbd, 0x68d84ea2, 0, 0x432aff97, 10, 0x1688dc85);
    Turning(50, 0x68d84ea2, 0x1688dc85, 0x93aa2577, 0xca7d2dbd, 0, 0xab9423a7, 15, 0xcd85b8cb);
    Turning(51, 0xca7d2dbd, 0xcd85b8cb, 0x1688dc85, 0x93aa2577, 0, 0xfc93a039, 21, 0x561e0689);
    FourOperations(48, Regs(0x3f55edfd, 0xca7d2dbd, 0x68d84ea2, 0x22a31f54),
                   0x93aa2577, 0x561e0689, 0xcd85b8cb, 0x1688dc85);
    Row52();
    Row54();
    Turning(52, 0x93aa2577, 0x561e0689, 0xcd85b8cb, 0x1688dc85, 0, 0x655b59c3, 6, 0x5625a114);
    Turning(53, 0x1688dc85, 0x5625a114, 0x561e0689, 0xcd85b8cb, 0, 0x8f0ccc92, 10, 0x3450f42b);
    Turning(54, 0xcd85b8cb, 0x3450f42b, 0x5625a114, 0x561e0689, 0, 0xffeff47d, 15, 0x392ad0d0);
    Turning(55, 0x561e0689, 0x392ad0d0, 0x3450f42b, 0x5625a114, 0, 0x85845dd1, 21, 0x1e77fa61);
    FourOperations(52, Regs(0x93aa2577, 0x561e0689, 0xcd85b8cb, 0x1688dc85),
                   0x5625a114, 0x1e77fa61, 0x392ad0d0, 0x3450f42b);
  }

  lemma Row56()
    ensures Uses(56, 0, 0x6fa87e4f, 6) && Uses(57, 0, 0xfe2ce6e0, 10)
  {
  }

  lemma Row58()
    ensures Uses(58, 0, 0xa3014314, 15) && Uses(59, 0, 0x4e0811a1, 21)
  {
  }

  lemma Row60()
    ensures Uses(60, 0, 0xf7537e82, 6) && Uses(61, 0, 0xbd3af235, 10)
  {
  }

  lemma Row62()
    ensures Uses(62, 0, 0x2ad7d2bb, 15) && Uses(63, 0, 0xeb86d391, 21)
  {
  }

  lemma After64()
    ensures Operations(64, START, BLOCK) == Regs(0x7246fad3, 0x14e45506, 0xff4ea3eb, 0x6e10a476)
  {
    hide Uses, Turned, Operations;
    After56();
    Row56();
    Row58();
    Turning(56, 0x5625a114, 0x1e77fa61, 0x392ad0d0, 0x3450f42b, 0, 0x6fa87e4f, 6, 0x474a9c8c);
    Turning(57, 0x3450f42b, 0x474a9c8c, 0x1e77fa61, 0x392ad0d0, 0, 0xfe2ce6e0, 10, 0xdfce00bc);
    Turning(58, 0x392ad0d0, 0xdfce00bc, 0x474a9c8c, 0x1e77fa61, 0, 0xa3014314, 15, 0x36594b14);
    Turning(59, 0x1e77fa61, 0x36594b14, 0xdfce00bc, 0x474a9c8c, 0, 0x4e0811a1, 21, 0x30130182);
    FourOperations(56, Regs(0x5625a114, 0x1e77fa61, 0x392ad0d0, 0x3450f42b),
                   0x474a9c8c, 0x30130182, 0x36594b14, 0xdfce00bc);
    Row60();
    Row62();
    Turning(60, 0x474a9c8c, 0x30130182, 0x36594b14, 0xdfce00bc, 0, 0xf7537e82, 6, 0x7246fad3);
    Turning(61, 0xdfce00bc, 0x7246fad3, 0x30130182, 0x36594b14, 0, 0xbd3af235, 10, 0x6e10a476);
    Turning(62, 0x36594b14, 0x6e10a476, 0x7246fad3, 0x30130182, 0, 0x2ad7d2bb, 15, 0xff4ea3eb);
    Turning(63, 0x30130182, 0xff4ea3eb, 0x6e10a476, 0x7246fad3, 0, 0xeb86d391, 21, 0x14e45506);
    FourOperations(60, Regs(0x474a9c8c, 0x30130182, 0x36594b14, 0xdfce00bc),
                   0x7246fad3, 0x14e45506, 0xff4ea3eb, 0x6e10a476);
  }

  lemma NoLength()
    ensures ToBytes(NatWord(0)) == [0, 0, 0, 0]
  {
  }

  /** One byte with the first padding bit, and zeros. */
  lemma PaddedEmpty(m: seq<Byte>)
    requires m == []
    ensures var p := Padded(m); |p| == 64 && p[0] == 0x80 && forall i :: 0 < i < 64 ==> p[i] == 0
  {
    hide ToBytes, Padded, NatWord;
    var p := Padded(m);
    assert ZeroCount(|m|) == 55;
    NoLength();
    LengthBytes(m);
    assert p[56..60] == [0, 0, 0, 0] && p[60..] == [0, 0, 0, 0];
    forall i | 0 <= i < 64
      ensures p[i] == if i == 0 then 0x80 else 0
    {
      if i < 56 {
        PaddedAt(m, i);
      } else if i < 60 {
        assert p[i] == p[56..60][i - 56];
      } else {
        assert p[i] == p[60..][i - 60];
      }
    }
  }

  lemma EmptyWords()
    ensures |Padded([])| == 64 && Words(Padded([]), 0) == BLOCK
  {
    hide Padded;
    PaddedEmpty([]);
  }

  lemma OneBlock(p: seq<Byte>)
    requires |p| == 64
    ensures Blocks(p, 1) == Plus(START, Operations(64, START, Words(p, 0)))
  {
    hide Operations, Words, Plus;
    assert Blocks(p, 0) == START;
  }

  lemma Sum()
    ensures Plus(START, Regs(0x7246fad3, 0x14e45506, 0xff4ea3eb, 0x6e10a476))
            == Regs(0xd98c1dd4, 0x04b2008f, 0x980980e9, 0x7e42f8ec)
  {
  }

  /** The digest of the empty message. */
  lemma EmptyDigest()
    ensures Digest([]) == [0xd4, 0x1d, 0x8c, 0xd9, 0x8f, 0x00, 0xb2, 0x04,
                           0xe9, 0x80, 0x09, 0x98, 0xec, 0xf8, 0x42, 0x7e]
  {
    hide Operations, Padded, Words, Blocks, Plus;
    EmptyWords();
    OneBlock(Padded([]));
    After64();
    Sum();
  }
}
