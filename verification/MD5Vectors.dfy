/**
 * The digest of one of the test messages of section A.5 of RFC 1321, operation by operation. It fixes the
 * table T, the shifts, the order of the words and the auxiliary functions.
 */
module MD5Vectors {
  import opened MessageDigest

  /** The registers, when a, b, c and d are the parts they play in operation i. */
  function Placed(i: nat, a: Word, b: Word, c: Word, d: Word): Regs {
    if i % 4 == 0 then Regs(a, b, c, d)
    else if i % 4 == 1 then Regs(b, c, d, a)
    else if i % 4 == 2 then Regs(c, d, a, b)
    else Regs(d, a, b, c)
  }

  lemma OneMore(r0: Regs, x: seq<Word>, i: nat)
    requires i < 64 && |x| == 16
    ensures Operations(r0, x, i + 1) == Operation(Operations(r0, x, i), i, x[WordOrder(i)], T[i], SHIFTS[i])
  {
    hide Operation, WordOrder;
  }

  lemma Turn0(i: nat, r: Regs, xk: Word, t: Word, s: bv6)
    requires 0 < s < 32 && i % 4 == 0
    ensures Operation(r, i, xk, t, s) == Regs(Mix(r.a, r.b, Aux(i, r.b, r.c, r.d), xk, t, s), r.b, r.c, r.d)
  {
    hide Mix, Aux;
  }

  lemma Turn1(i: nat, r: Regs, xk: Word, t: Word, s: bv6)
    requires 0 < s < 32 && i % 4 == 1
    ensures Operation(r, i, xk, t, s) == Regs(r.a, r.b, r.c, Mix(r.d, r.a, Aux(i, r.a, r.b, r.c), xk, t, s))
  {
    hide Mix, Aux;
  }

  lemma Turn2(i: nat, r: Regs, xk: Word, t: Word, s: bv6)
    requires 0 < s < 32 && i % 4 == 2
    ensures Operation(r, i, xk, t, s) == Regs(r.a, r.b, Mix(r.c, r.d, Aux(i, r.d, r.a, r.b), xk, t, s), r.d)
  {
    hide Mix, Aux;
  }

  lemma Turn3(i: nat, r: Regs, xk: Word, t: Word, s: bv6)
    requires 0 < s < 32 && i % 4 == 3
    ensures Operation(r, i, xk, t, s) == Regs(r.a, Mix(r.b, r.c, Aux(i, r.c, r.d, r.a), xk, t, s), r.c, r.d)
  {
    hide Mix, Aux;
  }

  /** The register that operation i computes, and the turn of the registers. */
  lemma TakeTurns(i: nat, a: Word, b: Word, c: Word, d: Word, xk: Word, t: Word, s: bv6, v: Word)
    requires 0 < s < 32 && v == Mix(a, b, Aux(i, b, c, d), xk, t, s)
    ensures Operation(Placed(i, a, b, c, d), i, xk, t, s) == Placed(i + 1, d, v, b, c)
  {
    hide Mix, Aux, Operation;
    if i % 4 == 0 {
      Turn0(i, Regs(a, b, c, d), xk, t, s);
    } else if i % 4 == 1 {
      Turn1(i, Regs(b, c, d, a), xk, t, s);
    } else if i % 4 == 2 {
      Turn2(i, Regs(c, d, a, b), xk, t, s);
    } else {
      Turn3(i, Regs(d, a, b, c), xk, t, s);
    }
  }

  lemma Auxiliary1(i: nat, b: Word, c: Word, d: Word)
    requires 0 <= i < 16
    ensures Aux(i, b, c, d) == (b & c) | (!b & d)
  {
  }

  lemma Auxiliary2(i: nat, b: Word, c: Word, d: Word)
    requires 16 <= i < 32
    ensures Aux(i, b, c, d) == (b & d) | (c & !d)
  {
  }

  lemma Auxiliary3(i: nat, b: Word, c: Word, d: Word)
    requires 32 <= i < 48
    ensures Aux(i, b, c, d) == b ^ c ^ d
  {
  }

  lemma Auxiliary4(i: nat, b: Word, c: Word, d: Word)
    requires 48 <= i < 64
    ensures Aux(i, b, c, d) == c ^ (b | !d)
  {
  }

  /** One operation of round 1 in figures: the new value of b. */
  lemma Round1(r0: Regs, x: seq<Word>, i: nat, a: Word, b: Word, c: Word, d: Word, k: nat, xk: Word, t: Word, s: bv6,
              v: Word)
    requires 0 <= i < 16 && |x| == 16 && Operations(r0, x, i) == Placed(i, a, b, c, d)
    requires k == WordOrder(i) && xk == x[k] && t == T[i] && s == SHIFTS[i]
    requires v == Mix(a, b, (b & c) | (!b & d), xk, t, s)
    ensures Operations(r0, x, i + 1) == Placed(i + 1, d, v, b, c)
  {
    OneMore(r0, x, i);
    Auxiliary1(i, b, c, d);
    hide Operations, Operation, Aux, WordOrder, Mix, RotateLeft;
    TakeTurns(i, a, b, c, d, xk, t, s, v);
  }

  /** One operation of round 2 in figures: the new value of b. */
  lemma Round2(r0: Regs, x: seq<Word>, i: nat, a: Word, b: Word, c: Word, d: Word, k: nat, xk: Word, t: Word, s: bv6,
              v: Word)
    requires 16 <= i < 32 && |x| == 16 && Operations(r0, x, i) == Placed(i, a, b, c, d)
    requires k == WordOrder(i) && xk == x[k] && t == T[i] && s == SHIFTS[i]
    requires v == Mix(a, b, (b & d) | (c & !d), xk, t, s)
    ensures Operations(r0, x, i + 1) == Placed(i + 1, d, v, b, c)
  {
    OneMore(r0, x, i);
    Auxiliary2(i, b, c, d);
    hide Operations, Operation, Aux, WordOrder, Mix, RotateLeft;
    TakeTurns(i, a, b, c, d, xk, t, s, v);
  }

  /** One operation of round 3 in figures: the new value of b. */
  lemma Round3(r0: Regs, x: seq<Word>, i: nat, a: Word, b: Word, c: Word, d: Word, k: nat, xk: Word, t: Word, s: bv6,
              v: Word)
    requires 32 <= i < 48 && |x| == 16 && Operations(r0, x, i) == Placed(i, a, b, c, d)
    requires k == WordOrder(i) && xk == x[k] && t == T[i] && s == SHIFTS[i]
    requires v == Mix(a, b, b ^ c ^ d, xk, t, s)
    ensures Operations(r0, x, i + 1) == Placed(i + 1, d, v, b, c)
  {
    OneMore(r0, x, i);
    Auxiliary3(i, b, c, d);
    hide Operations, Operation, Aux, WordOrder, Mix, RotateLeft;
    TakeTurns(i, a, b, c, d, xk, t, s, v);
  }

  /** One operation of round 4 in figures: the new value of b. */
  lemma Round4(r0: Regs, x: seq<Word>, i: nat, a: Word, b: Word, c: Word, d: Word, k: nat, xk: Word, t: Word, s: bv6,
              v: Word)
    requires 48 <= i < 64 && |x| == 16 && Operations(r0, x, i) == Placed(i, a, b, c, d)
    requires k == WordOrder(i) && xk == x[k] && t == T[i] && s == SHIFTS[i]
    requires v == Mix(a, b, c ^ (b | !d), xk, t, s)
    ensures Operations(r0, x, i + 1) == Placed(i + 1, d, v, b, c)
  {
    OneMore(r0, x, i);
    Auxiliary4(i, b, c, d);
    hide Operations, Operation, Aux, WordOrder, Mix, RotateLeft;
    TakeTurns(i, a, b, c, d, xk, t, s, v);
  }

  lemma Row1()
    ensures T[0] == 0xd76aa478 && T[1] == 0xe8c7b756 && T[2] == 0x242070db && T[3] == 0xc1bdceee
    ensures SHIFTS[0] == 7 && SHIFTS[1] == 12 && SHIFTS[2] == 17 && SHIFTS[3] == 22
    ensures WordOrder(0) == 0 && WordOrder(1) == 1 && WordOrder(2) == 2 && WordOrder(3) == 3
  {
  }

  lemma Row2()
    ensures T[4] == 0xf57c0faf && T[5] == 0x4787c62a && T[6] == 0xa8304613 && T[7] == 0xfd469501
    ensures SHIFTS[4] == 7 && SHIFTS[5] == 12 && SHIFTS[6] == 17 && SHIFTS[7] == 22
    ensures WordOrder(4) == 4 && WordOrder(5) == 5 && WordOrder(6) == 6 && WordOrder(7) == 7
  {
  }

  lemma Row3()
    ensures T[8] == 0x698098d8 && T[9] == 0x8b44f7af && T[10] == 0xffff5bb1 && T[11] == 0x895cd7be
    ensures SHIFTS[8] == 7 && SHIFTS[9] == 12 && SHIFTS[10] == 17 && SHIFTS[11] == 22
    ensures WordOrder(8) == 8 && WordOrder(9) == 9 && WordOrder(10) == 10 && WordOrder(11) == 11
  {
  }

  lemma Row4()
    ensures T[12] == 0x6b901122 && T[13] == 0xfd987193 && T[14] == 0xa679438e && T[15] == 0x49b40821
    ensures SHIFTS[12] == 7 && SHIFTS[13] == 12 && SHIFTS[14] == 17 && SHIFTS[15] == 22
    ensures WordOrder(12) == 12 && WordOrder(13) == 13 && WordOrder(14) == 14 && WordOrder(15) == 15
  {
  }

  lemma Row5()
    ensures T[16] == 0xf61e2562 && T[17] == 0xc040b340 && T[18] == 0x265e5a51 && T[19] == 0xe9b6c7aa
    ensures SHIFTS[16] == 5 && SHIFTS[17] == 9 && SHIFTS[18] == 14 && SHIFTS[19] == 20
    ensures WordOrder(16) == 1 && WordOrder(17) == 6 && WordOrder(18) == 11 && WordOrder(19) == 0
  {
  }

  lemma Row6()
    ensures T[20] == 0xd62f105d && T[21] == 0x02441453 && T[22] == 0xd8a1e681 && T[23] == 0xe7d3fbc8
    ensures SHIFTS[20] == 5 && SHIFTS[21] == 9 && SHIFTS[22] == 14 && SHIFTS[23] == 20
    ensures WordOrder(20) == 5 && WordOrder(21) == 10 && WordOrder(22) == 15 && WordOrder(23) == 4
  {
  }

  lemma Row7()
    ensures T[24] == 0x21e1cde6 && T[25] == 0xc33707d6 && T[26] == 0xf4d50d87 && T[27] == 0x455a14ed
    ensures SHIFTS[24] == 5 && SHIFTS[25] == 9 && SHIFTS[26] == 14 && SHIFTS[27] == 20
    ensures WordOrder(24) == 9 && WordOrder(25) == 14 && WordOrder(26) == 3 && WordOrder(27) == 8
  {
  }

  lemma Row8()
    ensures T[28] == 0xa9e3e905 && T[29] == 0xfcefa3f8 && T[30] == 0x676f02d9 && T[31] == 0x8d2a4c8a
    ensures SHIFTS[28] == 5 && SHIFTS[29] == 9 && SHIFTS[30] == 14 && SHIFTS[31] == 20
    ensures WordOrder(28) == 13 && WordOrder(29) == 2 && WordOrder(30) == 7 && WordOrder(31) == 12
  {
  }

  lemma Row9()
    ensures T[32] == 0xfffa3942 && T[33] == 0x8771f681 && T[34] == 0x6d9d6122 && T[35] == 0xfde5380c
    ensures SHIFTS[32] == 4 && SHIFTS[33] == 11 && SHIFTS[34] == 16 && SHIFTS[35] == 23
    ensures WordOrder(32) == 5 && WordOrder(33) == 8 && WordOrder(34) == 11 && WordOrder(35) == 14
  {
  }

  lemma Row10()
    ensures T[36] == 0xa4beea44 && T[37] == 0x4bdecfa9 && T[38] == 0xf6bb4b60 && T[39] == 0xbebfbc70
    ensures SHIFTS[36] == 4 && SHIFTS[37] == 11 && SHIFTS[38] == 16 && SHIFTS[39] == 23
    ensures WordOrder(36) == 1 && WordOrder(37) == 4 && WordOrder(38) == 7 && WordOrder(39) == 10
  {
  }

  lemma Row11()
    ensures T[40] == 0x289b7ec6 && T[41] == 0xeaa127fa && T[42] == 0xd4ef3085 && T[43] == 0x04881d05
    ensures SHIFTS[40] == 4 && SHIFTS[41] == 11 && SHIFTS[42] == 16 && SHIFTS[43] == 23
    ensures WordOrder(40) == 13 && WordOrder(41) == 0 && WordOrder(42) == 3 && WordOrder(43) == 6
  {
  }

  lemma Row12()
    ensures T[44] == 0xd9d4d039 && T[45] == 0xe6db99e5 && T[46] == 0x1fa27cf8 && T[47] == 0xc4ac5665
    ensures SHIFTS[44] == 4 && SHIFTS[45] == 11 && SHIFTS[46] == 16 && SHIFTS[47] == 23
    ensures WordOrder(44) == 9 && WordOrder(45) == 12 && WordOrder(46) == 15 && WordOrder(47) == 2
  {
  }

  lemma Row13()
    ensures T[48] == 0xf4292244 && T[49] == 0x432aff97 && T[50] == 0xab9423a7 && T[51] == 0xfc93a039
    ensures SHIFTS[48] == 6 && SHIFTS[49] == 10 && SHIFTS[50] == 15 && SHIFTS[51] == 21
    ensures WordOrder(48) == 0 && WordOrder(49) == 7 && WordOrder(50) == 14 && WordOrder(51) == 5
  {
  }

  lemma Row14()
    ensures T[52] == 0x655b59c3 && T[53] == 0x8f0ccc92 && T[54] == 0xffeff47d && T[55] == 0x85845dd1
    ensures SHIFTS[52] == 6 && SHIFTS[53] == 10 && SHIFTS[54] == 15 && SHIFTS[55] == 21
    ensures WordOrder(52) == 12 && WordOrder(53) == 3 && WordOrder(54) == 10 && WordOrder(55) == 1
  {
  }

  lemma Row15()
    ensures T[56] == 0x6fa87e4f && T[57] == 0xfe2ce6e0 && T[58] == 0xa3014314 && T[59] == 0x4e0811a1
    ensures SHIFTS[56] == 6 && SHIFTS[57] == 10 && SHIFTS[58] == 15 && SHIFTS[59] == 21
    ensures WordOrder(56) == 8 && WordOrder(57) == 15 && WordOrder(58) == 6 && WordOrder(59) == 13
  {
  }

  lemma Row16()
    ensures T[60] == 0xf7537e82 && T[61] == 0xbd3af235 && T[62] == 0x2ad7d2bb && T[63] == 0xeb86d391
    ensures SHIFTS[60] == 6 && SHIFTS[61] == 10 && SHIFTS[62] == 15 && SHIFTS[63] == 21
    ensures WordOrder(60) == 4 && WordOrder(61) == 11 && WordOrder(62) == 2 && WordOrder(63) == 9
  {
  }

  /** The letters a to z. */
  const LETTERS: seq<Byte> :=
    [0x61, 0x62, 0x63, 0x64, 0x65, 0x66, 0x67, 0x68, 0x69, 0x6a, 0x6b, 0x6c, 0x6d,
     0x6e, 0x6f, 0x70, 0x71, 0x72, 0x73, 0x74, 0x75, 0x76, 0x77, 0x78, 0x79, 0x7a]

  predicate LettersWords(x: seq<Word>) {
    && |x| == 16
    && x[0] == 0x64636261 && x[1] == 0x68676665 && x[2] == 0x6c6b6a69 && x[3] == 0x706f6e6d
    && x[4] == 0x74737271 && x[5] == 0x78777675 && x[6] == 0x00807a79 && x[7] == 0
    && x[8] == 0 && x[9] == 0 && x[10] == 0 && x[11] == 0
    && x[12] == 0 && x[13] == 0 && x[14] == 0x000000d0 && x[15] == 0
  }

  lemma Letters1(x: seq<Word>)
    requires LettersWords(x)
    requires Operations(INITIAL, x, 0) == Placed(0, 0x67452301, 0xefcdab89, 0x98badcfe, 0x10325476)
    ensures Operations(INITIAL, x, 4) == Placed(4, 0xd6d117a6, 0x4503b812, 0x227d8cf1, 0xaab1aaaa)
  {
    Row1();
    hide Operations, WordOrder, T, SHIFTS, Placed;
    Round1(INITIAL, x, 0, 0x67452301, 0xefcdab89, 0x98badcfe, 0x10325476, 0, 0x64636261, 0xd76aa478, 7,
           0xd6d117a6);
    Round1(INITIAL, x, 1, 0x10325476, 0xd6d117a6, 0xefcdab89, 0x98badcfe, 1, 0x68676665, 0xe8c7b756, 12,
           0xaab1aaaa);
    Round1(INITIAL, x, 2, 0x98badcfe, 0xaab1aaaa, 0xd6d117a6, 0xefcdab89, 2, 0x6c6b6a69, 0x242070db, 17,
           0x227d8cf1);
    Round1(INITIAL, x, 3, 0xefcdab89, 0x227d8cf1, 0xaab1aaaa, 0xd6d117a6, 3, 0x706f6e6d, 0xc1bdceee, 22,
           0x4503b812);
  }

  lemma Letters2(x: seq<Word>)
    requires LettersWords(x)
    requires Operations(INITIAL, x, 4) == Placed(4, 0xd6d117a6, 0x4503b812, 0x227d8cf1, 0xaab1aaaa)
    ensures Operations(INITIAL, x, 8) == Placed(8, 0xfe15f787, 0xda9bbb0d, 0xb71122fc, 0xa811b278)
  {
    Row2();
    hide Operations, WordOrder, T, SHIFTS, Placed;
    Round1(INITIAL, x, 4, 0xd6d117a6, 0x4503b812, 0x227d8cf1, 0xaab1aaaa, 4, 0x74737271, 0xf57c0faf, 7,
           0xfe15f787);
    Round1(INITIAL, x, 5, 0xaab1aaaa, 0xfe15f787, 0x4503b812, 0x227d8cf1, 5, 0x78777675, 0x4787c62a, 12,
           0xa811b278);
    Round1(INITIAL, x, 6, 0x227d8cf1, 0xa811b278, 0xfe15f787, 0x4503b812, 6, 0x00807a79, 0xa8304613, 17,
           0xb71122fc);
    Round1(INITIAL, x, 7, 0x4503b812, 0xb71122fc, 0xa811b278, 0xfe15f787, 7, 0x00000000, 0xfd469501, 22,
           0xda9bbb0d);
  }

  lemma Letters3(x: seq<Word>)
    requires LettersWords(x)
    requires Operations(INITIAL, x, 8) == Placed(8, 0xfe15f787, 0xda9bbb0d, 0xb71122fc, 0xa811b278)
    ensures Operations(INITIAL, x, 12) == Placed(12, 0xae752899, 0x56cfa5cb, 0x7d4bd80b, 0x2bbe757f)
  {
    Row3();
    hide Operations, WordOrder, T, SHIFTS, Placed;
    Round1(INITIAL, x, 8, 0xfe15f787, 0xda9bbb0d, 0xb71122fc, 0xa811b278, 8, 0x00000000, 0x698098d8, 7,
           0xae752899);
    Round1(INITIAL, x, 9, 0xa811b278, 0xae752899, 0xda9bbb0d, 0xb71122fc, 9, 0x00000000, 0x8b44f7af, 12,
           0x2bbe757f);
    Round1(INITIAL, x, 10, 0xb71122fc, 0x2bbe757f, 0xae752899, 0xda9bbb0d, 10, 0x00000000, 0xffff5bb1, 17,
           0x7d4bd80b);
    Round1(INITIAL, x, 11, 0xda9bbb0d, 0x7d4bd80b, 0x2bbe757f, 0xae752899, 11, 0x00000000, 0x895cd7be, 22,
           0x56cfa5cb);
  }

  lemma Letters4(x: seq<Word>)
    requires LettersWords(x)
    requires Operations(INITIAL, x, 12) == Placed(12, 0xae752899, 0x56cfa5cb, 0x7d4bd80b, 0x2bbe757f)
    ensures Operations(INITIAL, x, 16) == Placed(16, 0x1754a316, 0x608d6b7e, 0x00df74d5, 0x85567d90)
  {
    Row4();
    hide Operations, WordOrder, T, SHIFTS, Placed;
    Round1(INITIAL, x, 12, 0xae752899, 0x56cfa5cb, 0x7d4bd80b, 0x2bbe757f, 12, 0x00000000, 0x6b901122, 7,
           0x1754a316);
    Round1(INITIAL, x, 13, 0x2bbe757f, 0x1754a316, 0x56cfa5cb, 0x7d4bd80b, 13, 0x00000000, 0xfd987193, 12,
           0x85567d90);
    Round1(INITIAL, x, 14, 0x7d4bd80b, 0x85567d90, 0x1754a316, 0x56cfa5cb, 14, 0x000000d0, 0xa679438e, 17,
           0x00df74d5);
    Round1(INITIAL, x, 15, 0x56cfa5cb, 0x00df74d5, 0x85567d90, 0x1754a316, 15, 0x00000000, 0x49b40821, 22,
           0x608d6b7e);
  }

  lemma Letters5(x: seq<Word>)
    requires LettersWords(x)
    requires Operations(INITIAL, x, 16) == Placed(16, 0x1754a316, 0x608d6b7e, 0x00df74d5, 0x85567d90)
    ensures Operations(INITIAL, x, 20) == Placed(20, 0x2d8071cc, 0x4c2145b3, 0xedfe7e4b, 0x5dcee119)
  {
    Row5();
    hide Operations, WordOrder, T, SHIFTS, Placed;
    Round2(INITIAL, x, 16, 0x1754a316, 0x608d6b7e, 0x00df74d5, 0x85567d90, 1, 0x68676665, 0xf61e2562, 5,
           0x2d8071cc);
    Round2(INITIAL, x, 17, 0x85567d90, 0x2d8071cc, 0x608d6b7e, 0x00df74d5, 6, 0x00807a79, 0xc040b340, 9,
           0x5dcee119);
    Round2(INITIAL, x, 18, 0x00df74d5, 0x5dcee119, 0x2d8071cc, 0x608d6b7e, 11, 0x00000000, 0x265e5a51, 14,
           0xedfe7e4b);
    Round2(INITIAL, x, 19, 0x608d6b7e, 0xedfe7e4b, 0x5dcee119, 0x2d8071cc, 0, 0x64636261, 0xe9b6c7aa, 20,
           0x4c2145b3);
  }

  lemma Letters6(x: seq<Word>)
    requires LettersWords(x)
    requires Operations(INITIAL, x, 20) == Placed(20, 0x2d8071cc, 0x4c2145b3, 0xedfe7e4b, 0x5dcee119)
    ensures Operations(INITIAL, x, 24) == Placed(24, 0x570c43e0, 0xc9f162d4, 0xc28ab49d, 0x977efd2a)
  {
    Row6();
    hide Operations, WordOrder, T, SHIFTS, Placed;
    Round2(INITIAL, x, 20, 0x2d8071cc, 0x4c2145b3, 0xedfe7e4b, 0x5dcee119, 5, 0x78777675, 0xd62f105d, 5,
           0x570c43e0);
    Round2(INITIAL, x, 21, 0x5dcee119, 0x570c43e0, 0x4c2145b3, 0xedfe7e4b, 10, 0x00000000, 0x02441453, 9,
           0x977efd2a);
    Round2(INITIAL, x, 22, 0xedfe7e4b, 0x977efd2a, 0x570c43e0, 0x4c2145b3, 15, 0x00000000, 0xd8a1e681, 14,
           0xc28ab49d);
    Round2(INITIAL, x, 23, 0x4c2145b3, 0xc28ab49d, 0x977efd2a, 0x570c43e0, 4, 0x74737271, 0xe7d3fbc8, 20,
           0xc9f162d4);
  }

  lemma Letters7(x: seq<Word>)
    requires LettersWords(x)
    requires Operations(INITIAL, x, 24) == Placed(24, 0x570c43e0, 0xc9f162d4, 0xc28ab49d, 0x977efd2a)
    ensures Operations(INITIAL, x, 28) == Placed(28, 0x25bfae3b, 0xe6d3b398, 0xf8c8365f, 0x89980104)
  {
    Row7();
    hide Operations, WordOrder, T, SHIFTS, Placed;
    Round2(INITIAL, x, 24, 0x570c43e0, 0xc9f162d4, 0xc28ab49d, 0x977efd2a, 9, 0x00000000, 0x21e1cde6, 5,
           0x25bfae3b);
    Round2(INITIAL, x, 25, 0x977efd2a, 0x25bfae3b, 0xc9f162d4, 0xc28ab49d, 14, 0x000000d0, 0xc33707d6, 9,
           0x89980104);
    Round2(INITIAL, x, 26, 0xc28ab49d, 0x89980104, 0x25bfae3b, 0xc9f162d4, 3, 0x706f6e6d, 0xf4d50d87, 14,
           0xf8c8365f);
    Round2(INITIAL, x, 27, 0xc9f162d4, 0xf8c8365f, 0x89980104, 0x25bfae3b, 8, 0x00000000, 0x455a14ed, 20,
           0xe6d3b398);
  }

  lemma Letters8(x: seq<Word>)
    requires LettersWords(x)
    requires Operations(INITIAL, x, 28) == Placed(28, 0x25bfae3b, 0xe6d3b398, 0xf8c8365f, 0x89980104)
    ensures Operations(INITIAL, x, 32) == Placed(32, 0xf54d8710, 0xaeb35766, 0x2e69afc7, 0x927b72e2)
  {
    Row8();
    hide Operations, WordOrder, T, SHIFTS, Placed;
    Round2(INITIAL, x, 28, 0x25bfae3b, 0xe6d3b398, 0xf8c8365f, 0x89980104, 13, 0x00000000, 0xa9e3e905, 5,
           0xf54d8710);
    Round2(INITIAL, x, 29, 0x89980104, 0xf54d8710, 0xe6d3b398, 0xf8c8365f, 2, 0x6c6b6a69, 0xfcefa3f8, 9,
           0x927b72e2);
    Round2(INITIAL, x, 30, 0xf8c8365f, 0x927b72e2, 0xf54d8710, 0xe6d3b398, 7, 0x00000000, 0x676f02d9, 14,
           0x2e69afc7);
    Round2(INITIAL, x, 31, 0xe6d3b398, 0x2e69afc7, 0x927b72e2, 0xf54d8710, 12, 0x00000000, 0x8d2a4c8a, 20,
           0xaeb35766);
  }

  lemma Letters9(x: seq<Word>)
    requires LettersWords(x)
    requires Operations(INITIAL, x, 32) == Placed(32, 0xf54d8710, 0xaeb35766, 0x2e69afc7, 0x927b72e2)
    ensures Operations(INITIAL, x, 36) == Placed(36, 0xb4bf680e, 0x06a5e211, 0x2361ed0a, 0x4c8ffa80)
  {
    Row9();
    hide Operations, WordOrder, T, SHIFTS, Placed;
    Round3(INITIAL, x, 32, 0xf54d8710, 0xaeb35766, 0x2e69afc7, 0x927b72e2, 5, 0x78777675, 0xfffa3942, 4,
           0xb4bf680e);
    Round3(INITIAL, x, 33, 0x927b72e2, 0xb4bf680e, 0xaeb35766, 0x2e69afc7, 8, 0x00000000, 0x8771f681, 11,
           0x4c8ffa80);
    Round3(INITIAL, x, 34, 0x2e69afc7, 0x4c8ffa80, 0xb4bf680e, 0xaeb35766, 11, 0x00000000, 0x6d9d6122, 16,
           0x2361ed0a);
    Round3(INITIAL, x, 35, 0xaeb35766, 0x2361ed0a, 0x4c8ffa80, 0xb4bf680e, 14, 0x000000d0, 0xfde5380c, 23,
           0x06a5e211);
  }

  lemma Letters10(x: seq<Word>)
    requires LettersWords(x)
    requires Operations(INITIAL, x, 36) == Placed(36, 0xb4bf680e, 0x06a5e211, 0x2361ed0a, 0x4c8ffa80)
    ensures Operations(INITIAL, x, 40) == Placed(40, 0xb9c0c733, 0x8d41bf99, 0x23a9451b, 0xf1e6dc7a)
  {
    Row10();
    hide Operations, WordOrder, T, SHIFTS, Placed;
    Round3(INITIAL, x, 36, 0xb4bf680e, 0x06a5e211, 0x2361ed0a, 0x4c8ffa80, 1, 0x68676665, 0xa4beea44, 4,
           0xb9c0c733);
    Round3(INITIAL, x, 37, 0x4c8ffa80, 0xb9c0c733, 0x06a5e211, 0x2361ed0a, 4, 0x74737271, 0x4bdecfa9, 11,
           0xf1e6dc7a);
    Round3(INITIAL, x, 38, 0x2361ed0a, 0xf1e6dc7a, 0xb9c0c733, 0x06a5e211, 7, 0x00000000, 0xf6bb4b60, 16,
           0x23a9451b);
    Round3(INITIAL, x, 39, 0x06a5e211, 0x23a9451b, 0xf1e6dc7a, 0xb9c0c733, 10, 0x00000000, 0xbebfbc70, 23,
           0x8d41bf99);
  }

  lemma Letters11(x: seq<Word>)
    requires LettersWords(x)
    requires Operations(INITIAL, x, 40) == Placed(40, 0xb9c0c733, 0x8d41bf99, 0x23a9451b, 0xf1e6dc7a)
    ensures Operations(INITIAL, x, 44) == Placed(44, 0xa3e88ead, 0x90a35af5, 0x66f6468d, 0x02c0b11c)
  {
    Row11();
    hide Operations, WordOrder, T, SHIFTS, Placed;
    Round3(INITIAL, x, 40, 0xb9c0c733, 0x8d41bf99, 0x23a9451b, 0xf1e6dc7a, 13, 0x00000000, 0x289b7ec6, 4,
           0xa3e88ead);
    Round3(INITIAL, x, 41, 0xf1e6dc7a, 0xa3e88ead, 0x8d41bf99, 0x23a9451b, 0, 0x64636261, 0xeaa127fa, 11,
           0x02c0b11c);
    Round3(INITIAL, x, 42, 0x23a9451b, 0x02c0b11c, 0xa3e88ead, 0x8d41bf99, 3, 0x706f6e6d, 0xd4ef3085, 16,
           0x66f6468d);
    Round3(INITIAL, x, 43, 0x8d41bf99, 0x66f6468d, 0x02c0b11c, 0xa3e88ead, 6, 0x00807a79, 0x04881d05, 23,
           0x90a35af5);
  }

  lemma Letters12(x: seq<Word>)
    requires LettersWords(x)
    requires Operations(INITIAL, x, 44) == Placed(44, 0xa3e88ead, 0x90a35af5, 0x66f6468d, 0x02c0b11c)
    ensures Operations(INITIAL, x, 48) == Placed(48, 0xb5d41f9c, 0x71d10367, 0x703d54d8, 0xa04b4904)
  {
    Row12();
    hide Operations, WordOrder, T, SHIFTS, Placed;
    Round3(INITIAL, x, 44, 0xa3e88ead, 0x90a35af5, 0x66f6468d, 0x02c0b11c, 9, 0x00000000, 0xd9d4d039, 4,
           0xb5d41f9c);
    Round3(INITIAL, x, 45, 0x02c0b11c, 0xb5d41f9c, 0x90a35af5, 0x66f6468d, 12, 0x00000000, 0xe6db99e5, 11,
           0xa04b4904);
    Round3(INITIAL, x, 46, 0x66f6468d, 0xa04b4904, 0xb5d41f9c, 0x90a35af5, 15, 0x00000000, 0x1fa27cf8, 16,
           0x703d54d8);
    Round3(INITIAL, x, 47, 0x90a35af5, 0x703d54d8, 0xa04b4904, 0xb5d41f9c, 2, 0x6c6b6a69, 0xc4ac5665, 23,
           0x71d10367);
  }

  lemma Letters13(x: seq<Word>)
    requires LettersWords(x)
    requires Operations(INITIAL, x, 48) == Placed(48, 0xb5d41f9c, 0x71d10367, 0x703d54d8, 0xa04b4904)
    ensures Operations(INITIAL, x, 52) == Placed(52, 0xfc32dd6e, 0x33edb197, 0xb35602cb, 0x65456b34)
  {
    Row13();
    hide Operations, WordOrder, T, SHIFTS, Placed;
    Round4(INITIAL, x, 48, 0xb5d41f9c, 0x71d10367, 0x703d54d8, 0xa04b4904, 0, 0x64636261, 0xf4292244, 6,
           0xfc32dd6e);
    Round4(INITIAL, x, 49, 0xa04b4904, 0xfc32dd6e, 0x71d10367, 0x703d54d8, 7, 0x00000000, 0x432aff97, 10,
           0x65456b34);
    Round4(INITIAL, x, 50, 0x703d54d8, 0x65456b34, 0xfc32dd6e, 0x71d10367, 14, 0x000000d0, 0xab9423a7, 15,
           0xb35602cb);
    Round4(INITIAL, x, 51, 0x71d10367, 0xb35602cb, 0x65456b34, 0xfc32dd6e, 5, 0x78777675, 0xfc93a039, 21,
           0x33edb197);
  }

  lemma Letters14(x: seq<Word>)
    requires LettersWords(x)
    requires Operations(INITIAL, x, 52) == Placed(52, 0xfc32dd6e, 0x33edb197, 0xb35602cb, 0x65456b34)
    ensures Operations(INITIAL, x, 56) == Placed(56, 0xc1e942f1, 0x83877d1b, 0x23a68048, 0xd9bb987c)
  {
    Row14();
    hide Operations, WordOrder, T, SHIFTS, Placed;
    Round4(INITIAL, x, 52, 0xfc32dd6e, 0x33edb197, 0xb35602cb, 0x65456b34, 12, 0x00000000, 0x655b59c3, 6,
           0xc1e942f1);
    Round4(INITIAL, x, 53, 0x65456b34, 0xc1e942f1, 0x33edb197, 0xb35602cb, 3, 0x706f6e6d, 0x8f0ccc92, 10,
           0xd9bb987c);
    Round4(INITIAL, x, 54, 0xb35602cb, 0xd9bb987c, 0xc1e942f1, 0x33edb197, 10, 0x00000000, 0xffeff47d, 15,
           0x23a68048);
    Round4(INITIAL, x, 55, 0x33edb197, 0x23a68048, 0xd9bb987c, 0xc1e942f1, 1, 0x68676665, 0x85845dd1, 21,
           0x83877d1b);
  }

  lemma Letters15(x: seq<Word>)
    requires LettersWords(x)
    requires Operations(INITIAL, x, 56) == Placed(56, 0xc1e942f1, 0x83877d1b, 0x23a68048, 0xd9bb987c)
    ensures Operations(INITIAL, x, 60) == Placed(60, 0x0077c208, 0x5e6bc930, 0xa3e2247f, 0x847fc2e7)
  {
    Row15();
    hide Operations, WordOrder, T, SHIFTS, Placed;
    Round4(INITIAL, x, 56, 0xc1e942f1, 0x83877d1b, 0x23a68048, 0xd9bb987c, 8, 0x00000000, 0x6fa87e4f, 6,
           0x0077c208);
    Round4(INITIAL, x, 57, 0xd9bb987c, 0x0077c208, 0x83877d1b, 0x23a68048, 15, 0x00000000, 0xfe2ce6e0, 10,
           0x847fc2e7);
    Round4(INITIAL, x, 58, 0x23a68048, 0x847fc2e7, 0x0077c208, 0x83877d1b, 6, 0x00807a79, 0xa3014314, 15,
           0xa3e2247f);
    Round4(INITIAL, x, 59, 0x83877d1b, 0xa3e2247f, 0x847fc2e7, 0x0077c208, 13, 0x00000000, 0x4e0811a1, 21,
           0x5e6bc930);
  }

  lemma Letters16(x: seq<Word>)
    requires LettersWords(x)
    requires Operations(INITIAL, x, 60) == Placed(60, 0x0077c208, 0x5e6bc930, 0xa3e2247f, 0x847fc2e7)
    ensures Operations(INITIAL, x, 64) == Placed(64, 0x708ed9c2, 0x1116e6d8, 0xd38f1e7f, 0x2baf1354)
  {
    Row16();
    hide Operations, WordOrder, T, SHIFTS, Placed;
    Round4(INITIAL, x, 60, 0x0077c208, 0x5e6bc930, 0xa3e2247f, 0x847fc2e7, 4, 0x74737271, 0xf7537e82, 6,
           0x708ed9c2);
    Round4(INITIAL, x, 61, 0x847fc2e7, 0x708ed9c2, 0x5e6bc930, 0xa3e2247f, 11, 0x00000000, 0xbd3af235, 10,
           0x2baf1354);
    Round4(INITIAL, x, 62, 0xa3e2247f, 0x2baf1354, 0x708ed9c2, 0x5e6bc930, 2, 0x6c6b6a69, 0x2ad7d2bb, 15,
           0xd38f1e7f);
    Round4(INITIAL, x, 63, 0x5e6bc930, 0xd38f1e7f, 0x2baf1354, 0x708ed9c2, 9, 0x00000000, 0xeb86d391, 21,
           0x1116e6d8);
  }

  lemma First(x: seq<Word>)
    requires |x| == 16
    ensures Operations(INITIAL, x, 0) == Placed(0, 0x67452301, 0xefcdab89, 0x98badcfe, 0x10325476)
  {
  }

  lemma OneBlock(p: seq<Byte>)
    requires |p| == 64
    ensures Blocks(INITIAL, p) == AddRegs(INITIAL, Operations(INITIAL, Words(p), 64))
  {
    hide Operations, Words;
    assert p[..64] == p && p[64..] == [];
  }

  lemma HexDigits()
    ensures HexDigit(0) == '0' && HexDigit(1) == '1' && HexDigit(2) == '2' && HexDigit(3) == '3'
    ensures HexDigit(4) == '4' && HexDigit(5) == '5' && HexDigit(6) == '6' && HexDigit(7) == '7'
    ensures HexDigit(8) == '8' && HexDigit(9) == '9' && HexDigit(10) == 'a' && HexDigit(11) == 'b'
    ensures HexDigit(12) == 'c' && HexDigit(13) == 'd' && HexDigit(14) == 'e' && HexDigit(15) == 'f'
  {
  }

  lemma HexOfFour(b0: Byte, b1: Byte, b2: Byte, b3: Byte)
    ensures Hex([b0, b1, b2, b3]) ==
            [HexDigit(b0 >> 4), HexDigit(b0 & 15), HexDigit(b1 >> 4), HexDigit(b1 & 15),
             HexDigit(b2 >> 4), HexDigit(b2 & 15), HexDigit(b3 >> 4), HexDigit(b3 & 15)]
  {
    hide *;
    HexFirst(b0, [b1, b2, b3]);
    HexFirst(b1, [b2, b3]);
    HexFirst(b2, [b3]);
    HexFirst(b3, []);
    HexOfNone();
    assert [b0] + [b1, b2, b3] == [b0, b1, b2, b3] && [b1] + [b2, b3] == [b1, b2, b3] && [b2] + [b3] == [b2, b3];
    assert [b3] + [] == [b3];
  }

  lemma HexOfNone()
    ensures Hex([]) == ""
  {
  }

  lemma HexFirst(b: Byte, s: seq<Byte>)
    ensures Hex([b] + s) == [HexDigit(b >> 4), HexDigit(b & 15)] + Hex(s)
  {
    hide HexDigit;
    assert ([b] + s)[1..] == s;
  }

  lemma {:induction false} HexConcat(s: seq<Byte>, s': seq<Byte>)
    ensures Hex(s + s') == Hex(s) + Hex(s')
  {
    hide HexDigit;
    if s == [] {
      assert s + s' == s';
    } else {
      assert (s + s')[1..] == s[1..] + s';
      HexConcat(s[1..], s');
    }
  }

  lemma DigestOf(m: seq<Byte>, r: Regs)
    requires Blocks(INITIAL, Padded(m)) == r
    ensures Hex(Digest(m)) == Hex(BytesOf(r.a)) + Hex(BytesOf(r.b)) + Hex(BytesOf(r.c)) + Hex(BytesOf(r.d))
  {
    hide Hex, BytesOf;
    HexConcat(BytesOf(r.a) + BytesOf(r.b) + BytesOf(r.c), BytesOf(r.d));
    HexConcat(BytesOf(r.a) + BytesOf(r.b), BytesOf(r.c));
    HexConcat(BytesOf(r.a), BytesOf(r.b));
  }

  // ---------------------------------------------------------------- the block of a short message

  function PaddedByte(m: seq<Byte>, i: nat): Byte
    requires |m| < 32
  {
    if i < |m| then m[i] else if i == |m| then 0x80 else if i == 56 then ByteOf(8 * |m|) else 0
  }

  lemma {:induction false} LittleEndianOfZero(n: nat)
    ensures LittleEndian(0, n) == Zeros(n)
  {
    if n > 0 {
      LittleEndianOfZero(n - 1);
    }
  }

  lemma ShortLength(n: nat)
    requires n < 32
    ensures LengthBytes(n) == [ByteOf(8 * n)] + Zeros(7)
  {
    LittleEndianOfZero(7);
    FirstByte(8 * n, 7);
    hide LittleEndian, ByteOf, Zeros;
    assert Bits(n) == 8 * n;
  }

  lemma FirstByte(v: nat, n: nat)
    requires v < 256
    ensures LittleEndian(v, n + 1) == [ByteOf(v)] + LittleEndian(0, n)
  {
    hide ByteOf;
  }

  lemma ShortPadded(m: seq<Byte>)
    requires |m| < 32
    ensures |Padded(m)| == 64 && forall i :: 0 <= i < 64 ==> Padded(m)[i] == PaddedByte(m, i)
  {
    ShortLength(|m|);
    hide LengthBytes, PadLength;
    ShortPadding(|m|);
    assert Padded(m) == m + ([0x80] + Zeros(55 - |m|)) + ([ByteOf(8 * |m|)] + Zeros(7));
  }

  lemma ShortPadding(n: nat)
    requires n < 32
    ensures PadLength(n) == 56 - n
  {
  }

  lemma WordAt(p: seq<Byte>, m: seq<Byte>, j: nat)
    requires |m| < 32 && |p| == 64 && j < 16 && forall i :: 0 <= i < 64 ==> p[i] == PaddedByte(m, i)
    ensures Words(p)[j] ==
            WordOf([PaddedByte(m, 4 * j), PaddedByte(m, 4 * j + 1), PaddedByte(m, 4 * j + 2), PaddedByte(m, 4 * j + 3)])
  {
    hide WordOf, PaddedByte;
    assert p[4 * j..4 * j + 4] == [p[4 * j], p[4 * j + 1], p[4 * j + 2], p[4 * j + 3]];
  }

  lemma LettersWords1(m: seq<Byte>)
    requires m == LETTERS
    ensures WordOf([PaddedByte(m, 0), PaddedByte(m, 1), PaddedByte(m, 2), PaddedByte(m, 3)]) == 0x64636261
    ensures WordOf([PaddedByte(m, 4), PaddedByte(m, 5), PaddedByte(m, 6), PaddedByte(m, 7)]) == 0x68676665
    ensures WordOf([PaddedByte(m, 8), PaddedByte(m, 9), PaddedByte(m, 10), PaddedByte(m, 11)]) == 0x6c6b6a69
    ensures WordOf([PaddedByte(m, 12), PaddedByte(m, 13), PaddedByte(m, 14), PaddedByte(m, 15)]) == 0x706f6e6d
  {
    assert WordOf([0x61, 0x62, 0x63, 0x64]) == 0x64636261;
    assert WordOf([0x65, 0x66, 0x67, 0x68]) == 0x68676665;
    assert WordOf([0x69, 0x6a, 0x6b, 0x6c]) == 0x6c6b6a69;
    assert WordOf([0x6d, 0x6e, 0x6f, 0x70]) == 0x706f6e6d;
  }

  lemma LettersWords2(m: seq<Byte>)
    requires m == LETTERS
    ensures WordOf([PaddedByte(m, 16), PaddedByte(m, 17), PaddedByte(m, 18), PaddedByte(m, 19)]) == 0x74737271
    ensures WordOf([PaddedByte(m, 20), PaddedByte(m, 21), PaddedByte(m, 22), PaddedByte(m, 23)]) == 0x78777675
    ensures WordOf([PaddedByte(m, 24), PaddedByte(m, 25), PaddedByte(m, 26), PaddedByte(m, 27)]) == 0x00807a79
    ensures WordOf([PaddedByte(m, 28), PaddedByte(m, 29), PaddedByte(m, 30), PaddedByte(m, 31)]) == 0
  {
    assert WordOf([0x71, 0x72, 0x73, 0x74]) == 0x74737271;
    assert WordOf([0x75, 0x76, 0x77, 0x78]) == 0x78777675;
    assert WordOf([0x79, 0x7a, 0x80, 0]) == 0x00807a79;
    assert WordOf([0, 0, 0, 0]) == 0;
  }

  lemma LettersWords3(m: seq<Byte>)
    requires m == LETTERS
    ensures WordOf([PaddedByte(m, 32), PaddedByte(m, 33), PaddedByte(m, 34), PaddedByte(m, 35)]) == 0
    ensures WordOf([PaddedByte(m, 36), PaddedByte(m, 37), PaddedByte(m, 38), PaddedByte(m, 39)]) == 0
    ensures WordOf([PaddedByte(m, 40), PaddedByte(m, 41), PaddedByte(m, 42), PaddedByte(m, 43)]) == 0
    ensures WordOf([PaddedByte(m, 44), PaddedByte(m, 45), PaddedByte(m, 46), PaddedByte(m, 47)]) == 0
  {
    assert WordOf([0, 0, 0, 0]) == 0;
    assert WordOf([0, 0, 0, 0]) == 0;
    assert WordOf([0, 0, 0, 0]) == 0;
    assert WordOf([0, 0, 0, 0]) == 0;
  }

  lemma LettersWords4(m: seq<Byte>)
    requires m == LETTERS
    ensures WordOf([PaddedByte(m, 48), PaddedByte(m, 49), PaddedByte(m, 50), PaddedByte(m, 51)]) == 0
    ensures WordOf([PaddedByte(m, 52), PaddedByte(m, 53), PaddedByte(m, 54), PaddedByte(m, 55)]) == 0
    ensures WordOf([PaddedByte(m, 56), PaddedByte(m, 57), PaddedByte(m, 58), PaddedByte(m, 59)]) == 0x000000d0
    ensures WordOf([PaddedByte(m, 60), PaddedByte(m, 61), PaddedByte(m, 62), PaddedByte(m, 63)]) == 0
  {
    LettersLength();
    hide ByteOf;
    assert WordOf([0, 0, 0, 0]) == 0;
    assert WordOf([0, 0, 0, 0]) == 0;
    assert WordOf([0xd0, 0, 0, 0]) == 0x000000d0;
    assert WordOf([0, 0, 0, 0]) == 0;
  }

  lemma LettersLength()
    ensures ByteOf(8 * 26) == 0xd0
  {
  }

  lemma LettersBlock(m: seq<Byte>)
    requires m == LETTERS
    ensures |Padded(m)| == 64 && LettersWords(Words(Padded(m)))
  {
    ShortPadded(m);
    var p := Padded(m);
    hide Padded, PaddedByte, WordOf, Words;
    LettersPart1(p, m);
    LettersPart2(p, m);
    LettersPart3(p, m);
    LettersPart4(p, m);
  }

  lemma LettersPart1(p: seq<Byte>, m: seq<Byte>)
    requires m == LETTERS && |p| == 64 && forall i :: 0 <= i < 64 ==> p[i] == PaddedByte(m, i)
    ensures Words(p)[0] == 0x64636261 && Words(p)[1] == 0x68676665 && Words(p)[2] == 0x6c6b6a69 &&
            Words(p)[3] == 0x706f6e6d
  {
    LettersWords1(m);
    hide PaddedByte, WordOf, Words;
    WordAt(p, m, 0);
    WordAt(p, m, 1);
    WordAt(p, m, 2);
    WordAt(p, m, 3);
  }

  lemma LettersPart2(p: seq<Byte>, m: seq<Byte>)
    requires m == LETTERS && |p| == 64 && forall i :: 0 <= i < 64 ==> p[i] == PaddedByte(m, i)
    ensures Words(p)[4] == 0x74737271 && Words(p)[5] == 0x78777675 && Words(p)[6] == 0x00807a79 && Words(p)[7] == 0
  {
    LettersWords2(m);
    hide PaddedByte, WordOf, Words;
    WordAt(p, m, 4);
    WordAt(p, m, 5);
    WordAt(p, m, 6);
    WordAt(p, m, 7);
  }

  lemma LettersPart3(p: seq<Byte>, m: seq<Byte>)
    requires m == LETTERS && |p| == 64 && forall i :: 0 <= i < 64 ==> p[i] == PaddedByte(m, i)
    ensures Words(p)[8] == 0 && Words(p)[9] == 0 && Words(p)[10] == 0 && Words(p)[11] == 0
  {
    LettersWords3(m);
    hide PaddedByte, WordOf, Words;
    WordAt(p, m, 8);
    WordAt(p, m, 9);
    WordAt(p, m, 10);
    WordAt(p, m, 11);
  }

  lemma LettersPart4(p: seq<Byte>, m: seq<Byte>)
    requires m == LETTERS && |p| == 64 && forall i :: 0 <= i < 64 ==> p[i] == PaddedByte(m, i)
    ensures Words(p)[12] == 0 && Words(p)[13] == 0 && Words(p)[14] == 0x000000d0 && Words(p)[15] == 0
  {
    LettersWords4(m);
    hide PaddedByte, WordOf, Words;
    WordAt(p, m, 12);
    WordAt(p, m, 13);
    WordAt(p, m, 14);
    WordAt(p, m, 15);
  }

  lemma LettersOperations(x: seq<Word>)
    requires LettersWords(x)
    ensures Operations(INITIAL, x, 64) == Regs(0x708ed9c2, 0x1116e6d8, 0xd38f1e7f, 0x2baf1354)
  {
    First(x);
    hide Operations, LettersWords;
    Letters1(x);
    Letters2(x);
    Letters3(x);
    Letters4(x);
    Letters5(x);
    Letters6(x);
    Letters7(x);
    Letters8(x);
    Letters9(x);
    Letters10(x);
    Letters11(x);
    Letters12(x);
    Letters13(x);
    Letters14(x);
    Letters15(x);
    Letters16(x);
  }

  /** The digest of "abcdefghijklmnopqrstuvwxyz". */
  lemma LettersDigest(m: seq<Byte>)
    requires m == LETTERS
    ensures Hex(Digest(m)) == "c3fcd3d7" + "6192e400" + "7dfb496c" + "ca67e13b"
  {
    LettersRegisters(m);
    LettersBytes();
    LettersDigits();
    hide *;
    DigestOf(m, Regs(0xd7d3fcc3, 0x00e49261, 0x6c49fb7d, 0x3be167ca));
  }

  lemma LettersDigits()
    ensures Hex([0xc3, 0xfc, 0xd3, 0xd7]) == "c3fcd3d7"
    ensures Hex([0x61, 0x92, 0xe4, 0x00]) == "6192e400"
    ensures Hex([0x7d, 0xfb, 0x49, 0x6c]) == "7dfb496c"
    ensures Hex([0xca, 0x67, 0xe1, 0x3b]) == "ca67e13b"
  {
    HexDigits();
    hide HexDigit;
    HexOfFour(0xc3, 0xfc, 0xd3, 0xd7);
    HexOfFour(0x61, 0x92, 0xe4, 0x00);
    HexOfFour(0x7d, 0xfb, 0x49, 0x6c);
    HexOfFour(0xca, 0x67, 0xe1, 0x3b);
  }

  lemma LettersRegisters(m: seq<Byte>)
    requires m == LETTERS
    ensures Blocks(INITIAL, Padded(m)) == Regs(0xd7d3fcc3, 0x00e49261, 0x6c49fb7d, 0x3be167ca)
  {
    LettersBlock(m);
    LettersOperations(Words(Padded(m)));
    LettersSum();
    hide *;
    OneBlock(Padded(m));
  }

  lemma LettersBytes()
    ensures BytesOf(0xd7d3fcc3) == [0xc3, 0xfc, 0xd3, 0xd7]
    ensures BytesOf(0x00e49261) == [0x61, 0x92, 0xe4, 0x00]
    ensures BytesOf(0x6c49fb7d) == [0x7d, 0xfb, 0x49, 0x6c]
    ensures BytesOf(0x3be167ca) == [0xca, 0x67, 0xe1, 0x3b]
  {
  }

  lemma LettersSum()
    ensures AddRegs(INITIAL, Regs(0x708ed9c2, 0x1116e6d8, 0xd38f1e7f, 0x2baf1354)) ==
            Regs(0xd7d3fcc3, 0x00e49261, 0x6c49fb7d, 0x3be167ca)
  {
  }

}
