/**
 * The MD5 message-digest algorithm as sections 3.1 to 3.5 of RFC 1321 define it, on whole messages.
 */
module MessageDigest {
  import opened Widths

  type Byte = bv8
  type Word = bv32

  /** The registers A, B, C, D. */
  datatype Regs = Regs(a: Word, b: Word, c: Word, d: Word)

  // ---------------------------------------------------------------- sections 3.1 and 3.2

  /** n bytes and k of padding leave room for the length in the last block. */
  predicate Fits(n: nat, k: nat) {
    (n + k) % 64 == 56
  }

  /** How many bytes of padding: at least one, and no more than needed. */
  function PadLength(n: nat): (k: nat)
    ensures 1 <= k <= 64 && Fits(n, k)
    ensures forall j :: 1 <= j < k ==> !Fits(n, j)
  {
    1 + (119 - n % 64) % 64
  }

  function Zeros(n: nat): seq<Byte> {
    seq(n, _ => 0)
  }

  function Padding(n: nat): (p: seq<Byte>)
    requires n > 0
    ensures |p| == n
  {
    [0x80] + Zeros(n - 1)
  }

  function ByteOf(v: nat): Byte {
    (v % 256) as Byte
  }

  /** A number as n bytes, low-order byte first. */
  function LittleEndian(v: nat, n: nat): (s: seq<Byte>)
    ensures |s| == n
  {
    if n == 0 then [] else [ByteOf(v)] + LittleEndian(v / 256, n - 1)
  }

  /** The number of bits, modulo 2^64, in eight bytes. */
  function LengthBytes(n: nat): (s: seq<Byte>)
    ensures |s| == 8
  {
    LittleEndian(Bits(n), 8)
  }

  function Bits(n: nat): nat {
    8 * n % TWO_64
  }

  function Padded(m: seq<Byte>): (p: seq<Byte>)
    ensures |p| % 64 == 0
  {
    FitsWithLength(|m|, PadLength(|m|));
    m + Padding(PadLength(|m|)) + LengthBytes(|m|)
  }

  lemma FitsWithLength(n: nat, k: nat)
    requires Fits(n, k)
    ensures (n + k + 8) % 64 == 0
  {
  }

  // ---------------------------------------------------------------- section 3.3

  const INITIAL := Regs(0x67452301, 0xefcdab89, 0x98badcfe, 0x10325476)

  // ---------------------------------------------------------------- section 3.4

  function F(x: Word, y: Word, z: Word): Word { (x & y) | (!x & z) }

  function G(x: Word, y: Word, z: Word): Word { (x & z) | (y & !z) }

  function H(x: Word, y: Word, z: Word): Word { x ^ y ^ z }

  function I(x: Word, y: Word, z: Word): Word { y ^ (x | !z) }

  /** F takes y where x has a one and z elsewhere. */
  lemma FSelects(x: Word, y: Word, z: Word)
    ensures F(x, y, z) & x == y & x && F(x, y, z) & !x == z & !x
  {
  }

  /** G takes x where z has a one and y elsewhere. */
  lemma GSelects(x: Word, y: Word, z: Word)
    ensures G(x, y, z) & z == x & z && G(x, y, z) & !z == y & !z
  {
  }

  /** H is the parity of the three bits. */
  lemma HIsParity(x: Word, y: Word, z: Word)
    ensures H(x, y, z) ^ x ^ y == z
  {
  }

  /** I flips y exactly where x has a one or z a zero. */
  lemma IFlips(x: Word, y: Word, z: Word)
    ensures I(x, y, z) ^ y == x | !z
  {
  }

  /** Circular shift to the left. */
  function RotateLeft(x: Word, n: bv6): Word
    requires 0 < n < 32
  {
    (x << n) | (x >> (32 - n))
  }

  /** The top n bits come out at the bottom, in order, and the others move up n places. */
  lemma RotateLeftIsCircular(x: Word, n: bv6)
    requires 0 < n < 32
    ensures RotateLeft(x, n) & ((1 << n) - 1) == x >> (32 - n)
    ensures RotateLeft(x, n) >> n == x & ((1 << (32 - n)) - 1)
  {
  }

  type WordTable = s: seq<Word> | |s| == 64 witness seq(64, _ => 0)

  type OrderRow = s: seq<nat> | |s| == 16 && forall i :: 0 <= i < 16 ==> s[i] < 16 witness seq(16, _ => 0)

  type ShiftTable = s: seq<bv6> | |s| == 64 && forall i :: 0 <= i < 64 ==> 0 < s[i] < 32 witness seq(64, _ => 1)

  /** The sine table T. */
  const T: WordTable := 
    [0xd76aa478, 0xe8c7b756, 0x242070db, 0xc1bdceee, 0xf57c0faf, 0x4787c62a, 0xa8304613, 0xfd469501,
     0x698098d8, 0x8b44f7af, 0xffff5bb1, 0x895cd7be, 0x6b901122, 0xfd987193, 0xa679438e, 0x49b40821] +
    [0xf61e2562, 0xc040b340, 0x265e5a51, 0xe9b6c7aa, 0xd62f105d, 0x02441453, 0xd8a1e681, 0xe7d3fbc8,
     0x21e1cde6, 0xc33707d6, 0xf4d50d87, 0x455a14ed, 0xa9e3e905, 0xfcefa3f8, 0x676f02d9, 0x8d2a4c8a] +
    [0xfffa3942, 0x8771f681, 0x6d9d6122, 0xfde5380c, 0xa4beea44, 0x4bdecfa9, 0xf6bb4b60, 0xbebfbc70,
     0x289b7ec6, 0xeaa127fa, 0xd4ef3085, 0x04881d05, 0xd9d4d039, 0xe6db99e5, 0x1fa27cf8, 0xc4ac5665] +
    [0xf4292244, 0x432aff97, 0xab9423a7, 0xfc93a039, 0x655b59c3, 0x8f0ccc92, 0xffeff47d, 0x85845dd1,
     0x6fa87e4f, 0xfe2ce6e0, 0xa3014314, 0x4e0811a1, 0xf7537e82, 0xbd3af235, 0x2ad7d2bb, 0xeb86d391]

  /** The k of the operations [abcd k s i] of each round: which word of the block they read. */
  const ORDER_1: OrderRow := [0, 1, 2, 3, 4, 5, 6, 7, 8, 9, 10, 11, 12, 13, 14, 15]
  const ORDER_2: OrderRow := [1, 6, 11, 0, 5, 10, 15, 4, 9, 14, 3, 8, 13, 2, 7, 12]
  const ORDER_3: OrderRow := [5, 8, 11, 14, 1, 4, 7, 10, 13, 0, 3, 6, 9, 12, 15, 2]
  const ORDER_4: OrderRow := [0, 7, 14, 5, 12, 3, 10, 1, 8, 15, 6, 13, 4, 11, 2, 9]

  function WordOrder(i: nat): (k: nat)
    requires i < 64
    ensures k < 16
  {
    if i < 16 then ORDER_1[i] else if i < 32 then ORDER_2[i - 16] else if i < 48 then ORDER_3[i - 32]
      else ORDER_4[i - 48]
  }

  /** The s of each operation. */
  const SHIFTS: ShiftTable := 
    [7, 12, 17, 22, 7, 12, 17, 22, 7, 12, 17, 22, 7, 12, 17, 22] +
    [5, 9, 14, 20, 5, 9, 14, 20, 5, 9, 14, 20, 5, 9, 14, 20] +
    [4, 11, 16, 23, 4, 11, 16, 23, 4, 11, 16, 23, 4, 11, 16, 23] +
    [6, 10, 15, 21, 6, 10, 15, 21, 6, 10, 15, 21, 6, 10, 15, 21]

  /** The auxiliary function of the round that operation i belongs to. */
  function Aux(i: nat, x: Word, y: Word, z: Word): Word {
    if i < 16 then F(x, y, z) else if i < 32 then G(x, y, z) else if i < 48 then H(x, y, z) else I(x, y, z)
  }

  /** b + ((a + f + x + t) <<< s) */
  function Mix(a: Word, b: Word, f: Word, x: Word, t: Word, s: bv6): Word
    requires 0 < s < 32
  {
    b + RotateLeft(a + f + x + t, s)
  }

  /** Operation i: the registers take their turns as [ABCD], [DABC], [CDAB], [BCDA]. */
  function Operation(r: Regs, i: nat, x: Word, t: Word, s: bv6): Regs
    requires 0 < s < 32
  {
    if i % 4 == 0 then r.(a := Mix(r.a, r.b, Aux(i, r.b, r.c, r.d), x, t, s))
    else if i % 4 == 1 then r.(d := Mix(r.d, r.a, Aux(i, r.a, r.b, r.c), x, t, s))
    else if i % 4 == 2 then r.(c := Mix(r.c, r.d, Aux(i, r.d, r.a, r.b), x, t, s))
    else r.(b := Mix(r.b, r.c, Aux(i, r.c, r.d, r.a), x, t, s))
  }

  /** The first n operations on the words x. */
  function Operations(r: Regs, x: seq<Word>, n: nat): Regs
    requires |x| == 16 && n <= 64
  {
    if n == 0 then r
    else Operation(Operations(r, x, n - 1), n - 1, x[WordOrder(n - 1)], T[n - 1], SHIFTS[n - 1])
  }

  /** Four bytes as a word, low-order byte first. */
  function WordOf(s: seq<Byte>): Word
    requires |s| == 4
  {
    (s[0] as Word) | ((s[1] as Word) << 8) | ((s[2] as Word) << 16) | ((s[3] as Word) << 24)
  }

  function Words(block: seq<Byte>): (x: seq<Word>)
    requires |block| == 64
    ensures |x| == 16
  {
    seq(16, j requires 0 <= j < 16 => WordOf(block[4 * j..4 * j + 4]))
  }

  function Plus(x: Word, y: Word): Word { x + y }

  function AddRegs(r: Regs, r': Regs): Regs {
    Regs(Plus(r.a, r'.a), Plus(r.b, r'.b), Plus(r.c, r'.c), Plus(r.d, r'.d))
  }

  /** One 16-word block. */
  function Compress(r: Regs, block: seq<Byte>): Regs
    requires |block| == 64
  {
    AddRegs(r, Operations(r, Words(block), 64))
  }

  function Blocks(r: Regs, m: seq<Byte>): Regs
    requires |m| % 64 == 0
    decreases |m|
  {
    if m == [] then r else Blocks(Compress(r, m[..64]), m[64..])
  }

  lemma {:induction false} BlocksAppend(r: Regs, m: seq<Byte>, block: seq<Byte>)
    requires |m| % 64 == 0 && |block| == 64
    ensures Blocks(r, m + block) == Compress(Blocks(r, m), block)
    decreases |m|
  {
    hide Compress;
    if m == [] {
      assert (m + block)[..64] == block && (m + block)[64..] == [];
    } else {
      assert (m + block)[..64] == m[..64] && (m + block)[64..] == m[64..] + block;
      BlocksAppend(Compress(r, m[..64]), m[64..], block);
    }
  }

  // ---------------------------------------------------------------- section 3.5

  /** The bytes of a word, low-order byte first. */
  function BytesOf(w: Word): (s: seq<Byte>)
    ensures |s| == 4
  {
    [(w & 0xff) as Byte, ((w >> 8) & 0xff) as Byte, ((w >> 16) & 0xff) as Byte, ((w >> 24) & 0xff) as Byte]
  }

  lemma BytesOfWord(s: seq<Byte>)
    requires |s| == 4
    ensures BytesOf(WordOf(s)) == s
  {
    WordParts(s[0], s[1], s[2], s[3]);
  }

  lemma WordParts(a: bv8, b: bv8, c: bv8, d: bv8)
    ensures var w := (a as Word) | ((b as Word) << 8) | ((c as Word) << 16) | ((d as Word) << 24);
            && (w & 0xff) as Byte == a && ((w >> 8) & 0xff) as Byte == b
            && ((w >> 16) & 0xff) as Byte == c && ((w >> 24) & 0xff) as Byte == d
  {
  }

  /** The digest begins with the low-order byte of A and ends with the high-order byte of D. */
  function Digest(m: seq<Byte>): (d: seq<Byte>)
    ensures |d| == 16
  {
    var r := Blocks(INITIAL, Padded(m));
    BytesOf(r.a) + BytesOf(r.b) + BytesOf(r.c) + BytesOf(r.d)
  }

  function HexDigit(n: Byte): char
    requires n < 16
  {
    "0123456789abcdef"[n as int]
  }

  /** Two lower-case hexadecimal digits per byte. */
  function Hex(s: seq<Byte>): (h: string)
    ensures |h| == 2 * |s|
  {
    if s == [] then "" else [HexDigit(s[0] >> 4), HexDigit(s[0] & 15)] + Hex(s[1..])
  }
}
