/**
 * The streaming MD5 class: a 64-byte buffer, the state words and a byte count, fed by any number of
 * updates of any lengths. It computes the whole-message digest of RFC 1321.
 */
module MD5Streams {
  import opened Widths
  import opened MessageDigest
  import opened RealFacts

  /** The g that the loop of Transform computes. */
  function Selected(i: nat): (g: nat)
    ensures g < 16 || i >= 64
  {
    if i < 16 then i else if i < 32 then (5 * i + 1) % 16 else if i < 48 then (3 * i + 5) % 16 else (7 * i) % 16
  }

  lemma SelectedIsWordOrder(i: nat)
    requires i < 64
    ensures WordOrder(i) == Selected(i)
  {
    SelectedRow2();
    SelectedRow3();
    SelectedRow4();
    assert forall j :: 0 <= j < 16 ==> ORDER_1[j] == j;
  }

  lemma SelectedRow2()
    ensures forall i :: 0 <= i < 16 ==> ORDER_2[i] == (5 * (i + 16) + 1) % 16
  {
  }

  lemma SelectedRow3()
    ensures forall i :: 0 <= i < 16 ==> ORDER_3[i] == (3 * (i + 32) + 5) % 16
  {
  }

  lemma SelectedRow4()
    ensures forall i :: 0 <= i < 16 ==> ORDER_4[i] == 7 * (i + 48) % 16
  {
  }

  /** The loop's variables a, b, c, d before iteration i, when r holds the registers of the standard. */
  function Rotated(r: Regs, i: nat): Regs {
    if i % 4 == 0 then r
    else if i % 4 == 1 then Regs(r.d, r.a, r.b, r.c)
    else if i % 4 == 2 then Regs(r.c, r.d, r.a, r.b)
    else Regs(r.b, r.c, r.d, r.a)
  }

  /** The new b: the addends in the order in which the loop adds them. */
  function NewB(a: Word, b: Word, f: Word, t: Word, x: Word, s: bv6): Word
    requires 0 < s < 32
  {
    b + RotateLeft(a + f + t + x, s)
  }

  lemma NewBIsMix(a: Word, b: Word, f: Word, t: Word, x: Word, s: bv6)
    requires 0 < s < 32
    ensures NewB(a, b, f, t, x, s) == Mix(a, b, f, x, t, s)
  {
    hide RotateLeft;
    SumOrder(a, f, t, x);
  }

  lemma SumOrder(a: Word, f: Word, t: Word, x: Word)
    ensures a + f + t + x == a + f + x + t
  {
  }

  /** An iteration, which always writes b and moves the others along, is one operation on the registers. */
  lemma IterationIsOperation(r: Regs, i: nat, x: Word, t: Word, s: bv6)
    requires 0 < s < 32
    ensures var v := Rotated(r, i);
            Rotated(Operation(r, i, x, t, s), i + 1) ==
            Regs(v.d, Mix(v.a, v.b, Aux(i, v.b, v.c, v.d), x, t, s), v.b, v.c)
  {
    hide Mix, Aux;
    if i % 4 == 0 {
      assert (i + 1) % 4 == 1;
    } else if i % 4 == 1 {
      assert (i + 1) % 4 == 2;
    } else if i % 4 == 2 {
      assert (i + 1) % 4 == 3;
    } else {
      assert (i + 1) % 4 == 0;
    }
  }

  /** An iteration of the loop of Transform takes the variables from i to i + 1 operations. */
  lemma IterationStep(r: Regs, x: seq<Word>, i: nat, v: Regs)
    requires |x| == 16 && i < 64 && v == Rotated(Operations(r, x, i), i)
    ensures Rotated(Operations(r, x, i + 1), i + 1) ==
            Regs(v.d, NewB(v.a, v.b, Aux(i, v.b, v.c, v.d), T[i], x[Selected(i)], SHIFTS[i]), v.b, v.c)
  {
    hide Aux, Operation, Rotated, Selected, WordOrder, NewB, T, SHIFTS;
    hide Mix;
    SelectedIsWordOrder(i);
    IterationIsOperation(Operations(r, x, i), i, x[Selected(i)], T[i], SHIFTS[i]);
    NewBIsMix(v.a, v.b, Aux(i, v.b, v.c, v.d), T[i], x[Selected(i)], SHIFTS[i]);
  }

  lemma LoopEnds(r: Regs, block: seq<Byte>)
    requires |block| == 64
    ensures Rotated(Operations(r, Words(block), 0), 0) == r
    ensures Compress(r, block) == AddRegs(r, Rotated(Operations(r, Words(block), 64), 64))
  {
    hide Operation;
  }

  // ---------------------------------------------------------------- the invariant as a function of the message

  /** How much of the message lies in complete blocks. */
  function Complete(m: seq<Byte>): (n: nat)
    ensures n <= |m| < n + 64 && n % 64 == 0 && |m| - n == |m| % 64
  {
    |m| - |m| % 64
  }

  /** The registers after the complete blocks of a message. */
  function Folded(m: seq<Byte>): Regs {
    Blocks(INITIAL, m[..Complete(m)])
  }

  lemma FoldedNone()
    ensures Folded([]) == INITIAL
  {
  }

  /** Bytes that fill the block: it is compressed. */
  lemma FoldedFull(m: seq<Byte>, part: seq<Byte>)
    requires |m| % 64 + |part| == 64
    ensures |m + part| % 64 == 0 && Complete(m + part) == |m + part|
    ensures Folded(m + part) == Compress(Folded(m), m[Complete(m)..] + part)
  {
    hide Compress, Blocks;
    assert |m + part| == Complete(m) + 64;
    assert (m + part)[..|m + part|] == m[..Complete(m)] + (m[Complete(m)..] + part);
    BlocksAppend(INITIAL, m[..Complete(m)], m[Complete(m)..] + part);
  }

  /** Bytes that do not fill the block stay in the buffer. */
  lemma FoldedPart(m: seq<Byte>, part: seq<Byte>)
    requires |m| % 64 + |part| < 64
    ensures Complete(m + part) == Complete(m) && Folded(m + part) == Folded(m)
    ensures (m + part)[Complete(m)..] == m[Complete(m)..] + part
  {
    hide Blocks;
    assert |m + part| == Complete(m) + (|m| % 64 + |part|);
    assert (m + part)[..Complete(m)] == m[..Complete(m)];
  }

  // ---------------------------------------------------------------- the length bytes

  /** The byte count is kept modulo 2^64; eight times it is still the bit count modulo 2^64. */
  lemma BitsWrap(n: nat)
    ensures (n % TWO_64) * 8 % TWO_64 == 8 * n % TWO_64
  {
    var q, r := n / TWO_64, n % TWO_64;
    assert 8 * n == 8 * q * TWO_64 + 8 * r;
  }

  lemma CountWraps(n: nat, k: nat)
    ensures (n % TWO_64 + k) % TWO_64 == (n + k) % TWO_64
    ensures n % TWO_64 % 64 == n % 64
  {
    var q, r := n / TWO_64, n % TWO_64;
    var q', r' := (r + k) / TWO_64, (r + k) % TWO_64;
    QuotientUnique(n + k, TWO_64, q + q', r');
    QuotientUnique(n, 64, q * (TWO_64 / 64) + r / 64, r % 64);
  }

  /** Byte i of a number, by shifting 8 * i bits down and masking. */
  lemma {:induction false} LittleEndianByte(v: nat, n: nat, i: nat)
    requires i < n
    ensures LittleEndian(v, n)[i] == ByteOf(v / Pow256(i))
  {
    if i > 0 {
      LittleEndianByte(v / 256, n - 1, i - 1);
      DivideTwice(v, 256, Pow256(i - 1));
    }
  }

  lemma DivideTwice(v: nat, a: nat, b: nat)
    requires a > 0 && b > 0
    ensures a * b > 0 && v / a / b == v / (a * b)
  {
    MulAtLeast(b, a);
    var w := v / a;
    var q, r, s := w / b, w % b, v % a;
    assert v == w * a + s && w == q * b + r;
    Regroup(v, w, a, b, q, r, s);
    QuotientUnique(v, a * b, q, r * a + s);
  }

  lemma Regroup(v: int, w: int, a: int, b: int, q: int, r: int, s: int)
    requires v == w * a + s && w == q * b + r && 0 <= r < b && 0 <= s < a
    ensures v == q * (a * b) + (r * a + s) && 0 <= r * a + s < a * b
  {
    assert (q * b + r) * a == q * (a * b) + r * a;
    assert (b - 1 - r) * a >= 0;
    assert (b - 1 - r) * a == b * a - a - r * a;
  }

  // ---------------------------------------------------------------- output

  lemma HexOne(b: Byte)
    ensures Hex([b]) == [HexDigit(b >> 4), HexDigit(b & 15)]
  {
    assert [b][1..] == [];
  }

  lemma HexAppend(s: seq<Byte>, b: Byte)
    ensures Hex(s + [b]) == Hex(s) + [HexDigit(b >> 4), HexDigit(b & 15)]
  {
    hide Hex, HexDigit;
    HexJoins(s, [b]);
    HexOne(b);
  }

  lemma HexNone()
    ensures Hex([]) == ""
  {
  }

  lemma {:induction false} HexJoins(s: seq<Byte>, s': seq<Byte>)
    ensures Hex(s + s') == Hex(s) + Hex(s')
  {
    hide HexDigit;
    if s == [] {
      assert s + s' == s';
    } else {
      assert (s + s')[1..] == s[1..] + s';
      HexJoins(s[1..], s');
    }
  }

  const OFFSETS: seq<bv6> := [0, 8, 16, 24]

  /** (w >> (k * 8)) & 0xff */
  function ByteAt(w: Word, k: nat): Byte
    requires k < 4
  {
    ((w >> OFFSETS[k]) & 0xff) as Byte
  }

  lemma ByteAtIs(w: Word, k: nat)
    requires k < 4
    ensures ByteAt(w, k) == BytesOf(w)[k]
  {
    if k == 0 {
    } else if k == 1 {
    } else if k == 2 {
    } else {
    }
  }

  class MD5 {
    const state: array<Word>
    const buffer: array<Byte>
    var bufferLen: nat
    var totalLen: nat
    /** All the bytes fed so far. */
    ghost var message: seq<Byte>

    ghost predicate Valid()
      reads this, state, buffer
    {
      && state.Length == 4 && buffer.Length == 64
      && totalLen == |message| % TWO_64
      && bufferLen == |message| % 64
      && Registers() == Folded(message)
      && buffer[..bufferLen] == message[Complete(message)..]
    }

    function Registers(): Regs
      requires state.Length == 4
      reads state
    {
      Regs(state[0], state[1], state[2], state[3])
    }

    lemma ValidBuffer()
      requires Valid()
      ensures bufferLen < 64
    {
    }

    constructor ()
      ensures Valid() && message == [] && fresh(state) && fresh(buffer)
    {
      state := new Word[4];
      buffer := new Byte[64];
      bufferLen, totalLen, message := 0, 0, [];
      new;
      hide Blocks, Folded;
      state[0] := 0x67452301;
      state[1] := 0xefcdab89;
      state[2] := 0x98badcfe;
      state[3] := 0x10325476;
      FoldedNone();
    }

    /** The 64 operations on four variables that move along by one place in every iteration. */
    method Transform(block: seq<Byte>)
      requires state.Length == 4 && |block| == 64
      modifies state
      ensures Registers() == Compress(old(Registers()), block)
    {
      hide Operations, Aux, NewB, Words, Rotated, Selected, Compress, AddRegs, T, SHIFTS;
      var a, b, c, d := state[0], state[1], state[2], state[3];
      var x := LoadWords(block);
      ghost var r := Registers();
      LoopEnds(r, block);
      for i := 0 to 64
        invariant Regs(a, b, c, d) == Rotated(Operations(r, x, i), i)
        invariant Registers() == r
      {
        var f := AuxOf(i, b, c, d);
        var g := Selected(i);
        IterationStep(r, x, i, Regs(a, b, c, d));
        var temp := d;
        d := c;
        c := b;
        b := NewB(a, b, f, T[i], x[g], SHIFTS[i]);
        a := temp;
      }
      AddToState(a, b, c, d);
    }

    method AddToState(a: Word, b: Word, c: Word, d: Word)
      requires state.Length == 4
      modifies state
      ensures Registers() == AddRegs(old(Registers()), Regs(a, b, c, d))
    {
      hide Plus;
      state[0] := Plus(state[0], a);
      state[1] := Plus(state[1], b);
      state[2] := Plus(state[2], c);
      state[3] := Plus(state[3], d);
    }

    /** The words of a block, each from four bytes. */
    static method LoadWords(block: seq<Byte>) returns (x: seq<Word>)
      requires |block| == 64
      ensures x == Words(block)
    {
      x := [];
      for i := 0 to 16
        invariant |x| == i && forall j :: 0 <= j < i ==> x[j] == WordOf(block[4 * j..4 * j + 4])
      {
        x := x + [(block[i * 4] as Word) | ((block[i * 4 + 1] as Word) << 8) | ((block[i * 4 + 2] as Word) << 16)
                  | ((block[i * 4 + 3] as Word) << 24)];
      }
    }

    static method AuxOf(i: nat, b: Word, c: Word, d: Word) returns (f: Word)
      ensures f == Aux(i, b, c, d)
    {
      if i < 16 {
        f := F(b, c, d);
      } else if i < 32 {
        f := G(b, c, d);
      } else if i < 48 {
        f := H(b, c, d);
      } else {
        f := I(b, c, d);
      }
    }

    /** memcpy into the buffer. */
    method CopyIn(at: nat, src: seq<Byte>)
      requires at + |src| <= buffer.Length
      modifies buffer
      ensures buffer[..at + |src|] == old(buffer[..at]) + src
    {
      for k := 0 to |src|
        invariant buffer[..at + k] == old(buffer[..at]) + src[..k]
      {
        buffer[at + k] := src[k];
      }
    }

    method Update(data: seq<Byte>)
      requires Valid()
      modifies this, state, buffer
      ensures Valid() && message == old(message) + data
    {
      hide Valid;
      ValidBuffer();
      var ptr, len := 0, |data|;
      var space := 64 - bufferLen;
      if len >= space {
        FillBuffer(data[..space]);
        ptr, len := space, len - space;
        while len >= 64
          invariant Valid() && bufferLen == 0
          invariant ptr + len == |data| && ptr >= 0 && len >= 0
          invariant message == old(message) + data[..ptr]
        {
          TakeBlock(data[ptr..ptr + 64]);
          assert data[..ptr] + data[ptr..ptr + 64] == data[..ptr + 64];
          ptr, len := ptr + 64, len - 64;
        }
      }
      KeepRest(data[ptr..]);
      assert data[..ptr] + data[ptr..] == data;
    }

    /** Bytes that do not fill the buffer. */
    method KeepRest(rest: seq<Byte>)
      requires Valid() && bufferLen + |rest| < 64
      modifies this, buffer
      ensures Valid() && message == old(message) + rest
    {
      hide Folded;
      FoldedPart(message, rest);
      CountWraps(|message|, |rest|);
      CopyIn(bufferLen, rest);
      bufferLen := bufferLen + |rest|;
      totalLen := (totalLen + |rest|) % TWO_64;
      message := message + rest;
    }

    /** Complete the block in the buffer and compress it. */
    method FillBuffer(part: seq<Byte>)
      requires Valid() && bufferLen + |part| == 64
      modifies this, state, buffer
      ensures Valid() && bufferLen == 0 && message == old(message) + part
    {
      hide Compress, Folded;
      FoldedFull(message, part);
      CountWraps(|message|, |part|);
      CopyIn(bufferLen, part);
      assert buffer[..64] == buffer[..];
      Transform(buffer[..]);
      totalLen := (totalLen + |part|) % TWO_64;
      bufferLen := 0;
      message := message + part;
    }

    /** Compress a block straight from the input. */
    method TakeBlock(block: seq<Byte>)
      requires Valid() && bufferLen == 0 && |block| == 64
      modifies this, state
      ensures Valid() && bufferLen == 0 && message == old(message) + block
    {
      hide Compress, Folded;
      FoldedFull(message, block);
      CountWraps(|message|, 64);
      assert message[Complete(message)..] + block == block;
      Transform(block);
      totalLen := (totalLen + 64) % TWO_64;
      message := message + block;
    }

    /** Padding, length and output. */
    method Finalize() returns (hex: string)
      requires Valid()
      modifies this, state, buffer
      ensures hex == Hex(Digest(old(message)))
    {
      hide Compress, Blocks;
      ghost var m := message;
      var padding := [0x80] + Zeros(63);
      var bits := totalLen * 8 % TWO_64;
      BitsWrap(|m|);
      var padLen := if bufferLen < 56 then 56 - bufferLen else 120 - bufferLen;
      assert padLen == PadLength(|m|);
      assert padding[..padLen] == Padding(padLen);
      Update(padding[..padLen]);
      var lenBytes := LengthOf(bits);
      Update(lenBytes);
      assert message == Padded(m);
      assert message[..Complete(message)] == message;
      hex := HexState();
    }

    method HexState() returns (hex: string)
      requires Valid()
      ensures var r := Registers(); hex == Hex(BytesOf(r.a) + BytesOf(r.b) + BytesOf(r.c) + BytesOf(r.d))
    {
      hide Hex, BytesOf;
      var r := Registers();
      hex := HexWord(state[0]);
      var next := HexWord(state[1]);
      HexJoins(BytesOf(r.a), BytesOf(r.b));
      hex := hex + next;
      next := HexWord(state[2]);
      HexJoins(BytesOf(r.a) + BytesOf(r.b), BytesOf(r.c));
      hex := hex + next;
      next := HexWord(state[3]);
      HexJoins(BytesOf(r.a) + BytesOf(r.b) + BytesOf(r.c), BytesOf(r.d));
      hex := hex + next;
    }

    /** (bits >> (i * 8)) & 0xff for the eight bytes. */
    static method LengthOf(bits: nat) returns (s: seq<Byte>)
      ensures s == LittleEndian(bits, 8)
    {
      s := [];
      for i := 0 to 8
        invariant |s| == i && forall j :: 0 <= j < i ==> s[j] == LittleEndian(bits, 8)[j]
      {
        LittleEndianByte(bits, 8, i);
        s := s + [ByteOf(bits / Pow256(i))];
      }
    }

    /** Every byte of a word as two digits, low-order byte first. */
    static method HexWord(w: Word) returns (hex: string)
      ensures hex == Hex(BytesOf(w))
    {
      hide Hex, HexDigit, BytesOf, ByteAt;
      hex := "";
      HexNone();
      for k := 0 to 4
        invariant hex == Hex(BytesOf(w)[..k])
      {
        var byte := ByteAt(w, k);
        ByteAtIs(w, k);
        HexAppend(BytesOf(w)[..k], byte);
        assert BytesOf(w)[..k + 1] == BytesOf(w)[..k] + [byte];
        hex := hex + [HexDigit(byte >> 4), HexDigit(byte & 15)];
      }
      assert BytesOf(w)[..4] == BytesOf(w);
    }
  }

  /** ComputeMD5 */
  method ComputeMD5(data: seq<Byte>) returns (hex: string)
    ensures hex == Hex(Digest(data))
  {
    var md5 := new MD5();
    md5.Update(data);
    assert md5.message == data;
    hex := md5.Finalize();
  }

  function Concat(chunks: seq<seq<Byte>>): seq<Byte> {
    if chunks == [] then [] else Concat(chunks[..|chunks| - 1]) + chunks[|chunks| - 1]
  }

  /** Any sequence of updates of any lengths gives the digest of the concatenation. */
  method DigestOfUpdates(chunks: seq<seq<Byte>>) returns (hex: string)
    ensures hex == Hex(Digest(Concat(chunks)))
  {
    hide Digest, Hex, MD5.Valid;
    var md5 := new MD5();
    for i := 0 to |chunks|
      invariant md5.Valid() && fresh(md5.state) && fresh(md5.buffer)
      invariant md5.message == Concat(chunks[..i])
    {
      md5.Update(chunks[i]);
      assert chunks[..i + 1][..i] == chunks[..i];
    }
    assert chunks[..|chunks|] == chunks;
    hex := md5.Finalize();
  }
}
