/** The two binary checkpoint files byte by byte, and what their readers refuse. */
module FileBytes {
  import opened Wrappers
  import opened Widths
  import opened Codec
  import opened CheckpointFiles

  /** The low-order byte first. */
  function Word4(v: nat): Bytes {
    [v % 256, v / 0x100 % 256, v / 0x1_0000 % 256, v / 0x100_0000 % 256]
  }

  function Word8(v: nat): Bytes {
    Word4(v) + Word4(v / 0x1_0000_0000)
  }

  function TwosComplement(i: int): nat
    requires InI64(i)
  {
    if i >= 0 then i else i + 0x1_0000_0000_0000_0000
  }

  lemma ComplementIsRemainder(i: int)
    requires InI64(i)
    ensures i % TWO_64 == TwosComplement(i)
  {
  }

  lemma FourBytes(v: nat)
    ensures EncU(v, 4) == Word4(v)
  {
    assert EncU(v / 0x100_0000, 1) == [v / 0x100_0000 % 256];
    assert EncU(v / 0x1_0000, 2) == [v / 0x1_0000 % 256, v / 0x100_0000 % 256];
    assert EncU(v / 0x100, 3) == [v / 0x100 % 256, v / 0x1_0000 % 256, v / 0x100_0000 % 256];
  }

  lemma EightBytes(v: nat)
    ensures EncU(v, 8) == Word8(v)
  {
    FourBytes(v / 0x1_0000_0000);
    hide Word4;
    FourthOn(v);
    FourBytes(v);
    TwoHalves(v, 4, 4);
  }

  lemma FourthOn(v: nat)
    ensures Shifted(v, 4) == v / 0x1_0000_0000
  {
    assert Shifted(v, 1) == v / 0x100;
    assert Shifted(v, 2) == v / 0x1_0000;
    assert Shifted(v, 3) == v / 0x100_0000;
  }

  function Shifted(v: nat, n: nat): nat {
    if n == 0 then v else Shifted(v, n - 1) / 256
  }

  lemma {:induction false} ShiftedFirst(v: nat, n: nat)
    requires n > 0
    ensures Shifted(v, n) == Shifted(v / 256, n - 1)
  {
    if n > 1 {
      ShiftedFirst(v, n - 1);
    }
  }

  lemma {:induction false} TwoHalves(v: nat, n: nat, m: nat)
    ensures EncU(v, n + m) == EncU(v, n) + EncU(Shifted(v, n), m)
  {
    if n > 0 {
      TwoHalves(v / 256, n - 1, m);
      ShiftedFirst(v, n);
    }
  }

  // ---------------------------------------------------------------- values and tensors

  /** A string: its length in four bytes, and its bytes. */
  lemma StringBytes(s: Bytes)
    requires |s| < 0x1_0000_0000
    ensures EncString(s) == Word4(|s|) + s
  {
    FourBytes(|s|);
    hide Word4;
    assert s[..|s|] == s;
  }

  /** Each kind of scheduler value: its type byte and its data. */
  lemma ValueBytes(v: StoredValue)
    requires InWidth(v)
    ensures match v
            case Int64(i) => EncValue(v) == [1] + Word8(TwosComplement(i))
            case Float(bits) => EncValue(v) == [2] + Word4(bits)
            case Double(bits) => EncValue(v) == [3] + Word8(bits)
            case Text(s) => EncValue(v) == [4] + (Word4(|s|) + s)
            case Floats(xs) =>
              && |EncValue(v)| == 9 + 4 * |xs|
              && EncValue(v)[..9] == [5] + Word8(|xs|)
              && forall i :: 0 <= i < |xs| ==> EncValue(v)[9 + 4 * i..9 + 4 * i + 4] == Word4(xs[i])
  {
    hide Word4, Word8, EncU;
    match v
    case Int64(i) => EightBytes(i % TWO_64);
    case Float(bits) => FourBytes(bits);
    case Double(bits) => EightBytes(bits);
    case Text(s) => StringBytes(s);
    case Floats(xs) =>
      EightBytes(|xs|);
      var b := EncValue(v);
      assert b[9..] == EncFloats(xs);
      forall i | 0 <= i < |xs|
        ensures b[9 + 4 * i..9 + 4 * i + 4] == Word4(xs[i])
      {
        FloatAt(xs, i);
        FourBytes(xs[i]);
        SliceAfter(b, 9, 4 * i, 4);
      }
  }

  lemma DimBytes(dims: seq<int>, i: nat)
    requires i < |dims| && InI64(dims[i])
    ensures EncDims(dims)[8 * i..8 * i + 8] == Word8(TwosComplement(dims[i]))
  {
    hide Word8, EncDims, EncU, TwosComplement;
    DimAt(dims, i);
    ComplementIsRemainder(dims[i]);
    EightBytes(dims[i] % TWO_64);
  }

  /** A tensor: data type, rank, dimensions, byte count, and the bytes. */
  lemma TensorBytes(t: StoredTensor)
    requires TensorInWidth(t)
    ensures var b, n := EncTensor(t), |t.dims|;
            && |b| == 13 + 8 * n + |t.data|
            && b[..5] == [t.dtype] + Word4(n)
            && (forall i :: 0 <= i < n ==> b[5 + 8 * i..13 + 8 * i] == Word8(TwosComplement(t.dims[i])))
            && b[5 + 8 * n..13 + 8 * n] == Word8(|t.data|)
            && b[13 + 8 * n..] == t.data
  {
    hide Word4, Word8, EncU, NumElements, EncDims, TwosComplement;
    var b, n := EncTensor(t), |t.dims|;
    FourBytes(n);
    EightBytes(|t.data|);
    assert b == [t.dtype] + Word4(n) + EncDims(t.dims) + Word8(|t.data|) + t.data;
    SliceOfTensor([t.dtype] + Word4(n), EncDims(t.dims), Word8(|t.data|), t.data);
    forall i | 0 <= i < n
      ensures b[5 + 8 * i..13 + 8 * i] == Word8(TwosComplement(t.dims[i]))
    {
      DimBytes(t.dims, i);
      SliceAfter(b[..5 + 8 * n], 5, 8 * i, 8);
    }
  }

  lemma SliceOfTensor(h: Bytes, d: Bytes, c: Bytes, data: Bytes)
    ensures var b := h + d + c + data;
            && b[..|h|] == h && b[..|h| + |d|][|h|..] == d
            && b[|h| + |d|..|h| + |d| + |c|] == c && b[|h| + |d| + |c|..] == data
  {
  }

  // ---------------------------------------------------------------- whole files

  lemma HeaderBytes<V>(f: Format<V>, count: nat)
    requires count < 0x1_0000_0000
    ensures Header(f, count) == Word4(f.magic) + Word4(f.version) + Word4(count)
  {
    hide Word4, EncU;
    FourBytes(f.magic);
    FourBytes(f.version);
    FourBytes(count);
  }

  lemma Words()
    ensures Word4(0x54504B43) == [0x43, 0x4b, 0x50, 0x54] && Word4(0x53524C53) == [0x53, 0x4c, 0x52, 0x53]
    ensures Word4(1) == [1, 0, 0, 0]
  {
  }

  /** "CKPT", version 1 and the number of tensors; then name and tensor of each entry in turn. */
  lemma TensorFileBytes(d: map<Bytes, StoredTensor>, order: seq<Bytes>)
    requires |d| < 0x1_0000_0000 && Enumerates(order, d)
    ensures Encode(TENSOR_FORMAT, d, order) ==
            [0x43, 0x4b, 0x50, 0x54] + [1, 0, 0, 0] + Word4(|d|) + EntryBytes(TENSOR_FORMAT, d, order)
  {
    hide Word4, EncEntries, EncValue, EncTensor, Header;
    HeaderBytes(TENSOR_FORMAT, |d|);
    Words();
    EntriesAre(TENSOR_FORMAT, d, order);
  }

  /** "SLRS", version 1 and the number of values; then name and value of each entry in turn. */
  lemma SchedulerFileBytes(d: map<Bytes, StoredValue>, order: seq<Bytes>)
    requires |d| < 0x1_0000_0000 && Enumerates(order, d)
    ensures Encode(SCHEDULER_FORMAT, d, order) ==
            [0x53, 0x4c, 0x52, 0x53] + [1, 0, 0, 0] + Word4(|d|) + EntryBytes(SCHEDULER_FORMAT, d, order)
  {
    hide Word4, EncEntries, EncValue, EncTensor, Header;
    HeaderBytes(SCHEDULER_FORMAT, |d|);
    Words();
    EntriesAre(SCHEDULER_FORMAT, d, order);
  }

  /** Name and value of each entry, the last entry last. */
  ghost function EntryBytes<V>(f: Format<V>, d: map<Bytes, V>, order: seq<Bytes>): Bytes
    requires forall k :: k in order ==> k in d
  {
    if order == [] then []
    else
      var n := |order| - 1;
      EntryBytes(f, d, order[..n]) + (EncString(order[n]) + f.encode(d[order[n]]))
  }

  lemma {:induction false} EntriesAre<V>(f: Format<V>, d: map<Bytes, V>, order: seq<Bytes>)
    requires forall k :: k in order ==> k in d
    ensures EncEntries(f, d, order) == EntryBytes(f, d, order)
  {
    hide EncString;
    if order != [] {
      var n := |order| - 1;
      EntriesAre(f, d, order[..n]);
      EntriesAppend(f, d, order[..n], order[n]);
      assert order[..n] + [order[n]] == order;
    }
  }

  // ---------------------------------------------------------------- what is refused

  function FromFour(a: int, b: int, c: int, d: int): int {
    a + 0x100 * b + 0x1_0000 * c + 0x100_0000 * d
  }

  lemma ReadsFour(file: Bytes, pos: nat)
    requires pos + 4 <= |file|
    ensures ReadU(file, pos, 4) == FromFour(file[pos], file[pos + 1], file[pos + 2], file[pos + 3])
  {
    hide DecU;
    DecodesFour(file[pos], file[pos + 1], file[pos + 2], file[pos + 3]);
    assert Take(file, pos, 4) == [file[pos], file[pos + 1], file[pos + 2], file[pos + 3]];
  }

  lemma DecodesFour(a: Octet, b: Octet, c: Octet, d: Octet)
    ensures DecU([a, b, c, d]) == FromFour(a, b, c, d)
  {
    var three: Bytes, two: Bytes, one: Bytes := [b, c, d], [c, d], [d];
    assert [a, b, c, d][1..] == three && three[1..] == two && two[1..] == one && one[1..] == [];
    assert DecU(one) == d && DecU(two) == (c as int) + 0x100 * (d as int);
    assert DecU(three) == (b as int) + 0x100 * (c as int) + 0x1_0000 * (d as int);
  }

  /** The two CHECKs on the header, and a file without entries. */
  lemma HeaderDecides<V>(f: Format<V>, file: Bytes)
    ensures Decode(f, file).Some? ==> ReadU(file, 0, 4) == f.magic && ReadU(file, 4, 4) == f.version
    ensures ReadU(file, 0, 4) == f.magic && ReadU(file, 4, 4) == f.version && ReadU(file, 8, 4) == 0 ==>
              Decode(f, file) == Some(map[])
  {
    hide ReadU;
  }

  lemma MagicFours(a: Octet, b: Octet, c: Octet, d: Octet)
    ensures FromFour(a, b, c, d) == 0x54504B43 <==> a == 0x43 && b == 0x4b && c == 0x50 && d == 0x54
    ensures FromFour(a, b, c, d) == 0x53524C53 <==> a == 0x53 && b == 0x4c && c == 0x52 && d == 0x53
    ensures FromFour(a, b, c, d) == 1 <==> a == 1 && b == 0 && c == 0 && d == 0
    ensures FromFour(a, b, c, d) == 0 <==> a == 0 && b == 0 && c == 0 && d == 0
  {
  }

  /** A file that does not begin with "CKPT" and version 1 is refused, and one that begins with them is read on. */
  lemma OnlyTensorFiles(file: Bytes)
    requires |file| >= 12
    ensures Decode(TENSOR_FORMAT, file).Some? ==> file[..8] == [0x43, 0x4b, 0x50, 0x54, 1, 0, 0, 0]
    ensures file[..12] == [0x43, 0x4b, 0x50, 0x54, 1, 0, 0, 0, 0, 0, 0, 0] ==>
            Decode(TENSOR_FORMAT, file) == Some(map[])
  {
    hide Decode, DecTensor, EncTensor, DecValue, EncValue, ReadU, FromFour;
    HeaderDecides(TENSOR_FORMAT, file);
    ReadsFour(file, 0);
    ReadsFour(file, 4);
    ReadsFour(file, 8);
    MagicFours(file[0], file[1], file[2], file[3]);
    MagicFours(file[4], file[5], file[6], file[7]);
    MagicFours(file[8], file[9], file[10], file[11]);
    EightAre(file);
  }

  lemma OnlySchedulerFiles(file: Bytes)
    requires |file| >= 12
    ensures Decode(SCHEDULER_FORMAT, file).Some? ==> file[..8] == [0x53, 0x4c, 0x52, 0x53, 1, 0, 0, 0]
    ensures file[..12] == [0x53, 0x4c, 0x52, 0x53, 1, 0, 0, 0, 0, 0, 0, 0] ==>
              Decode(SCHEDULER_FORMAT, file) == Some(map[])
  {
    hide Decode, DecTensor, EncTensor, DecValue, EncValue, ReadU, FromFour;
    HeaderDecides(SCHEDULER_FORMAT, file);
    ReadsFour(file, 0);
    ReadsFour(file, 4);
    ReadsFour(file, 8);
    MagicFours(file[0], file[1], file[2], file[3]);
    MagicFours(file[4], file[5], file[6], file[7]);
    MagicFours(file[8], file[9], file[10], file[11]);
    EightAre(file);
  }

  lemma EightAre(file: Bytes)
    requires |file| >= 12
    ensures file[..8] == [file[0], file[1], file[2], file[3], file[4], file[5], file[6], file[7]]
    ensures forall i :: 0 <= i < 12 ==> file[..12][i] == file[i]
  {
  }

  /** A value with any other type byte is fatal. */
  lemma OtherTypesAreFatal(file: Bytes, pos: nat)
    requires pos < |file|
    ensures DecValue(file, pos).None? <==> !(1 <= file[pos] <= 5)
  {
    var b := Take(file, pos, 1);
    assert b[1..] == [];
    assert DecU(b) == file[pos];
  }
}
