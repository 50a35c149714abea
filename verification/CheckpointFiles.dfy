/** The two binary checkpoint files: the learning-rate scheduler state and the tensor dictionary. */
module CheckpointFiles {
  import opened Wrappers
  import opened Widths
  import opened StateValues
  import opened Codec

  // ---------------------------------------------------------------- scheduler state values

  /** A value as it is stored: floating-point numbers are their bits, strings their bytes. */
  type StoredValue = StateValue<nat, nat, Bytes>

  predicate InWidth(v: StoredValue) {
    match v
    case Int64(i) => InI64(i)
    case Float(bits) => bits < TWO_32
    case Double(bits) => bits < TWO_64
    case Text(s) => |s| < TWO_32
    case Floats(xs) => |xs| < TWO_64 && forall i :: 0 <= i < |xs| ==> xs[i] < TWO_32
  }

  function EncFloats(v: seq<nat>): (b: Bytes)
    ensures |b| == 4 * |v|
  {
    if v == [] then [] else EncU(v[0], 4) + EncFloats(v[1..])
  }

  /** WriteLRSchedulerStateValue: a type byte and the data. */
  function EncValue(v: StoredValue): Bytes {
    match v
    case Int64(i) => [1] + EncI64(i)
    case Float(bits) => [2] + EncU(bits, 4)
    case Double(bits) => [3] + EncU(bits, 8)
    case Text(s) => [4] + EncString(s)
    case Floats(xs) => [5] + EncU(|xs| % TWO_64, 8) + EncFloats(xs)
  }

  function FloatsAt(file: Bytes, pos: nat, n: nat): seq<nat> {
    seq(n, i requires 0 <= i < n => ReadU(file, pos + 4 * i, 4))
  }

  /** ReadLRSchedulerStateValue: fatal on any other type byte. */
  function DecValue(file: Bytes, pos: nat): Option<(StoredValue, nat)> {
    var tag := ReadU(file, pos, 1);
    if tag == 1 then Some((Int64(SignedU64(ReadU(file, pos + 1, 8))), pos + 9))
    else if tag == 2 then Some((Float(ReadU(file, pos + 1, 4)), pos + 5))
    else if tag == 3 then Some((Double(ReadU(file, pos + 1, 8)), pos + 9))
    else if tag == 4 then
      var (s, pos') := DecString(file, pos + 1);
      Some((Text(s), pos'))
    else if tag == 5 then
      var n := ReadU(file, pos + 1, 8);
      Some((Floats(FloatsAt(file, pos + 9, n)), pos + 9 + 4 * n))
    else None
  }

  const SCHEDULER_FORMAT :=
    Format(0x53524C53, 1, (v: StoredValue) => EncValue(v), (file: Bytes, pos: nat) => DecValue(file, pos))

  lemma ReadsTag(pre: Bytes, tag: Octet, post: Bytes)
    ensures ReadU(pre + ([tag] + post), |pre|, 1) == tag
  {
    assert pre + ([tag] + post) == pre + [tag] + post;
    TakeAt(pre, [tag], post);
    assert [tag][1..] == [];
    assert DecU([tag]) == tag;
  }

  lemma ReadsNumber(pre: Bytes, tag: Octet, v: nat, n: nat, post: Bytes)
    requires v < Pow256(n)
    ensures ReadU(pre + ([tag] + EncU(v, n) + post), |pre| + 1, n) == v
  {
    hide ReadU, EncU;
    assert pre + ([tag] + EncU(v, n) + post) == (pre + [tag]) + EncU(v, n) + post;
    ReadsU(pre + [tag], v, n, post);
  }

  lemma SliceAfter(b: Bytes, k: nat, i: nat, n: nat)
    requires k + i + n <= |b|
    ensures b[k..][i..i + n] == b[k + i..k + i + n]
  {
  }

  lemma {:induction false} FloatAt(v: seq<nat>, i: nat)
    requires i < |v|
    ensures EncFloats(v)[4 * i..4 * i + 4] == EncU(v[i], 4)
  {
    hide EncU;
    if i > 0 {
      FloatAt(v[1..], i - 1);
      assert EncFloats(v)[4..] == EncFloats(v[1..]);
      SliceAfter(EncFloats(v), 4, 4 * (i - 1), 4);
    }
  }

  lemma FloatReads(pre: Bytes, v: seq<nat>, post: Bytes, i: nat, pos: nat)
    requires i < |v| && v[i] < TWO_32 && pos == |pre| + 4 * i
    ensures ReadU(pre + EncFloats(v) + post, pos, 4) == v[i]
  {
    Pow256Values();
    hide ReadU, EncU, EncFloats, Pow256;
    var b := EncFloats(v);
    FloatAt(v, i);
    var x, y := b[..4 * i], b[4 * i + 4..];
    Middle(pre, b, post, 4 * i, 4);
    ReadsU(pre + x, v[i], 4, y + post);
    assert |pre + x| == pos;
  }

  lemma FloatsAre(file: Bytes, pos: nat, v: seq<nat>)
    requires forall i: nat :: i < |v| ==> ReadU(file, pos + 4 * i, 4) == v[i]
    ensures FloatsAt(file, pos, |v|) == v
  {
    hide ReadU;
  }

  lemma ReadsFloats(pre: Bytes, v: seq<nat>, post: Bytes)
    requires forall i :: 0 <= i < |v| ==> v[i] < TWO_32
    ensures FloatsAt(pre + EncFloats(v) + post, |pre|, |v|) == v
  {
    hide *;
    var file, pos := pre + EncFloats(v) + post, |pre|;
    forall i: nat | i < |v|
      ensures ReadU(file, pos + 4 * i, 4) == v[i]
    {
      FloatReads(pre, v, post, i, pos + 4 * i);
    }
    FloatsAre(file, pos, v);
  }

  lemma Middle(pre: Bytes, b: Bytes, post: Bytes, i: nat, n: nat)
    requires i + n <= |b|
    ensures pre + b + post == (pre + b[..i]) + b[i..i + n] + (b[i + n..] + post)
  {
  }

  /** The ways in which a tagged value is taken apart. */
  lemma Tagged(pre: Bytes, tag: Octet, x: Bytes, post: Bytes)
    ensures pre + ([tag] + x) + post == pre + ([tag] + (x + post))
    ensures pre + ([tag] + x) + post == pre + ([tag] + x + post)
    ensures pre + ([tag] + x) + post == (pre + [tag]) + x + post
  {
  }

  lemma NumberReadsBack(tag: Octet, v: nat, n: nat, pre: Bytes, post: Bytes)
    requires v < Pow256(n)
    ensures var file := pre + ([tag] + EncU(v, n)) + post;
            ReadU(file, |pre|, 1) == tag && ReadU(file, |pre| + 1, n) == v
  {
    hide ReadU, EncU;
    Tagged(pre, tag, EncU(v, n), post);
    ReadsTag(pre, tag, EncU(v, n) + post);
    ReadsNumber(pre, tag, v, n, post);
  }

  lemma TextReadsBack(s: Bytes, pre: Bytes, post: Bytes)
    requires |s| < TWO_32
    ensures var file := pre + ([4] + EncString(s)) + post;
            ReadU(file, |pre|, 1) == 4 && DecString(file, |pre| + 1) == (s, |pre| + 1 + |EncString(s)|)
  {
    hide ReadU, EncString, DecString;
    Tagged(pre, 4, EncString(s), post);
    ReadsTag(pre, 4, EncString(s) + post);
    DecodesString(pre + [4], s, post);
  }

  lemma FloatsReadBack(xs: seq<nat>, pre: Bytes, post: Bytes)
    requires |xs| < TWO_64 && forall i :: 0 <= i < |xs| ==> xs[i] < TWO_32
    ensures var file := pre + ([5] + EncU(|xs|, 8) + EncFloats(xs)) + post;
            ReadU(file, |pre|, 1) == 5 && ReadU(file, |pre| + 1, 8) == |xs| && FloatsAt(file, |pre| + 9, |xs|) == xs
  {
    var n, b := EncU(|xs|, 8), EncFloats(xs);
    TaggedPair(pre, 5, n, b, post);
    CountReadsBack(|xs|, pre, b + post);
    FloatsReadFrom(xs, pre + [5] + n, post, |pre| + 9);

  }

  lemma CountReadsBack(count: nat, pre: Bytes, rest: Bytes)
    requires count < TWO_64
    ensures var file := pre + ([5] + EncU(count, 8)) + rest;
            ReadU(file, |pre|, 1) == 5 && ReadU(file, |pre| + 1, 8) == count
  {
    Pow256Values();
    hide Pow256;
    NumberReadsBack(5, count, 8, pre, rest);
  }

  lemma FloatsReadFrom(xs: seq<nat>, pre: Bytes, post: Bytes, pos: nat)
    requires pos == |pre| && forall i :: 0 <= i < |xs| ==> xs[i] < TWO_32
    ensures FloatsAt(pre + EncFloats(xs) + post, pos, |xs|) == xs
  {
    ReadsFloats(pre, xs, post);
  }

  lemma TaggedPair(pre: Bytes, tag: Octet, x: Bytes, y: Bytes, post: Bytes)
    ensures pre + ([tag] + x + y) + post == pre + ([tag] + x) + (y + post)
    ensures pre + ([tag] + x + y) + post == (pre + [tag] + x) + y + post
  {
  }

  /** Every kind of value reads back, wherever it stands. */
  lemma ValueReadsBack(v: StoredValue, pre: Bytes, post: Bytes)
    requires InWidth(v)
    ensures DecValue(pre + EncValue(v) + post, |pre|) == Some((v, |pre| + |EncValue(v)|))
  {
    Pow256Values();
    hide ReadU, EncU, EncFloats, Pow256, FloatsAt, EncString, DecString;
    match v
    case Int64(i) =>
      DecodesI64(i);
      NumberReadsBack(1, i % TWO_64, 8, pre, post);
      SignedBack(i);
    case Float(bits) => NumberReadsBack(2, bits, 4, pre, post);
    case Double(bits) => NumberReadsBack(3, bits, 8, pre, post);
    case Text(s) => TextReadsBack(s, pre, post);
    case Floats(xs) => FloatsReadBack(xs, pre, post);
  }

  lemma SignedBack(i: int)
    requires InI64(i)
    ensures SignedU64(i % TWO_64) == i
  {
  }

  /** A scheduler state dictionary whose values and names are within their field widths. */
  ghost predicate StateInWidth(d: map<Bytes, StoredValue>) {
    |d| < TWO_32 && forall k :: k in d ==> |k| < TWO_32 && InWidth(d[k])
  }

  /** The state loaded is the state saved, whatever order the map was enumerated in. */
  lemma SchedulerStateRoundTrip(d: map<Bytes, StoredValue>, order: seq<Bytes>)
    requires StateInWidth(d) && Enumerates(order, d)
    ensures Decode(SCHEDULER_FORMAT, Encode(SCHEDULER_FORMAT, d, order)) == Some(d)
  {
    hide EncValue, DecValue, InWidth, Encode, Decode;
    forall k | k in d
      ensures ReadsBack(SCHEDULER_FORMAT, d[k])
    {
      forall pre: Bytes, post: Bytes
        ensures SCHEDULER_FORMAT.decode(pre + SCHEDULER_FORMAT.encode(d[k]) + post, |pre|) ==
                Some((d[k], |pre| + |SCHEDULER_FORMAT.encode(d[k])|))
      {
        ValueReadsBack(d[k], pre, post);
      }
    }
    DecodeUndoesEncode(SCHEDULER_FORMAT, d, order);
  }

  // ---------------------------------------------------------------- tensors

  /** dtype is the DataType's number, data the raw bytes. */
  datatype StoredTensor = StoredTensor(dtype: int, dims: seq<int>, data: Bytes)

  /** kDataTypeToSize */
  function DataTypeSize(dtype: int): Option<nat> {
    if dtype in {0, 1, 2} then Some(1)
    else if dtype in {3, 4, 9, 10} then Some(2)
    else if dtype in {5, 6, 11} then Some(4)
    else if dtype in {7, 8, 12} then Some(8)
    else None
  }

  function NumElements(dims: seq<int>): int {
    if dims == [] then 1 else dims[0] * NumElements(dims[1..])
  }

  /** A tensor as its constructor makes it, within the field widths. */
  predicate TensorInWidth(t: StoredTensor) {
    && DataTypeSize(t.dtype).Some? && |t.data| == DataTypeSize(t.dtype).value * NumElements(t.dims)
    && |t.data| < TWO_64 && |t.dims| < TWO_32
    && forall i :: 0 <= i < |t.dims| ==> InI64(t.dims[i])
  }

  function EncDims(dims: seq<int>): (b: Bytes)
    ensures |b| == 8 * |dims|
  {
    if dims == [] then [] else EncI64(dims[0]) + EncDims(dims[1..])
  }

  function DimsAt(file: Bytes, pos: nat, n: nat): seq<int> {
    seq(n, i requires 0 <= i < n => SignedU64(ReadU(file, pos + 8 * i, 8)))
  }

  function EncTensor(t: StoredTensor): Bytes {
    [t.dtype % 256] + EncU(|t.dims| % TWO_32, 4) + EncDims(t.dims) + EncU(|t.data| % TWO_64, 8) + t.data
  }

  function SignedU8(u: nat): int {
    if u < 128 then u else u - 256
  }

  /** None for an unknown data type, or when the byte count is not that of the dims. */
  function DecTensor(file: Bytes, pos: nat): Option<(StoredTensor, nat)> {
    var dtype := SignedU8(ReadU(file, pos, 1));
    var ndim := ReadU(file, pos + 1, 4);
    var dims := DimsAt(file, pos + 5, ndim);
    var bytes := ReadU(file, pos + 5 + 8 * ndim, 8);
    if DataTypeSize(dtype).None? || bytes != DataTypeSize(dtype).value * NumElements(dims) then None
    else Some((StoredTensor(dtype, dims, Take(file, pos + 13 + 8 * ndim, bytes)), pos + 13 + 8 * ndim + bytes))
  }

  const TENSOR_FORMAT :=
    Format(0x54504B43, 1, (t: StoredTensor) => EncTensor(t), (file: Bytes, pos: nat) => DecTensor(file, pos))

  lemma {:induction false} DimAt(dims: seq<int>, i: nat)
    requires i < |dims|
    ensures EncDims(dims)[8 * i..8 * i + 8] == EncI64(dims[i])
  {
    hide EncI64;
    if i > 0 {
      DimAt(dims[1..], i - 1);
      assert EncDims(dims)[8..] == EncDims(dims[1..]);
      SliceAfter(EncDims(dims), 8, 8 * (i - 1), 8);
    }
  }

  lemma DimReads(pre: Bytes, dims: seq<int>, post: Bytes, i: nat, pos: nat)
    requires i < |dims| && InI64(dims[i]) && pos == |pre| + 8 * i
    ensures SignedU64(ReadU(pre + EncDims(dims) + post, pos, 8)) == dims[i]
  {
    Pow256Values();
    hide ReadU, EncU, EncDims, Pow256;
    var b := EncDims(dims);
    DimAt(dims, i);
    var x, y := b[..8 * i], b[8 * i + 8..];
    Middle(pre, b, post, 8 * i, 8);
    ReadsU(pre + x, dims[i] % TWO_64, 8, y + post);
    SignedBack(dims[i]);
    assert |pre + x| == pos;
  }

  lemma DimsAre(file: Bytes, pos: nat, dims: seq<int>)
    requires forall i: nat :: i < |dims| ==> SignedU64(ReadU(file, pos + 8 * i, 8)) == dims[i]
    ensures DimsAt(file, pos, |dims|) == dims
  {
    hide ReadU, SignedU64;
  }

  lemma ReadsDims(pre: Bytes, dims: seq<int>, post: Bytes)
    requires forall i :: 0 <= i < |dims| ==> InI64(dims[i])
    ensures DimsAt(pre + EncDims(dims) + post, |pre|, |dims|) == dims
  {
    hide *;
    var file, pos := pre + EncDims(dims) + post, |pre|;
    forall i: nat | i < |dims|
      ensures SignedU64(ReadU(file, pos + 8 * i, 8)) == dims[i]
    {
      DimReads(pre, dims, post, i, pos + 8 * i);
    }
    DimsAre(file, pos, dims);
  }

  /** The four ways to take apart the parts of a tensor's entry. */
  lemma Parts(pre: Bytes, tag: Octet, n: Bytes, d: Bytes, c: Bytes, data: Bytes, post: Bytes)
    ensures var file := pre + ([tag] + n + d + c + data) + post;
            && file == pre + ([tag] + n) + (d + c + data + post)
            && file == (pre + [tag] + n) + d + (c + data + post)
            && file == (pre + [tag] + n + d) + c + (data + post)
            && file == (pre + [tag] + n + d + c) + data + post
  {
  }

  lemma TensorReadsBack(t: StoredTensor, pre: Bytes, post: Bytes)
    requires TensorInWidth(t)
    ensures DecTensor(pre + EncTensor(t) + post, |pre|) == Some((t, |pre| + |EncTensor(t)|))
  {
    Pow256Values();
    hide ReadU, EncU, EncDims, Pow256, DimsAt, Take, NumElements, InI64, EncI64;
    var n, d, c := EncU(|t.dims|, 4), EncDims(t.dims), EncU(|t.data|, 8);
    Parts(pre, t.dtype, n, d, c, t.data, post);
    NumberReadsBack(t.dtype, |t.dims|, 4, pre, d + c + t.data + post);
    ReadsDims(pre + [t.dtype] + n, t.dims, c + t.data + post);
    ReadsU(pre + [t.dtype] + n + d, |t.data|, 8, t.data + post);
    TakeAt(pre + [t.dtype] + n + d + c, t.data, post);
  }

  /** The tensors loaded are the tensors saved, whatever order the map was enumerated in. */
  lemma TensorsRoundTrip(d: map<Bytes, StoredTensor>, order: seq<Bytes>)
    requires |d| < TWO_32 && forall k :: k in d ==> |k| < TWO_32 && TensorInWidth(d[k])
    requires Enumerates(order, d)
    ensures Decode(TENSOR_FORMAT, Encode(TENSOR_FORMAT, d, order)) == Some(d)
  {
    hide EncTensor, DecTensor, TensorInWidth, Encode, Decode;
    forall k | k in d
      ensures ReadsBack(TENSOR_FORMAT, d[k])
    {
      forall pre: Bytes, post: Bytes
        ensures TENSOR_FORMAT.decode(pre + TENSOR_FORMAT.encode(d[k]) + post, |pre|) ==
                Some((d[k], |pre| + |TENSOR_FORMAT.encode(d[k])|))
      {
        TensorReadsBack(d[k], pre, post);
      }
    }
    DecodeUndoesEncode(TENSOR_FORMAT, d, order);
  }

  /** The reader of one tensor, dimension by dimension. */
  method ReadTensor(file: Bytes, start: nat) returns (r: Option<(StoredTensor, nat)>)
    ensures r == DecTensor(file, start)
  {
    hide ReadU, Take, NumElements, DataTypeSize;
    var pos := start;
    var dtype := SignedU8(ReadU(file, pos, 1));
    pos := pos + 1;
    var ndim := ReadU(file, pos, 4);
    pos := pos + 4;
    var dims: seq<int> := [];
    for d := 0 to ndim
      invariant pos == start + 5 + 8 * d && dims == DimsAt(file, start + 5, d)
    {
      dims := dims + [SignedU64(ReadU(file, pos, 8))];
      pos := pos + 8;
    }
    var bytes := ReadU(file, pos, 8);
    pos := pos + 8;
    var size := DataTypeSize(dtype);
    if size.None? || bytes != size.value * NumElements(dims) {
      return None;
    }
    return Some((StoredTensor(dtype, dims, Take(file, pos, bytes)), pos + bytes));
  }

  method WriteDims(file: Bytes, dims: seq<int>) returns (r: Bytes)
    ensures r == file + EncDims(dims)
  {
    hide EncI64;
    r := file;
    ghost var done: Bytes := [];
    assert dims[0..] == dims;
    for d := 0 to |dims|
      invariant r == file + done && done + EncDims(dims[d..]) == EncDims(dims)
    {
      assert dims[d..][1..] == dims[d + 1..];
      r := r + EncI64(dims[d]);
      done := done + EncI64(dims[d]);
    }
  }

  /** The writer of one tensor. */
  method WriteTensor(file: Bytes, t: StoredTensor) returns (r: Bytes)
    ensures r == file + EncTensor(t)
  {
    hide EncU, EncDims;
    r := file + [t.dtype % 256];
    r := r + EncU(|t.dims| % TWO_32, 4);
    r := WriteDims(r, t.dims);
    r := r + EncU(|t.data| % TWO_64, 8);
    r := r + t.data;
  }

  /** The writer of one entry. */
  method WriteEntry(file: Bytes, name: Bytes, t: StoredTensor) returns (r: Bytes)
    ensures r == file + (EncString(name) + EncTensor(t))
  {
    hide EncString, EncTensor;
    r := WriteString(file, name);
    r := WriteTensor(r, t);
  }

  method SaveStateDict(d: map<Bytes, StoredTensor>) returns (file: Bytes)
    ensures exists order :: Enumerates(order, d) && file == Encode(TENSOR_FORMAT, d, order)
  {
    hide EncString, Header, EncTensor, EncU, EncEntries;
    file := EncU(TENSOR_FORMAT.magic, 4);
    file := file + EncU(TENSOR_FORMAT.version, 4);
    file := file + EncU(|d| % TWO_32, 4);
    HeaderIs(TENSOR_FORMAT, |d|);
    ghost var order: seq<Bytes> := [];
    NoEntries(TENSOR_FORMAT, d);
    var left := d.Keys;
    while left != {}
      invariant left <= d.Keys
      invariant forall k :: k in order <==> k in d && k !in left
      invariant forall i, j :: 0 <= i < j < |order| ==> order[i] != order[j]
      invariant file == Header(TENSOR_FORMAT, |d|) + EncEntries(TENSOR_FORMAT, d, order)
    {
      var name :| name in left;
      left := left - {name};
      EntriesAppend(TENSOR_FORMAT, d, order, name);
      file := WriteEntry(file, name, d[name]);
      order := order + [name];
    }
    assert Enumerates(order, d);
    assert file == Encode(TENSOR_FORMAT, d, order);
  }

  /** None where a CHECK fails; of two entries with one name the first counts. */
  method LoadStateDict(file: Bytes) returns (r: Option<map<Bytes, StoredTensor>>)
    ensures r == Decode(TENSOR_FORMAT, file)
  {
    hide ReadU, DecString, DecTensor;
    var magic := ReadU(file, 0, 4);
    var version := ReadU(file, 4, 4);
    var count := ReadU(file, 8, 4);
    if magic != TENSOR_FORMAT.magic || version != TENSOR_FORMAT.version {
      return None;
    }
    var state: map<Bytes, StoredTensor> := map[];
    var pos := 12;
    for i := 0 to count
      invariant DecEntries(TENSOR_FORMAT, file, pos, count - i, state) ==
                DecEntries(TENSOR_FORMAT, file, 12, count, map[])
    {
      var name, next := ReadString(file, pos);
      var value := ReadTensor(file, next);
      if value.None? {
        return None;
      }
      if name !in state {
        state := state[name := value.value.0];
      }
      pos := value.value.1;
    }
    return Some(state);
  }

  /** Save and load a tensor dictionary: the map comes back. */
  method StateDictThroughFile(d: map<Bytes, StoredTensor>) returns (r: Option<map<Bytes, StoredTensor>>)
    requires |d| < TWO_32 && forall k :: k in d ==> |k| < TWO_32 && TensorInWidth(d[k])
    ensures r == Some(d)
  {
    var file := SaveStateDict(d);
    ghost var order :| Enumerates(order, d) && file == Encode(TENSOR_FORMAT, d, order);
    TensorsRoundTrip(d, order);
    r := LoadStateDict(file);
  }

  /** Save and load a scheduler's state: the map comes back. */
  method SchedulerStateThroughFile(d: map<Bytes, StoredValue>) returns (r: Option<map<Bytes, StoredValue>>)
    requires StateInWidth(d)
    ensures r == Some(d)
  {
    var file := SaveAll(SCHEDULER_FORMAT, d);
    ghost var order :| Enumerates(order, d) && file == Encode(SCHEDULER_FORMAT, d, order);
    SchedulerStateRoundTrip(d, order);
    r := LoadAll(SCHEDULER_FORMAT, file);
  }
}
