/**
 * What a rank holds of a parameter, element by element against the file, and what linear layers built
 * on those parts compute together: the outputs of the column-parallel ranks lie side by side in the
 * full layer's output, those of the row-parallel ranks add up to it.
 */
module HeldParts {
  import opened Wrappers
  import opened RealSums
  import opened Shards
  import opened CheckpointLoader
  import opened LoRA

  // ---------------------------------------------------------------- parts, element by element

  ghost predicate Same(t: seq<real>, x: int, data: seq<real>, y: int) {
    0 <= x < |t| && 0 <= y < |data| && t[x] == data[y]
  }

  /** Element (first + i, j) of the matrix at an offset of the file is element (i, j) of the tensor's block. */
  ghost predicate RowHeld(t: seq<real>, offset: int, data: seq<real>, at: int, cols: nat, first: int, i: nat, j: nat) {
    Same(t, offset + i * cols + j, data, at + (first + i) * cols + j)
  }

  ghost predicate RowsHeld(t: seq<real>, offset: int, data: seq<real>, at: int, cols: nat, first: int, count: int) {
    forall i: nat, j: nat :: i < count && j < cols ==> RowHeld(t, offset, data, at, cols, first, i, j)
  }

  ghost predicate Whole(t: seq<real>, data: seq<real>, at: int, len: nat) {
    0 <= at && at + len <= |data| && t == data[at..at + len]
  }

  /** Rank r of tp holds its share of the rows. */
  ghost predicate RowBlock(t: seq<real>, data: seq<real>, at: int, rows: nat, cols: nat, tp: nat, r: nat) {
    tp > 0 && |t| == rows / tp * cols && RowsHeld(t, 0, data, at, cols, r * (rows / tp), rows / tp)
  }

  ghost predicate ColumnHeld(t: seq<real>, data: seq<real>, at: int, cols: nat, first: int, count: int, i: nat,
                             j: nat) {
    Same(t, i * count + j, data, at + i * cols + (first + j))
  }

  /** Rank r of tp holds its share of the columns. */
  ghost predicate ColumnBlock(t: seq<real>, data: seq<real>, at: int, rows: nat, cols: nat, tp: nat, r: nat) {
    && tp > 0 && |t| == rows * (cols / tp)
    && forall i: nat, j: nat :: i < rows && j < cols / tp ==>
         ColumnHeld(t, data, at, cols, r * (cols / tp), cols / tp, i, j)
  }

  /**
   * Of q rows followed by twice kv rows, rank r of tp holds its share of the first q, of the next
   * kv and of the last kv.
   */
  ghost predicate PackedBlock(t: seq<real>, data: seq<real>, at: int, cols: nat, q: nat, kv: nat, tp: nat, r: nat) {
    && tp > 0 && |t| == q / tp * cols + kv / tp * cols + kv / tp * cols
    && RowsHeld(t, 0, data, at, cols, r * (q / tp), q / tp)
    && RowsHeld(t, q / tp * cols, data, at + q * cols, cols, r * (kv / tp), kv / tp)
    && RowsHeld(t, q / tp * cols + kv / tp * cols, data, at + q * cols + kv * cols, cols, r * (kv / tp), kv / tp)
  }

  ghost predicate PartHeld(p: Param, t: seq<real>, data: seq<real>, at: int, tp: nat, r: nat) {
    match p
    case Replicated(len) => Whole(t, data, at, len)
    case RowSplit(rows, cols) => RowBlock(t, data, at, rows, cols, tp, r)
    case ColSplit(rows, cols) => ColumnBlock(t, data, at, rows, cols, tp, r)
    case QkvSplit(cols, q, kv) => PackedBlock(t, data, at, cols, q, kv, tp, r)
  }

  /** A stretch of the file that is a block of rows. */
  lemma StretchHeld(t: seq<real>, offset: nat, data: seq<real>, at: nat, cols: nat, first: nat, count: nat, from: nat,
                    len: nat)
    requires from == at + first * cols && len == count * cols && from + len <= |data| && offset + len <= |t|
    requires t[offset..offset + len] == data[from..from + len]
    ensures RowsHeld(t, offset, data, at, cols, first, count)
  {
    forall i: nat, j: nat | i < count && j < cols
      ensures RowHeld(t, offset, data, at, cols, first, i, j)
    {
      InRange(i, count, j, cols);
      CheckpointLoader.Distribute(first, i, cols);
      var x := i * cols + j;
      assert t[offset..offset + len][x] == data[from..from + len][x];
    }
  }

  lemma RowPartHeld(rows: nat, cols: nat, tp: nat, r: nat, data: seq<real>, at: nat)
    requires tp > 0 && r < tp && at + rows * cols <= |data|
    ensures RowBlock(Local(RowSplit(rows, cols), tp, r, Full(RowSplit(rows, cols), data, at)), data, at, rows, cols, tp,
                     r)
  {
    hide RowsHeld, Local, Full;
    LocalRows(rows, cols, tp, r, data, at);
    var t := Local(RowSplit(rows, cols), tp, r, Full(RowSplit(rows, cols), data, at));
    BlockFits(rows, tp, r, 1);
    var c := Per(rows, tp);
    assert t[0..0 + c * cols] == t;
    StretchHeld(t, 0, data, at, cols, r * c, c, at + (r * c) * cols, c * cols);
  }

  lemma ColumnPartHeld(rows: nat, cols: nat, tp: nat, r: nat, data: seq<real>, at: nat)
    requires tp > 0 && r < tp && at + rows * cols <= |data|
    ensures ColumnBlock(Local(ColSplit(rows, cols), tp, r, Full(ColSplit(rows, cols), data, at)), data, at, rows, cols,
                        tp, r)
  {
    BlockFits(cols, tp, r, 1);
    var c := Per(cols, tp);
    var m := Full(ColSplit(rows, cols), data, at);
    ColumnsHeld(Columns(m, rows, cols, r * c, c), m, data, at, rows, cols, r * c, c);
  }

  lemma ColumnsHeld(t: seq<real>, m: seq<real>, data: seq<real>, at: nat, rows: nat, cols: nat, first: nat, count: nat)
    requires at + rows * cols <= |data| && m == data[at..at + rows * cols] && first + count <= cols
    requires t == Columns(m, rows, cols, first, count)
    ensures forall i: nat, j: nat :: i < rows && j < count ==> ColumnHeld(t, data, at, cols, first, count, i, j)
  {
    hide ColumnAt;
    forall i: nat, j: nat | i < rows && j < count
      ensures ColumnHeld(t, data, at, cols, first, count, i, j)
    {
      RowElement(m, rows, cols, first, count, i, i * count + j);
    }
  }

  lemma PackedPartHeld(cols: nat, q: nat, kv: nat, tp: nat, r: nat, data: seq<real>, at: nat)
    requires tp > 0 && r < tp && at + Size(QkvSplit(cols, q, kv)) <= |data|
    ensures PackedBlock(Local(QkvSplit(cols, q, kv), tp, r, Full(QkvSplit(cols, q, kv), data, at)), data, at, cols, q,
                        kv, tp, r)
  {
    hide RowsHeld, Local, Full;
    BlockFits(q, tp, r, 1);
    BlockFits(kv, tp, r, 1);
    BlockFits(q, tp, r, cols);
    BlockFits(kv, tp, r, cols);
    var t := Local(QkvSplit(cols, q, kv), tp, r, Full(QkvSplit(cols, q, kv), data, at));
    var a, b := Per(q, tp), Per(kv, tp);
    ThreeStretches(t, data, at, cols, r, a, b, a * cols, b * cols, q * cols, kv * cols, q, kv, tp);
  }

  lemma ThreeStretches(t: seq<real>, data: seq<real>, at: nat, cols: nat, r: nat, a: nat, b: nat, aLen: nat, bLen: nat,
                       k: nat, n: nat, q: nat, kv: nat, tp: nat)
    requires tp > 0 && r < tp && at + Size(QkvSplit(cols, q, kv)) <= |data|
    requires a == Per(q, tp) && b == Per(kv, tp) && aLen == a * cols && bLen == b * cols
    requires k == q * cols && n == kv * cols && 0 <= r * a && 0 <= r * b
    requires t == Local(QkvSplit(cols, q, kv), tp, r, Full(QkvSplit(cols, q, kv), data, at))
    ensures |t| == aLen + bLen + bLen
    ensures RowsHeld(t, 0, data, at, cols, r * a, a)
    ensures RowsHeld(t, aLen, data, at + k, cols, r * b, b)
    ensures RowsHeld(t, aLen + bLen, data, at + k + n, cols, r * b, b)
  {
    Associate(r, a, cols);
    Associate(r, b, cols);
    var qo, ko, vo := r * aLen, k + r * bLen, k + n + r * bLen;
    LocalQkv(cols, q, kv, tp, r, data, at, aLen, bLen, k, k + n, qo, ko, vo);
    hide RowsHeld, Local, Full, Size, Per;
    var x, y, z :=
        data[at + qo..at + qo + aLen], data[at + ko..at + ko + bLen], data[at + vo..at + vo + bLen];
    ThreeParts(x, y, z);
    StretchHeld(t, 0, data, at, cols, r * a, a, at + qo, aLen);
    StretchHeld(t, aLen, data, at + k, cols, r * b, b, at + ko, bLen);
    StretchHeld(t, aLen + bLen, data, at + k + n, cols, r * b, b, at + vo, bLen);
  }

  lemma LocalIsHeld(p: Param, tp: nat, r: nat, data: seq<real>, at: nat)
    requires tp > 0 && r < tp && at + Size(p) <= |data|
    ensures PartHeld(p, Local(p, tp, r, Full(p, data, at)), data, at, tp, r)
  {
    hide RowBlock, ColumnBlock, PackedBlock;
    match p
    case Replicated(_) =>
    case RowSplit(rows, cols) => RowPartHeld(rows, cols, tp, r, data, at);
    case ColSplit(rows, cols) => ColumnPartHeld(rows, cols, tp, r, data, at);
    case QkvSplit(cols, q, kv) => PackedPartHeld(cols, q, kv, tp, r, data, at);
  }

  lemma HeldIsPart(t: Option<seq<real>>, owns: bool, p: Param, tp: nat, r: nat, data: seq<real>, at: nat)
    requires Held(t, owns, p, tp, r, data, at)
    ensures t.Some? <==> owns
    ensures t.Some? ==> PartHeld(p, t.value, data, at, tp, r)
  {
    hide PartHeld, Local, Full;
    LocalIsHeld(p, tp, r, data, at);
  }

  /** What a rank has loaded of parameter k for an owned layer is its part of what lies at that layer's place. */
  lemma SectionIsHeld(ts: seq<seq<real>>, ps: seq<Param>, tp: nat, r: nat, owned: seq<bool>, data: seq<real>,
                      base: nat, k: nat, idx: nat)
    requires SectionLoaded(ts, ps, tp, r, owned, data, base, k) && idx < |owned| && owned[idx]
    ensures LocalIndex(owned, idx) < |ts|
    ensures PartHeld(ps[k], ts[LocalIndex(owned, idx)], data, base + Extent(ps, |owned|, k) + idx * Size(ps[k]), tp, r)
  {
    hide PartHeld, Extent, Size, Local, Full, OwnedTensors;
    var start := base + Extent(ps, |owned|, k);
    OwnedTensorAt(ps[k], tp, r, owned, data, start, idx);
    LocalIsHeld(ps[k], tp, r, data, start + idx * Size(ps[k]));
  }

  /** The same when the parameters' sizes and places are listed. */
  lemma PlaceIsHeld(ts: seq<seq<real>>, ps: seq<Param>, sizes: seq<nat>, begins: seq<nat>, tp: nat, r: nat,
                    owned: seq<bool>, data: seq<real>, base: nat, k: nat, idx: nat)
    requires SectionLoaded(ts, ps, tp, r, owned, data, base, k) && idx < |owned| && owned[idx]
    requires |sizes| == |ps| && |begins| == |ps| + 1 && begins[0] == 0
    requires forall i :: 0 <= i < |ps| ==> Size(ps[i]) == sizes[i] && begins[i + 1] == begins[i] + |owned| * sizes[i]
    ensures k < |ps| && LocalIndex(owned, idx) < |ts|
    ensures PartHeld(ps[k], ts[LocalIndex(owned, idx)], data, base + begins[k] + idx * sizes[k], tp, r)
  {
    hide PartHeld, Extent, Size, LocalIndex;
    SectionIsHeld(ts, ps, tp, r, owned, data, base, k, idx);
    BeginsAt(ps, |owned|, sizes, begins, k);
    hide SectionLoaded;
  }

  // ---------------------------------------------------------------- column-parallel linear layers

  lemma SameAt(t: seq<real>, x: int, data: seq<real>, y: int)
    requires Same(t, x, data, y)
    ensures At(t, x) == At(data, y)
  {
  }

  ghost predicate WeightHeld(wr: seq<real>, o: nat, w: seq<real>, n: nat, d: nat, p: nat) {
    Same(wr, o * d + p, w, n * d + p)
  }

  /** Output o of a row, in the rank's output and in the full one: the weights' rows and the biases agree. */
  ghost predicate SameNeuron(wr: seq<real>, br: Option<seq<real>>, o: nat, w: seq<real>, b: Option<seq<real>>, n: nat,
                             d: nat) {
    && (forall p: nat :: p < d ==> WeightHeld(wr, o, w, n, d, p))
    && br.Some? == b.Some? && (br.Some? ==> Same(br.value, o, b.value, n))
  }

  lemma NeuronComputes(x: seq<real>, wr: seq<real>, br: Option<seq<real>>, o: nat, width: nat, w: seq<real>,
                       b: Option<seq<real>>, n: nat, out: nat, rows: nat, d: nat, i: nat)
    requires SameNeuron(wr, br, o, w, b, n, d) && o < width && n < out && i < rows
    ensures Same(Linear(x, wr, true, br, rows, d, width), i * width + o, Linear(x, w, true, b, rows, d, out),
            i * out + n)
  {
    hide Sum, Linear, At;
    LinearFigures(x, wr, br, rows, d, width, i, o);
    LinearFigures(x, w, b, rows, d, out, i, n);
    NeuronSums(x, wr, o, w, n, d, i);
    BiasesAgree(br, o, b, n);
  }

  lemma BiasesAgree(br: Option<seq<real>>, o: nat, b: Option<seq<real>>, n: nat)
    requires br.Some? == b.Some? && (br.Some? ==> Same(br.value, o, b.value, n))
    ensures br.Some? ==> At(br.value, o) == At(b.value, n)
  {
  }

  lemma NeuronSums(x: seq<real>, wr: seq<real>, o: nat, w: seq<real>, n: nat, d: nat, i: nat)
    requires forall p: nat :: p < d ==> WeightHeld(wr, o, w, n, d, p)
    ensures Sum(d, (p: nat) => At(x, i * d + p) * At(wr, o * d + p)) ==
            Sum(d, (p: nat) => At(x, i * d + p) * At(w, n * d + p))
  {
    hide Sum, At;
    var f, g := (p: nat) => At(x, i * d + p) * At(wr, o * d + p), (p: nat) => At(x, i * d + p) * At(w, n * d + p);
    forall p: nat | p < d
      ensures f(p) == g(p)
    {
      assert WeightHeld(wr, o, w, n, d, p);
      SameAt(wr, o * d + p, w, n * d + p);
    }
    SumExt(d, f, g);
  }

  /** The bias of a linear layer with out outputs, if it has one, begins at an offset of the file. */
  ghost predicate BiasAt(b: Option<seq<real>>, data: seq<real>, at: int, out: nat) {
    b.Some? ==> Whole(b.value, data, at, out)
  }

  /** A block of count rows of a weight and of its bias, in a rank's part and in the file. */
  lemma NeuronsHeld(wr: seq<real>, br: Option<seq<real>>, offset: nat, data: seq<real>, at: nat, biasAt: int,
                    w: seq<real>, b: Option<seq<real>>, first: nat, count: nat, o: nat, out: nat, d: nat)
    requires RowsHeld(wr, offset * d, data, at, d, first, count) && Whole(w, data, at, out * d)
    requires BiasAt(b, data, biasAt, out) && br.Some? == b.Some? && first + count <= out && o < count
    requires br.Some? ==> RowsHeld(br.value, offset, data, biasAt, 1, first, count)
    ensures SameNeuron(wr, br, offset + o, w, b, first + o, d)
  {
    var m, n := offset + o, first + o;
    forall p: nat | p < d
      ensures WeightHeld(wr, m, w, n, d, p)
    {
      WeightIsHeld(wr, offset, data, at, w, first, count, o, out, d, p);
    }
    if br.Some? {
      assert RowHeld(br.value, offset, data, biasAt, 1, first, o, 0);
    }
  }

  lemma WeightIsHeld(wr: seq<real>, offset: nat, data: seq<real>, at: nat, w: seq<real>, first: nat, count: nat, o: nat,
                     out: nat, d: nat, p: nat)
    requires RowsHeld(wr, offset * d, data, at, d, first, count) && Whole(w, data, at, out * d)
    requires first + count <= out && o < count && p < d
    ensures WeightHeld(wr, offset + o, w, first + o, d, p)
  {
    assert RowHeld(wr, offset * d, data, at, d, first, o, p);
    hide RowsHeld;
    CheckpointLoader.Distribute(offset, o, d);
    InRange(first + o, out, p, d);
  }

  /** The rank's columns offset, offset + 1, ... are the full output's columns first, first + 1, .... */
  ghost predicate ColumnsPlaced(yr: seq<real>, width: nat, offset: int, y: seq<real>, out: nat, first: int, count: int,
                                rows: nat) {
    forall i: nat, o: nat :: i < rows && o < count ==> ColumnPlaced(yr, width, offset, y, out, first, i, o)
  }

  ghost predicate ColumnPlaced(yr: seq<real>, width: nat, offset: int, y: seq<real>, out: nat, first: int, i: nat,
                               o: nat) {
    Same(yr, i * width + (offset + o), y, i * out + (first + o))
  }

  lemma NeuronsCompute(x: seq<real>, wr: seq<real>, br: Option<seq<real>>, offset: nat, width: nat, data: seq<real>,
                       at: nat, biasAt: int, w: seq<real>, b: Option<seq<real>>, first: nat, count: nat, out: nat,
                       rows: nat, d: nat)
    requires RowsHeld(wr, offset * d, data, at, d, first, count) && Whole(w, data, at, out * d)
    requires BiasAt(b, data, biasAt, out) && br.Some? == b.Some? && first + count <= out && offset + count <= width
    requires br.Some? ==> RowsHeld(br.value, offset, data, biasAt, 1, first, count)
    ensures ColumnsPlaced(Linear(x, wr, true, br, rows, d, width), width, offset, Linear(x, w, true, b, rows, d, out),
            out,
                          first, count, rows)
  {
    hide RowsHeld, SameNeuron, Linear, BiasAt, Whole;
    forall i: nat, o: nat | i < rows && o < count
      ensures ColumnPlaced(Linear(x, wr, true, br, rows, d, width), width, offset, Linear(x, w, true, b, rows, d, out),
                           out, first, i, o)
    {
      NeuronsHeld(wr, br, offset, data, at, biasAt, w, b, first, count, o, out, d);
      NeuronComputes(x, wr, br, offset + o, width, w, b, first + o, out, rows, d, i);
    }
  }

  /**
   * A linear layer on a rank's share of the rows of the weight and of the bias, on the whole input: its
   * output is the rank's share of the columns of the full layer's output.
   */
  lemma ColumnParallelComputes(x: seq<real>, wr: seq<real>, br: Option<seq<real>>, data: seq<real>, at: nat,
                               biasAt: nat,
                               w: seq<real>, b: Option<seq<real>>, rows: nat, d: nat, out: nat, width: nat, tp: nat,
                                 r: nat)
    requires tp > 0 && r < tp && width == out / tp && Whole(w, data, at, out * d)
    requires RowBlock(wr, data, at, out, d, tp, r) && BiasAt(b, data, biasAt, out) && br.Some? == b.Some?
    requires br.Some? ==> RowBlock(br.value, data, biasAt, out, 1, tp, r)
    ensures ColumnBlock(Linear(x, wr, true, br, rows, d, width), Linear(x, w, true, b, rows, d, out), 0, rows, out, tp,
            r)
  {
    hide RowsHeld, ColumnsPlaced, ColumnHeld, BiasAt, Linear;
    BlockFits(out, tp, r, 1);
    NeuronsCompute(x, wr, br, 0, width, data, at, biasAt, w, b, r * width, width, out, rows, d);
    PlacedIsBlock(Linear(x, wr, true, br, rows, d, width), Linear(x, w, true, b, rows, d, out), rows, out, width,
      r * width);
  }

  lemma PlacedIsBlock(yr: seq<real>, y: seq<real>, rows: nat, out: nat, width: nat, first: int)
    requires ColumnsPlaced(yr, width, 0, y, out, first, width, rows)
    ensures forall i: nat, j: nat :: i < rows && j < width ==> ColumnHeld(yr, y, 0, out, first, width, i, j)
  {
    forall i: nat, j: nat | i < rows && j < width
      ensures ColumnHeld(yr, y, 0, out, first, width, i, j)
    {
      assert ColumnPlaced(yr, width, 0, y, out, first, i, j);
    }
  }

  /**
   * Of a packed output of q columns followed by twice kv, rank r's holds its shares of the three,
   * one after the other.
   */
  ghost predicate PackedOutput(yr: seq<real>, y: seq<real>, rows: nat, q: nat, kv: nat, a: nat, b: nat, r: nat) {
    var width, out := a + b + b, q + kv + kv;
    && ColumnsPlaced(yr, width, 0, y, out, r * a, a, rows)
    && ColumnsPlaced(yr, width, a, y, out, q + r * b, b, rows)
    && ColumnsPlaced(yr, width, a + b, y, out, q + kv + r * b, b, rows)
  }

  /** The same of the packed attention weight: the rank's q, k and v are its shares of the full q, k and v. */
  lemma PackedComputes(x: seq<real>, wr: seq<real>, br: Option<seq<real>>, data: seq<real>, at: nat, biasAt: nat,
                       w: seq<real>, bias: Option<seq<real>>, rows: nat, d: nat, q: nat, kv: nat, a: nat, b: nat,
                       tp: nat, r: nat)
    requires tp > 0 && r < tp && a == q / tp && b == kv / tp && Whole(w, data, at, (q + kv + kv) * d)
    requires PackedBlock(wr, data, at, d, q, kv, tp, r) && BiasAt(bias, data, biasAt, q + kv + kv)
    requires br.Some? == bias.Some? && (br.Some? ==> PackedBlock(br.value, data, biasAt, 1, q, kv, tp, r))
    ensures PackedOutput(Linear(x, wr, true, br, rows, d, a + b + b), Linear(x, w, true, bias, rows, d, q + kv + kv),
                         rows, q, kv, a, b, r)
  {
    hide ColumnsPlaced, BiasAt, Linear, RowsHeld, PackedBlock, Whole;
    BlockFits(q, tp, r, 1);
    BlockFits(kv, tp, r, 1);
    PackedRows(wr, data, at, d, q, kv, a, b, tp, r);
    if br.Some? {
      PackedRows(br.value, data, biasAt, 1, q, kv, a, b, tp, r);
    }
    var qStart, kvStart := r * a, r * b;
    PackedNeurons(x, wr, br, data, at, biasAt, w, bias, rows, d, q, kv, a, b, qStart, kvStart, a + b + b, q + kv + kv);
  }

  lemma PackedNeurons(x: seq<real>, wr: seq<real>, br: Option<seq<real>>, data: seq<real>, at: nat, biasAt: nat,
                      w: seq<real>, bias: Option<seq<real>>, rows: nat, d: nat, q: nat, kv: nat, a: nat, b: nat,
                      qStart: nat, kvStart: nat, width: nat, out: nat)
    requires width == a + b + b && out == q + kv + kv && qStart + a <= q && kvStart + b <= kv
    requires Whole(w, data, at, out * d) && BiasAt(bias, data, biasAt, out) && br.Some? == bias.Some?
    requires PackedRowsHeld(wr, data, at, d, q, kv, a, b, qStart, kvStart)
    requires br.Some? ==> PackedRowsHeld(br.value, data, biasAt, 1, q, kv, a, b, qStart, kvStart)
    ensures var yr, y := Linear(x, wr, true, br, rows, d, width), Linear(x, w, true, bias, rows, d, out);
            && ColumnsPlaced(yr, width, 0, y, out, qStart, a, rows)
            && ColumnsPlaced(yr, width, a, y, out, q + kvStart, b, rows)
            && ColumnsPlaced(yr, width, a + b, y, out, q + kv + kvStart, b, rows)
  {
    hide ColumnsPlaced, BiasAt, Linear, RowsHeld, Whole;
    NeuronsCompute(x, wr, br, 0, width, data, at, biasAt, w, bias, qStart, a, out, rows, d);
    NeuronsCompute(x, wr, br, a, width, data, at, biasAt, w, bias, q + kvStart, b, out, rows, d);
    NeuronsCompute(x, wr, br, a + b, width, data, at, biasAt, w, bias, q + kv + kvStart, b, out, rows, d);
  }

  ghost predicate PackedRowsHeld(t: seq<real>, data: seq<real>, at: int, cols: nat, q: nat, kv: nat, a: nat, b: nat,
                                 qStart: nat, kvStart: nat) {
    && RowsHeld(t, 0 * cols, data, at, cols, qStart, a)
    && RowsHeld(t, a * cols, data, at, cols, q + kvStart, b)
    && RowsHeld(t, (a + b) * cols, data, at, cols, q + kv + kvStart, b)
  }

  lemma PackedRows(t: seq<real>, data: seq<real>, at: nat, cols: nat, q: nat, kv: nat, a: nat, b: nat, tp: nat, r: nat)
    requires tp > 0 && a == q / tp && b == kv / tp && PackedBlock(t, data, at, cols, q, kv, tp, r)
    requires 0 <= r * a && 0 <= r * b
    ensures PackedRowsHeld(t, data, at, cols, q, kv, a, b, r * a, r * b)
  {
    hide RowsHeld;
    CheckpointLoader.Distribute(a, b, cols);
    CheckpointLoader.Distribute(q, kv, cols);
    LaterRows(t, a * cols, a, data, at, cols, q, r * b, b, at + q * cols);
    LaterRows(t, (a + b) * cols, a + b, data, at, cols, q + kv, r * b, b, at + (q + kv) * cols);
  }

  /** Rows counted from a later row of the matrix are rows of the matrix. */
  lemma LaterRows(t: seq<real>, offset: nat, block: nat, data: seq<real>, at: nat, cols: nat, skipped: nat, first: nat,
                  count: nat, later: nat)
    requires RowsHeld(t, offset, data, later, cols, first, count) && later == at + skipped * cols
    requires offset == block * cols
    ensures RowsHeld(t, block * cols, data, at, cols, skipped + first, count)
  {
    var rows := skipped + first;
    forall i: nat, j: nat | i < count && j < cols
      ensures RowHeld(t, offset, data, at, cols, rows, i, j)
    {
      assert RowHeld(t, offset, data, later, cols, first, i, j);
      CheckpointLoader.Distribute(skipped, first + i, cols);
    }
  }

  // ---------------------------------------------------------------- row-parallel linear layers

  /** Element q of each rank's output, of its part of the input and its part of the weight. */
  function RankOutputs(xs: seq<seq<real>>, ws: seq<seq<real>>, rows: nat, width: nat, out: nat, q: nat): nat -> real {
    (r: nat) => if r < |xs| && r < |ws| then At(Linear(xs[r], ws[r], true, None, rows, width, out), q) else 0.0
  }

  /** Every rank holds its share of the columns of the input and of the weight. */
  ghost predicate ColumnsShared(x: seq<real>, xs: seq<seq<real>>, data: seq<real>, at: nat, ws: seq<seq<real>>,
                                rows: nat, d: nat, out: nat, tp: nat) {
    && |xs| == tp && |ws| == tp
    && forall r :: 0 <= r < tp ==>
      ColumnBlock(xs[r], x, 0, rows, d, tp, r) && ColumnBlock(ws[r], data, at, out, d, tp, r)
  }

  /**
   * The outputs of the linear layers on the ranks' shares of the columns add up to the output of the
   * full layer; the bias, which no rank shares, comes once.
   */
  lemma RowParallelComputes(x: seq<real>, xs: seq<seq<real>>, data: seq<real>, at: nat, ws: seq<seq<real>>,
                            w: seq<real>,
                            bias: Option<seq<real>>, rows: nat, d: nat, out: nat, width: nat, tp: nat, i: nat, o: nat)
    requires tp > 0 && d % tp == 0 && width == d / tp && |x| == rows * d && Whole(w, data, at, out * d)
    requires ColumnsShared(x, xs, data, at, ws, rows, d, out, tp) && i < rows && o < out
    ensures i * out + o < rows * out
    ensures Linear(x, w, true, bias, rows, d, out)[i * out + o] ==
            Sum(tp, RankOutputs(xs, ws, rows, width, out, i * out + o)) + if bias.Some? then At(bias.value, o) else 0.0
  {
    hide Sum, Linear, At, ColumnBlock, Whole;
    LinearFigures(x, w, bias, rows, d, out, i, o);
    var f := (p: nat) => At(x, i * d + p) * At(w, o * d + p);
    var g := (r: nat, p: nat) => f(r * width + p);
    BlockFits(d, tp, 0, 1);
    assert d == tp * width;
    SumFlat(tp, width, f, g);
    forall r: nat | r < tp
      ensures RankOutputs(xs, ws, rows, width, out, i * out + o)(r) == RowSums(g, width)(r)
    {
      RankComputes(x, xs[r], data, at, ws[r], w, rows, d, out, width, tp, r, i, o);
      SumExt(width, (p: nat) => At(x, i * d + (r * width + p)) * At(w, o * d + (r * width + p)), Row(g, r));
    }
    SumExt(tp, RankOutputs(xs, ws, rows, width, out, i * out + o), RowSums(g, width));
  }

  /** Without a bias. */
  lemma RowParallelSums(x: seq<real>, xs: seq<seq<real>>, data: seq<real>, at: nat, ws: seq<seq<real>>, w: seq<real>,
                        rows: nat, d: nat, out: nat, width: nat, tp: nat, i: nat, o: nat)
    requires tp > 0 && d % tp == 0 && width == d / tp && |x| == rows * d && Whole(w, data, at, out * d)
    requires ColumnsShared(x, xs, data, at, ws, rows, d, out, tp) && i < rows && o < out
    ensures At(Linear(x, w, true, None, rows, d, out), i * out + o) ==
            Sum(tp, RankOutputs(xs, ws, rows, width, out, i * out + o))
  {
    hide Sum, Linear, ColumnsShared, Whole;
    RowParallelComputes(x, xs, data, at, ws, w, None, rows, d, out, width, tp, i, o);
  }

  lemma RankComputes(x: seq<real>, xr: seq<real>, data: seq<real>, at: nat, wr: seq<real>, w: seq<real>, rows: nat,
                     d: nat, out: nat, width: nat, tp: nat, r: nat, i: nat, o: nat)
    requires tp > 0 && r < tp && width == d / tp && Whole(w, data, at, out * d) && i < rows && o < out
    requires ColumnBlock(xr, x, 0, rows, d, tp, r) && ColumnBlock(wr, data, at, out, d, tp, r)
    ensures At(Linear(xr, wr, true, None, rows, width, out), i * out + o) ==
            Sum(width, (p: nat) => At(x, i * d + (r * width + p)) * At(w, o * d + (r * width + p)))
  {
    hide Sum, Linear, At, ColumnBlock, Whole;
    LinearFigureAt(xr, wr, rows, width, out, i, o);
    var f := (p: nat) => At(xr, i * width + p) * At(wr, o * width + p);
    var g := (p: nat) => At(x, i * d + (r * width + p)) * At(w, o * d + (r * width + p));
    forall p: nat | p < width
      ensures f(p) == g(p)
    {
      RankTerm(x, xr, data, at, wr, w, rows, d, out, width, tp, r, i, o, p);
    }
    SumExt(width, f, g);
  }

  lemma LinearFigureAt(x: seq<real>, w: seq<real>, rows: nat, d: nat, out: nat, i: nat, o: nat)
    requires i < rows && o < out
    ensures At(Linear(x, w, true, None, rows, d, out), i * out + o) ==
            Sum(d, (p: nat) => At(x, i * d + p) * At(w, o * d + p))
  {
    LinearFigures(x, w, None, rows, d, out, i, o);
    hide Sum, Linear;
  }

  lemma RankTerm(x: seq<real>, xr: seq<real>, data: seq<real>, at: nat, wr: seq<real>, w: seq<real>, rows: nat, d: nat,
                 out: nat, width: nat, tp: nat, r: nat, i: nat, o: nat, p: nat)
    requires tp > 0 && r < tp && width == d / tp && Whole(w, data, at, out * d) && i < rows && o < out
    requires ColumnBlock(xr, x, 0, rows, d, tp, r) && ColumnBlock(wr, data, at, out, d, tp, r) && p < width
    ensures At(xr, i * width + p) == At(x, i * d + (r * width + p))
    ensures At(wr, o * width + p) == At(w, o * d + (r * width + p))
  {
    hide ColumnBlock, Whole, At;
    BlockFits(d, tp, r, 1);
    ColumnElementHeld(xr, x, 0, rows, d, width, tp, r, i, p);
    ColumnElementHeld(wr, data, at, out, d, width, tp, r, o, p);
    InRange(o, out, r * width + p, d);
    WholeAt(w, data, at, out * d, o * d + (r * width + p));
  }

  lemma WholeAt(w: seq<real>, data: seq<real>, at: nat, len: nat, x: nat)
    requires Whole(w, data, at, len) && x < len
    ensures At(w, x) == At(data, at + x)
  {
  }

  lemma ColumnElementHeld(t: seq<real>, data: seq<real>, at: nat, rows: nat, cols: nat, width: nat, tp: nat, r: nat,
                          i: nat, j: nat)
    requires ColumnBlock(t, data, at, rows, cols, tp, r) && width == cols / tp && i < rows && j < width
    ensures At(t, i * width + j) == At(data, at + i * cols + (r * width + j))
    ensures 0 <= at + i * cols + (r * width + j) < |data|
  {
    assert ColumnHeld(t, data, at, cols, r * width, width, i, j);
  }

  // ---------------------------------------------------------------- elementwise operations in between

  function Activated(f: real -> real, a: seq<real>): (s: seq<real>)
    ensures |s| == |a|
  {
    seq(|a|, q requires 0 <= q < |a| => f(a[q]))
  }

  function Multiplied(a: seq<real>, b: seq<real>): (s: seq<real>)
    requires |a| == |b|
    ensures |s| == |a|
  {
    seq(|a|, q requires 0 <= q < |a| => a[q] * b[q])
  }

  /** An elementwise function of a rank's columns gives the rank's columns of the function's result. */
  lemma ActivatedColumns(f: real -> real, part: seq<real>, full: seq<real>, rows: nat, cols: nat, tp: nat, r: nat)
    requires ColumnBlock(part, full, 0, rows, cols, tp, r)
    ensures ColumnBlock(Activated(f, part), Activated(f, full), 0, rows, cols, tp, r)
  {
    var c := cols / tp;
    var first := r * c;
    forall i: nat, j: nat | i < rows && j < c
      ensures ColumnHeld(Activated(f, part), Activated(f, full), 0, cols, first, c, i, j)
    {
      assert ColumnHeld(part, full, 0, cols, first, c, i, j);
    }
  }

  lemma MultipliedColumns(part: seq<real>, part': seq<real>, full: seq<real>, full': seq<real>, rows: nat, cols: nat,
                          tp: nat, r: nat)
    requires ColumnBlock(part, full, 0, rows, cols, tp, r) && ColumnBlock(part', full', 0, rows, cols, tp, r)
    requires |full| == |full'|
    ensures |part| == |part'| && ColumnBlock(Multiplied(part, part'), Multiplied(full, full'), 0, rows, cols, tp, r)
  {
    var c := cols / tp;
    var first := r * c;
    forall i: nat, j: nat | i < rows && j < c
      ensures ColumnHeld(Multiplied(part, part'), Multiplied(full, full'), 0, cols, first, c, i, j)
    {
      assert ColumnHeld(part, full, 0, cols, first, c, i, j);
      assert ColumnHeld(part', full', 0, cols, first, c, i, j);
    }
  }
}
