/**
 * The tensor-parallel readers of the model files: shard readers over a stream cursor, and the loaders
 * that read or skip one parameter after another. Offsets are counted in floats, from the end of the
 * header; the file is long enough.
 */
module CheckpointLoader {
  import opened Wrappers
  import opened RealSums
  import opened Shards

  class Stream {
    const data: seq<real>
    var pos: nat

    constructor (data: seq<real>)
      ensures this.data == data && pos == 0
    {
      this.data, pos := data, 0;
    }

    method Seek(p: nat)
      modifies this
      ensures pos == p
    {
      pos := p;
    }

    /** read into dst + at */
    method Read(dst: array<real>, at: nat, n: nat)
      requires pos + n <= |data| && at + n <= dst.Length
      modifies this, dst
      ensures pos == old(pos) + n
      ensures dst[..at + n] == old(dst[..at]) + data[old(pos)..old(pos) + n]
    {
      var i := 0;
      while i < n
        invariant 0 <= i <= n && pos == old(pos)
        invariant dst[..at + i] == old(dst[..at]) + data[old(pos)..old(pos) + i]
      {
        dst[at + i] := data[pos + i];
        i := i + 1;
      }
      pos := pos + n;
    }

    method ReadVectorAllFloat(dst: array<real>, len: nat)
      requires pos + len <= |data| && len <= dst.Length
      modifies this, dst
      ensures pos == old(pos) + len && dst[..len] == data[old(pos)..old(pos) + len]
    {
      Read(dst, 0, len);
    }

    /** Rows rowStart, ..., rowStart + rowCnt - 1; the cursor ends behind the whole matrix. */
    method ReadMatrixRowShardFloat(dst: array<real>, at: nat, rows: nat, cols: nat, rowStart: nat, rowCnt: nat)
      requires pos + rows * cols <= |data| && rowStart + rowCnt <= rows && at + rowCnt * cols <= dst.Length
      modifies this, dst
      ensures pos == old(pos) + rows * cols
      ensures 0 <= rowStart * cols && rowStart * cols + rowCnt * cols <= rows * cols
      ensures dst[..at + rowCnt * cols] ==
              old(dst[..at]) + data[old(pos) + rowStart * cols..old(pos) + rowStart * cols + rowCnt * cols]
    {
      var base := pos;
      RowsInside(rows, cols, rowStart, rowCnt);
      Seek(base + rowStart * cols);
      Read(dst, at, rowCnt * cols);
      Seek(base + rows * cols);
    }

    /** Columns colStart, ..., colStart + colCnt - 1, row by row; the cursor ends behind the whole matrix. */
    method ReadMatrixColShardFloat(dst: array<real>, rows: nat, cols: nat, colStart: nat, colCnt: nat)
      requires pos + rows * cols <= |data| && colStart + colCnt <= cols && dst.Length == rows * colCnt
      modifies this, dst
      ensures pos == old(pos) + rows * cols
      ensures dst[..] == Columns(data[old(pos)..old(pos) + rows * cols], rows, cols, colStart, colCnt)
    {
      hide ColumnAt;
      var base := pos;
      ghost var m := data[base..base + rows * cols];
      for r := 0 to rows
        invariant forall q: nat :: q < r * colCnt && q < dst.Length ==>
                  dst[q] == ColumnAt(m, rows, cols, colStart, colCnt, q)
      {
        ReadOneRow(dst, base, rows, cols, colStart, colCnt, r);
      }
      assert dst[..] == Columns(m, rows, cols, colStart, colCnt);
      Seek(base + rows * cols);
    }

    method ReadOneRow(dst: array<real>, base: nat, rows: nat, cols: nat, colStart: nat, colCnt: nat, r: nat)
      requires base + rows * cols <= |data| && colStart + colCnt <= cols && dst.Length == rows * colCnt && r < rows
      requires forall q: nat :: q < r * colCnt && q < dst.Length ==>
                 dst[q] == ColumnAt(data[base..base + rows * cols], rows, cols, colStart, colCnt, q)
      modifies this, dst
      ensures forall q: nat :: q < (r + 1) * colCnt && q < dst.Length ==>
                dst[q] == ColumnAt(data[base..base + rows * cols], rows, cols, colStart, colCnt, q)
    {
      hide ColumnAt;
      RowsInside(rows, cols, r, 1);
      RowsInside(rows, colCnt, r, 1);
      var at, from := r * colCnt, r * cols + colStart;
      ghost var m, before := data[base..base + rows * cols], dst[..at];
      Seek(base + from);
      Read(dst, at, colCnt);
      forall q: nat | q < at + colCnt && q < dst.Length
        ensures dst[q] == ColumnAt(m, rows, cols, colStart, colCnt, q)
      {
        assert dst[q] == dst[..at + colCnt][q];
        if q < at {
          assert dst[q] == before[q];
        } else {
          RowElement(m, rows, cols, colStart, colCnt, r, q);
        }
      }
    }

    /** A part of a vector; the cursor ends behind the whole vector. */
    method ReadVectorShardFloat(dst: array<real>, at: nat, len: nat, start: nat, cnt: nat)
      requires pos + len <= |data| && start + cnt <= len && at + cnt <= dst.Length
      modifies this, dst
      ensures pos == old(pos) + len
      ensures dst[..at + cnt] == old(dst[..at]) + data[old(pos) + start..old(pos) + start + cnt]
    {
      var base := pos;
      Seek(base + start);
      Read(dst, at, cnt);
      Seek(base + len);
    }
  }

  lemma RowsInside(rows: nat, cols: nat, start: nat, cnt: nat)
    requires start + cnt <= rows
    ensures 0 <= start * cols <= start * cols + cnt * cols <= rows * cols
    ensures (start + cnt) * cols == start * cols + cnt * cols
  {
    AtMost(start + cnt, rows, cols);
  }

  lemma RowElement(m: seq<real>, rows: nat, cols: nat, start: nat, cnt: nat, r: nat, q: nat)
    requires |m| == rows * cols && start + cnt <= cols && r < rows && r * cnt <= q < r * cnt + cnt
    ensures q < rows * cnt && 0 <= r * cols + start + (q - r * cnt) < |m|
    ensures ColumnAt(m, rows, cols, start, cnt, q) == m[r * cols + start + (q - r * cnt)]
  {
    InRange(r, rows, q - r * cnt, cnt);
    InRange(r, rows, start + (q - r * cnt), cols);
    Decode(r, cnt, q - r * cnt);
  }

  // ---------------------------------------------------------------- one parameter

  /** The full tensor of a parameter at an offset of the file. */
  function Full(p: Param, data: seq<real>, pos: nat): (m: seq<real>)
    requires pos + Size(p) <= |data|
    ensures |m| == Size(p)
  {
    data[pos..pos + Size(p)]
  }

  /** A block of rows, by the matrix or, for a single column, by the vector reader. */
  method ReadRows(ifs: Stream, dst: array<real>, at: nat, rows: nat, cols: nat, start: nat, cnt: nat)
    requires ifs.pos + rows * cols <= |ifs.data| && start + cnt <= rows && at + cnt * cols <= dst.Length
    modifies ifs, dst
    ensures ifs.pos == old(ifs.pos) + rows * cols
    ensures 0 <= start * cols && start * cols + cnt * cols <= rows * cols
    ensures dst[..at + cnt * cols] ==
            old(dst[..at]) + ifs.data[old(ifs.pos) + start * cols..old(ifs.pos) + start * cols + cnt * cols]
  {
    if cols == 1 {
      ifs.ReadVectorShardFloat(dst, at, rows, start, cnt);
    } else {
      ifs.ReadMatrixRowShardFloat(dst, at, rows, cols, start, cnt);
    }
  }

  method LoadRows(ifs: Stream, rows: nat, cols: nat, start: nat, cnt: nat) returns (dst: array<real>)
    requires ifs.pos + rows * cols <= |ifs.data| && start + cnt <= rows
    modifies ifs
    ensures ifs.pos == old(ifs.pos) + rows * cols
    ensures 0 <= start * cols && start * cols + cnt * cols <= rows * cols
    ensures fresh(dst) && dst[..] == ifs.data[old(ifs.pos) + start * cols..old(ifs.pos) + start * cols + cnt * cols]
  {
    Distribute(cnt, start, cols);
    var len := cnt * cols;
    dst := new real[len];
    ReadRows(ifs, dst, 0, rows, cols, start, cnt);
    assert dst[..0 + len] == dst[..];
  }

  /** One of the packed blocks [q_i | k_i | v_i]: back to the beginning, then to the block. */
  method ReadBlock(ifs: Stream, dst: array<real>, at: nat, base: nat, rows: nat, cols: nat, start: nat, cnt: nat,
                   ghost total: nat, ghost o: nat, ghost len: nat)
    requires total == rows * cols && o == start * cols && len == cnt * cols
    requires base + total <= |ifs.data| && start + cnt <= rows && at + len <= dst.Length
    modifies ifs, dst
    ensures ifs.pos == base + total && o + len <= total
    ensures dst[..at + len] == old(dst[..at]) + ifs.data[base + o..base + o + len]
  {
    ifs.Seek(base);
    ReadRows(ifs, dst, at, rows, cols, start, cnt);
  }

  /** The starts of rank r's three blocks, in rows and in elements. */
  ghost predicate QkvPlan(cols: nat, q: nat, kv: nat, tp: nat, r: nat, a: nat, b: nat, qStart: nat, kStart: nat,
                          vStart: nat,
                          aLen: nat, bLen: nat, qo: nat, ko: nat, vo: nat)
    requires tp > 0
  {
    && a == Per(q, tp) && b == Per(kv, tp) && qStart == r * a && kStart == q + r * b && vStart == q + kv + r * b
    && aLen == a * cols && bLen == b * cols && qo == qStart * cols && ko == kStart * cols && vo == vStart * cols
  }

  lemma QkvInside(cols: nat, q: nat, kv: nat, tp: nat, r: nat, a: nat, b: nat, qStart: nat, kStart: nat, vStart: nat,
                  aLen: nat, bLen: nat, qo: nat, ko: nat, vo: nat)
    requires tp > 0 && r < tp && QkvPlan(cols, q, kv, tp, r, a, b, qStart, kStart, vStart, aLen, bLen, qo, ko, vo)
    ensures qStart + a <= q && kStart + b <= q + kv && vStart + b <= q + kv + kv
    ensures (q + kv + kv) * cols == Size(QkvSplit(cols, q, kv))
    ensures qo == r * aLen && ko == q * cols + r * bLen && vo == q * cols + kv * cols + r * bLen
  {
    RankInside(q, tp, r);
    RankInside(kv, tp, r);
    hide Per;
    Associate(r, a, cols);
    Associate(r, b, cols);
    Distribute(q, r * b, cols);
    Distribute(q, kv, cols);
    Distribute(q + kv, r * b, cols);
    Distribute(q + kv, kv, cols);
  }

  lemma Distribute(x: nat, y: nat, cols: nat)
    ensures (x + y) * cols == x * cols + y * cols && x * cols >= 0 && y * cols >= 0
  {
  }

  method LoadQkv(ifs: Stream, cols: nat, q: nat, kv: nat, tp: nat, r: nat) returns (t: seq<real>)
    requires tp > 0 && r < tp && ifs.pos + Size(QkvSplit(cols, q, kv)) <= |ifs.data|
    modifies ifs
    ensures ifs.pos == old(ifs.pos) + Size(QkvSplit(cols, q, kv))
    ensures t == Local(QkvSplit(cols, q, kv), tp, r, Full(QkvSplit(cols, q, kv), ifs.data, old(ifs.pos)))
  {
    hide Local, Full, Size;
    var a, b := Per(q, tp), Per(kv, tp);
    RankInside(q, tp, r);
    RankInside(kv, tp, r);
    hide Per;
    var qStart, kStart, vStart := r * a, q + r * b, q + kv + r * b;
    Distribute(a, b, cols);
    Distribute(qStart, kStart, cols);
    Distribute(kStart, vStart, cols);
    t := LoadPlanned(ifs, cols, q, kv, tp, r, a, b, qStart, kStart, vStart,
                     a * cols, b * cols, qStart * cols, kStart * cols, vStart * cols);
  }

  method LoadPlanned(ifs: Stream, cols: nat, q: nat, kv: nat, ghost tp: nat, ghost r: nat,
                     a: nat, b: nat, qStart: nat, kStart: nat, vStart: nat,
                     ghost aLen: nat, ghost bLen: nat, ghost qo: nat, ghost ko: nat, ghost vo: nat)
    returns (t: seq<real>)
    requires tp > 0 && r < tp && ifs.pos + Size(QkvSplit(cols, q, kv)) <= |ifs.data|
    requires QkvPlan(cols, q, kv, tp, r, a, b, qStart, kStart, vStart, aLen, bLen, qo, ko, vo)
    modifies ifs
    ensures ifs.pos == old(ifs.pos) + Size(QkvSplit(cols, q, kv))
    ensures t == Local(QkvSplit(cols, q, kv), tp, r, Full(QkvSplit(cols, q, kv), ifs.data, old(ifs.pos)))
  {
    hide Per, Local, Full, Size;
    QkvInside(cols, q, kv, tp, r, a, b, qStart, kStart, vStart, aLen, bLen, qo, ko, vo);
    LocalQkv(cols, q, kv, tp, r, ifs.data, ifs.pos, aLen, bLen, q * cols, q * cols + kv * cols, qo, ko, vo);
    t := ReadBlocks(ifs, ifs.pos, q + kv + kv, cols, qStart, a, kStart, vStart, b, aLen, bLen, qo, ko, vo);
  }

  /** Three blocks of rows, one after the other in the destination. */
  method ReadBlocks(ifs: Stream, base: nat, rows: nat, cols: nat, qStart: nat, a: nat, kStart: nat, vStart: nat, b: nat,
                    ghost aLen: nat, ghost bLen: nat, ghost qo: nat, ghost ko: nat, ghost vo: nat)
    returns (t: seq<real>)
    requires aLen == a * cols && bLen == b * cols && qo == qStart * cols && ko == kStart * cols && vo == vStart * cols
    requires base + rows * cols <= |ifs.data| && qStart + a <= rows && kStart + b <= rows && vStart + b <= rows
    modifies ifs
    ensures ifs.pos == base + rows * cols
    ensures qo + aLen <= rows * cols && ko + bLen <= rows * cols && vo + bLen <= rows * cols
    ensures t ==
            ifs.data[base + qo..base + qo + aLen] + ifs.data[base + ko..base + ko + bLen] +
              ifs.data[base + vo..base + vo + bLen]
  {
    Lengths(a, b, cols);
    var length := (a + b + b) * cols;
    var second, third := a * cols, a * cols + b * cols;
    ghost var total := rows * cols;
    var dst := new real[length];
    ReadBlock(ifs, dst, 0, base, rows, cols, qStart, a, total, qo, aLen);
    assert dst[..0] == [];
    ReadBlock(ifs, dst, second, base, rows, cols, kStart, b, total, ko, bLen);
    ReadBlock(ifs, dst, third, base, rows, cols, vStart, b, total, vo, bLen);
    t := dst[..];
    assert t == dst[..third + bLen];
  }

  lemma Lengths(a: nat, b: nat, cols: nat)
    ensures (a + b + b) * cols == a * cols + b * cols + b * cols && a * cols >= 0 && b * cols >= 0
  {
  }

  lemma SliceOfSlice(data: seq<real>, base: nat, n: nat, x: nat, y: nat)
    requires base + n <= |data| && x <= y <= n
    ensures data[base..base + n][x..y] == data[base + x..base + y]
  {
    var left, right := data[base..base + n][x..y], data[base + x..base + y];
    assert forall i :: 0 <= i < |left| ==> left[i] == right[i];
  }

  lemma LocalQkv(cols: nat, q: nat, kv: nat, tp: nat, r: nat, data: seq<real>, base: nat, a: nat, b: nat, k: nat,
                 v: nat,
                 qo: nat, ko: nat, vo: nat)
    requires tp > 0 && r < tp && base + Size(QkvSplit(cols, q, kv)) <= |data|
    requires a == Per(q, tp) * cols && b == Per(kv, tp) * cols && k == q * cols && v == q * cols + kv * cols
    requires qo == r * a && ko == k + r * b && vo == v + r * b
    ensures qo + a <= |data| - base && ko + b <= |data| - base && vo + b <= |data| - base
    ensures Local(QkvSplit(cols, q, kv), tp, r, Full(QkvSplit(cols, q, kv), data, base)) ==
            data[base + qo..base + qo + a] + data[base + ko..base + ko + b] + data[base + vo..base + vo + b]
  {
    BlockFits(q, tp, r, cols);
    BlockFits(kv, tp, r, cols);
    hide Per;
    var n := Size(QkvSplit(cols, q, kv));
    SliceOfSlice(data, base, n, qo, qo + a);
    SliceOfSlice(data, base, n, ko, ko + b);
    SliceOfSlice(data, base, n, vo, vo + b);
  }

  /** Read this rank's part of a parameter; the cursor ends behind the whole parameter. */
  method LoadParam(ifs: Stream, p: Param, tp: nat, r: nat) returns (t: seq<real>)
    requires tp > 0 && r < tp && ifs.pos + Size(p) <= |ifs.data|
    modifies ifs
    ensures ifs.pos == old(ifs.pos) + Size(p)
    ensures t == Local(p, tp, r, Full(p, ifs.data, old(ifs.pos)))
  {
    match p
    case Replicated(len) =>
      var dst := new real[len];
      ifs.ReadVectorAllFloat(dst, len);
      t := dst[..];
      assert t == dst[..len];
    case RowSplit(rows, cols) =>
      t := LoadRowSplit(ifs, rows, cols, tp, r);
    case ColSplit(rows, cols) =>
      var c := Per(cols, tp);
      BlockFits(cols, tp, r, 1);
      var dst := new real[rows * c];
      ifs.ReadMatrixColShardFloat(dst, rows, cols, r * c, c);
      t := dst[..];
    case QkvSplit(cols, q, kv) =>
      t := LoadQkv(ifs, cols, q, kv, tp, r);
  }

  method LoadRowSplit(ifs: Stream, rows: nat, cols: nat, tp: nat, r: nat) returns (t: seq<real>)
    requires tp > 0 && r < tp && ifs.pos + rows * cols <= |ifs.data|
    modifies ifs
    ensures ifs.pos == old(ifs.pos) + rows * cols
    ensures t == Local(RowSplit(rows, cols), tp, r, Full(RowSplit(rows, cols), ifs.data, old(ifs.pos)))
  {
    var c := Per(rows, tp);
    BlockFits(rows, tp, r, 1);
    var base := ifs.pos;
    var dst := LoadRows(ifs, rows, cols, r * c, c);
    t := dst[..];
    LocalRows(rows, cols, tp, r, ifs.data, base);
  }

  lemma LocalRows(rows: nat, cols: nat, tp: nat, r: nat, data: seq<real>, base: nat)
    requires tp > 0 && r < tp && base + rows * cols <= |data|
    ensures var c := Per(rows, tp);
            && 0 <= (r * c) * cols <= (r * c) * cols + c * cols <= rows * cols
            && Local(RowSplit(rows, cols), tp, r, Full(RowSplit(rows, cols), data, base)) ==
               data[base + (r * c) * cols..base + (r * c) * cols + c * cols]
  {
    var c := Per(rows, tp);
    BlockFits(rows, tp, r, cols);
    hide Per;
    Associate(r, c, cols);
    SliceOfSlice(data, base, rows * cols, r * (c * cols), r * (c * cols) + c * cols);
  }

  lemma Associate(r: nat, c: nat, cols: nat)
    ensures (r * c) * cols == r * (c * cols)
  {
  }

  // ---------------------------------------------------------------- one parameter of all layers

  /** The tensors of the owned layers, in order. */
  function OwnedTensors(p: Param, tp: nat, r: nat, owned: seq<bool>, data: seq<real>, base: nat): seq<seq<real>>
    requires tp > 0 && r < tp && base + |owned| * Size(p) <= |data|
  {
    if owned == [] then []
    else
      var n := |owned| - 1;
      LayerEnds(n, Size(p));
      OwnedTensors(p, tp, r, owned[..n], data, base)
      + if owned[n] then [Local(p, tp, r, Full(p, data, base + n * Size(p)))] else []
  }

  lemma LayerEnds(n: nat, size: nat)
    ensures 0 <= n * size && n * size + size == (n + 1) * size
  {
  }

  /** local_layer_index of a layer. */
  function LocalIndex(owned: seq<bool>, idx: nat): nat
    requires idx <= |owned|
  {
    if idx == 0 then 0 else LocalIndex(owned, idx - 1) + if owned[idx - 1] then 1 else 0
  }

  /** Every owned layer's tensor lies at its local index and is cut out of that layer's full tensor. */
  lemma {:induction false} OwnedTensorAt(p: Param, tp: nat, r: nat, owned: seq<bool>, data: seq<real>, base: nat,
                                         idx: nat)
    requires tp > 0 && r < tp && base + |owned| * Size(p) <= |data| && idx < |owned|
    ensures |OwnedTensors(p, tp, r, owned, data, base)| == LocalIndex(owned, |owned|)
    ensures LocalIndex(owned, idx) <= LocalIndex(owned, |owned|) && 0 <= idx * Size(p) &&
            base + idx * Size(p) + Size(p) <= |data|
    ensures owned[idx] ==> LocalIndex(owned, idx) < LocalIndex(owned, |owned|) &&
                           OwnedTensors(p, tp, r, owned, data, base)[LocalIndex(owned, idx)] ==
                             Local(p, tp, r, Full(p, data, base + idx * Size(p)))
  {
    hide Local, Full;
    var n := |owned| - 1;
    LayerEnds(n, Size(p));
    SameLocalIndex(owned[..n], owned, n);
    if idx < n {
      OwnedTensorAt(p, tp, r, owned[..n], data, base, idx);
      SameLocalIndex(owned[..n], owned, idx);
    } else if n > 0 {
      OwnedTensorAt(p, tp, r, owned[..n], data, base, 0);
    }
  }

  lemma {:induction false} SameLocalIndex(a: seq<bool>, b: seq<bool>, i: nat)
    requires a <= b && i <= |a|
    ensures LocalIndex(a, i) == LocalIndex(b, i)
  {
    if i > 0 {
      SameLocalIndex(a, b, i - 1);
    }
  }

  /** The loop over the layers: read the owned ones, skip the others; the cursor moves the same way. */
  method LoadSection(ifs: Stream, p: Param, tp: nat, r: nat, owned: seq<bool>) returns (ts: seq<seq<real>>)
    requires tp > 0 && r < tp && ifs.pos + |owned| * Size(p) <= |ifs.data|
    modifies ifs
    ensures ifs.pos == old(ifs.pos) + |owned| * Size(p)
    ensures ts == OwnedTensors(p, tp, r, owned, ifs.data, old(ifs.pos))
  {
    hide Local, Full, Size;
    ghost var base := ifs.pos;
    ts := [];
    var localLayerIndex := 0;
    for idx := 0 to |owned|
      invariant 0 <= idx * Size(p) <= |owned| * Size(p) && ifs.pos == base + idx * Size(p)
      invariant localLayerIndex == |ts| && ts == OwnedTensors(p, tp, r, owned[..idx], ifs.data, base)
    {
      LayerEnds(idx, Size(p));
      AtMost(idx + 1, |owned|, Size(p));
      OwnedGrows(p, tp, r, owned, ifs.data, base, idx);
      if owned[idx] {
        var t := LoadParam(ifs, p, tp, r);
        ts := ts + [t];
        localLayerIndex := localLayerIndex + 1;
      } else {
        ifs.Seek(ifs.pos + Size(p));
      }
    }
    assert owned[..|owned|] == owned;
  }

  lemma OwnedGrows(p: Param, tp: nat, r: nat, owned: seq<bool>, data: seq<real>, base: nat, idx: nat)
    requires tp > 0 && r < tp && idx < |owned| && base + |owned| * Size(p) <= |data|
    ensures 0 <= idx * Size(p) && idx * Size(p) + Size(p) == (idx + 1) * Size(p) <= |owned| * Size(p)
    ensures OwnedTensors(p, tp, r, owned[..idx + 1], data, base) ==
            OwnedTensors(p, tp, r, owned[..idx], data, base)
            + if owned[idx] then [Local(p, tp, r, Full(p, data, base + idx * Size(p)))] else []
  {
    hide Local, Full, Size;
    LayerEnds(idx, Size(p));
    AtMost(idx + 1, |owned|, Size(p));
    assert owned[..idx + 1][..idx] == owned[..idx];
  }

  // ---------------------------------------------------------------- all parameters of the layers

  /** How much of the file the first k parameters of all layers take up. */
  function Extent(ps: seq<Param>, layers: nat, k: nat): (n: nat)
    requires k <= |ps|
  {
    if k == 0 then 0
    else
      LayerEnds(layers, Size(ps[k - 1]));
      Extent(ps, layers, k - 1) + layers * Size(ps[k - 1])
  }

  /** Where parameter k begins, when the parameters' sizes and places are listed. */
  lemma {:induction false} BeginsAt(ps: seq<Param>, layers: nat, sizes: seq<nat>, begins: seq<nat>, k: nat)
    requires |sizes| == |ps| && |begins| == |ps| + 1 && begins[0] == 0 && k <= |ps|
    requires forall i :: 0 <= i < |ps| ==> Size(ps[i]) == sizes[i] && begins[i + 1] == begins[i] + layers * sizes[i]
    ensures Extent(ps, layers, k) == begins[k]
  {
    hide Size;
    if k > 0 {
      BeginsAt(ps, layers, sizes, begins, k - 1);
    }
  }

  lemma {:induction false} ExtentGrows(ps: seq<Param>, layers: nat, j: nat, k: nat)
    requires j < k <= |ps|
    ensures Extent(ps, layers, j) + layers * Size(ps[j]) <= Extent(ps, layers, k)
  {
    hide Size;
    LayerEnds(layers, Size(ps[k - 1]));
    if j < k - 1 {
      ExtentGrows(ps, layers, j, k - 1);
    }
  }

  /** One loop over the layers for each parameter in turn. */
  method LoadSections(ifs: Stream, ps: seq<Param>, tp: nat, r: nat, owned: seq<bool>) returns (ss: seq<seq<seq<real>>>)
    requires tp > 0 && r < tp && ifs.pos + Extent(ps, |owned|, |ps|) <= |ifs.data|
    modifies ifs
    ensures ifs.pos == old(ifs.pos) + Extent(ps, |owned|, |ps|)
    ensures |ss| == |ps| && forall k :: 0 <= k < |ps| ==>
            SectionLoaded(ss[k], ps, tp, r, owned, ifs.data, old(ifs.pos), k)
  {
    hide OwnedTensors, Size;
    ghost var base := ifs.pos;
    ss := [];
    for k := 0 to |ps|
      invariant ifs.pos == base + Extent(ps, |owned|, k) && |ss| == k
      invariant forall j :: 0 <= j < k ==> SectionLoaded(ss[j], ps, tp, r, owned, ifs.data, base, j)
    {
      ExtentGrows(ps, |owned|, k, |ps|);
      var ts := LoadSection(ifs, ps[k], tp, r, owned);
      ss := ss + [ts];
    }
  }

  /** Section k holds the owned layers' parts of parameter k, cut from where that parameter lies in the file. */
  ghost predicate SectionLoaded(ts: seq<seq<real>>, ps: seq<Param>, tp: nat, r: nat, owned: seq<bool>,
                                data: seq<real>, base: nat, k: nat) {
    && k < |ps| && tp > 0 && r < tp && base + Extent(ps, |owned|, k) + |owned| * Size(ps[k]) <= |data|
    && ts == OwnedTensors(ps[k], tp, r, owned, data, base + Extent(ps, |owned|, k))
  }

  // ---------------------------------------------------------------- special modules

  /** Which special modules a pipeline stage owns, and which layers. */
  datatype Ownership = Ownership(embedding: bool, finalNorm: bool, lmHead: bool, layers: seq<bool>)

  /** The rank's part of the parameter at an offset of the file, on a stage that owns it. */
  ghost predicate Held(t: Option<seq<real>>, owns: bool, p: Param, tp: nat, r: nat, data: seq<real>, at: nat) {
    && tp > 0 && r < tp && at + Size(p) <= |data|
    && t == if owns then Some(Local(p, tp, r, Full(p, data, at))) else None
  }

  /** Read or skip a special module. */
  method LoadIf(ifs: Stream, owns: bool, p: Param, tp: nat, r: nat) returns (t: Option<seq<real>>)
    requires tp > 0 && r < tp && ifs.pos + Size(p) <= |ifs.data|
    modifies ifs
    ensures ifs.pos == old(ifs.pos) + Size(p)
    ensures Held(t, owns, p, tp, r, ifs.data, old(ifs.pos))
  {
    t := None;
    if owns {
      var s := LoadParam(ifs, p, tp, r);
      t := Some(s);
    } else {
      ifs.Seek(ifs.pos + Size(p));
    }
  }

  // ---------------------------------------------------------------- all ranks together

  /** The tensors that the ranks of one stage hold of one owned layer are the parts of that layer's full tensor. */
  lemma RanksHoldTheParts(ps: seq<Param>, tp: nat, owned: seq<bool>, data: seq<real>, base: nat, k: nat, idx: nat,
                          held: seq<seq<seq<real>>>)
    requires tp > 0 && |held| == tp && k < |ps| && idx < |owned| && owned[idx]
    requires forall r :: 0 <= r < tp ==> SectionLoaded(held[r], ps, tp, r, owned, data, base, k)
    ensures var j, at := LocalIndex(owned, idx), base + Extent(ps, |owned|, k) + idx * Size(ps[k]);
            && 0 <= idx * Size(ps[k]) && at + Size(ps[k]) <= |data|
            && (forall r :: 0 <= r < tp ==> j < |held[r]|)
            && Parts(ps[k], tp, Full(ps[k], data, at)) == AtRanks(held, j)
  {
    hide Local, Full, OwnedTensors, Extent;
    var p, start := ps[k], base + Extent(ps, |owned|, k);
    assert SectionLoaded(held[0], ps, tp, 0, owned, data, base, k);
    OwnedTensorAt(p, tp, 0, owned, data, start, idx);
    forall r | 0 <= r < tp
      ensures LocalIndex(owned, idx) < |held[r]|
      ensures held[r][LocalIndex(owned, idx)] == Local(p, tp, r, Full(p, data, start + idx * Size(p)))
    {
      assert SectionLoaded(held[r], ps, tp, r, owned, data, base, k);
      OwnedTensorAt(p, tp, r, owned, data, start, idx);
    }
  }

  /** Tensor j of every rank. */
  function AtRanks<T>(held: seq<seq<T>>, j: nat): (s: seq<T>)
    requires forall r :: 0 <= r < |held| ==> j < |held[r]|
    ensures |s| == |held|
  {
    seq(|held|, r requires 0 <= r < |held| => held[r][j])
  }

  /** The ranks' tensors of layer idx put together that layer's full tensor of parameter k. */
  ghost predicate LayerReassembles(ps: seq<Param>, tp: nat, owned: seq<bool>, data: seq<real>, base: nat, k: nat,
                                   idx: nat,
                                   held: seq<seq<seq<real>>>) {
    && tp > 0 && k < |ps| && idx < |owned| && 0 <= idx * Size(ps[k])
    && base + Extent(ps, |owned|, k) + idx * Size(ps[k]) + Size(ps[k]) <= |data|
    && (forall r :: 0 <= r < |held| ==> LocalIndex(owned, idx) < |held[r]|)
    && Reassembles(ps[k], tp, AtRanks(held, LocalIndex(owned, idx)),
                   Full(ps[k], data, base + Extent(ps, |owned|, k) + idx * Size(ps[k])))
  }

  lemma SectionReassembles(ps: seq<Param>, tp: nat, owned: seq<bool>, data: seq<real>, base: nat, k: nat, idx: nat,
                           held: seq<seq<seq<real>>>)
    requires tp > 0 && |held| == tp && k < |ps| && idx < |owned| && owned[idx] && Divides(ps[k], tp)
    requires forall r :: 0 <= r < tp ==> SectionLoaded(held[r], ps, tp, r, owned, data, base, k)
    ensures LayerReassembles(ps, tp, owned, data, base, k, idx, held)
  {
    RanksHoldTheParts(ps, tp, owned, data, base, k, idx, held);
    hide SectionLoaded, Extent, Size, Parts, LocalIndex, Divides;
    PartsReassemble(ps[k], tp, Full(ps[k], data, base + Extent(ps, |owned|, k) + idx * Size(ps[k])));
  }

  function Values<T>(ts: seq<Option<T>>): (s: seq<T>)
    requires forall r :: 0 <= r < |ts| ==> ts[r].Some?
    ensures |s| == |ts|
  {
    seq(|ts|, r requires 0 <= r < |ts| => ts[r].value)
  }

  /** Every rank holds a tensor of a special module, and they put together the full tensor. */
  ghost predicate ModuleReassembles(p: Param, tp: nat, ts: seq<Option<seq<real>>>, data: seq<real>, at: nat) {
    && tp > 0 && at + Size(p) <= |data|
    && (forall r :: 0 <= r < |ts| ==> ts[r].Some?)
    && Reassembles(p, tp, Values(ts), Full(p, data, at))
  }

  lemma HeldReassembles(p: Param, tp: nat, ts: seq<Option<seq<real>>>, owns: bool, data: seq<real>, at: nat)
    requires tp > 0 && |ts| == tp && owns && Divides(p, tp)
    requires forall r :: 0 <= r < tp ==> Held(ts[r], owns, p, tp, r, data, at)
    ensures ModuleReassembles(p, tp, ts, data, at)
  {
    assert Held(ts[0], owns, p, tp, 0, data, at);
    hide Full, Local, Divides;
    PartsReassemble(p, tp, Full(p, data, at));
    assert Values(ts) == Parts(p, tp, Full(p, data, at));
  }
}
