/**
 * How a tensor-parallel rank's part of a parameter is cut out of the full tensor, and that the parts
 * of all ranks put the full tensor together again.
 */
module Shards {
  import opened RealFacts
  import opened RealSums

  /**
   * A parameter of the file: not split; split along its rows; split along its columns; or rows packed
   * as [Q | K | V], each of the three blocks split along its rows.
   */
  datatype Param =
    | Replicated(len: nat)
    | RowSplit(rows: nat, cols: nat)
    | ColSplit(rows: nat, cols: nat)
    | QkvSplit(cols: nat, q: nat, kv: nat)

  /** The number of elements in the file. */
  function Size(p: Param): nat {
    match p
    case Replicated(len) => len
    case RowSplit(rows, cols) => rows * cols
    case ColSplit(rows, cols) => rows * cols
    case QkvSplit(cols, q, kv) => q * cols + kv * cols + kv * cols
  }

  predicate Divides(p: Param, tp: nat)
    requires tp > 0
  {
    match p
    case Replicated(_) => true
    case RowSplit(rows, _) => rows % tp == 0
    case ColSplit(_, cols) => cols % tp == 0
    case QkvSplit(_, q, kv) => q % tp == 0 && kv % tp == 0
  }

  /** Integer division of a size by the number of ranks. */
  function Per(n: nat, tp: nat): (c: nat)
    requires tp > 0
    ensures tp * c <= n
    ensures n % tp == 0 ==> tp * c == n
  {
    QuotientNonnegative(n, tp);
    assert n == n / tp * tp + n % tp;
    n / tp
  }

  /** Rank r's block of n rows: its length, and that it lies inside. */
  lemma BlockFits(n: nat, tp: nat, r: nat, cols: nat)
    requires tp > 0 && r < tp
    ensures var b := Per(n, tp) * cols;
            && 0 <= r * b <= r * b + b <= n * cols
            && (n % tp == 0 ==> tp * b == n * cols)
  {
    var c := Per(n, tp);
    var b := c * cols;
    assert tp * b == (tp * c) * cols;
    AtMost(tp * c, n, cols);
    if b > 0 {
      InRange(r, tp, 0, b);
    }
  }

  lemma RankInside(n: nat, tp: nat, r: nat)
    requires tp > 0 && r < tp
    ensures 0 <= r * Per(n, tp) <= r * Per(n, tp) + Per(n, tp) <= n
  {
    BlockFits(n, tp, r, 1);
  }

  lemma AtMost(a: nat, b: nat, cols: nat)
    requires a <= b
    ensures a * cols <= b * cols
  {
    assert (b - a) * cols >= 0;
    assert (b - a) * cols == b * cols - a * cols;
  }

  /** Element q of the columns start, start + 1, ... of a matrix, cnt columns wide. */
  function ColumnAt<T>(m: seq<T>, rows: nat, cols: nat, start: nat, cnt: nat, q: nat): T
    requires |m| == rows * cols && start + cnt <= cols && q < rows * cnt
  {
    assert cnt > 0;
    Encode(q, rows, cnt);
    InRange(q / cnt, rows, start + q % cnt, cols);
    m[q / cnt * cols + (start + q % cnt)]
  }

  /** Columns start, ..., start + cnt - 1 of every row. */
  function Columns<T>(m: seq<T>, rows: nat, cols: nat, start: nat, cnt: nat): (s: seq<T>)
    requires |m| == rows * cols && start + cnt <= cols
    ensures |s| == rows * cnt
  {
    seq(rows * cnt, (q: nat) requires q < rows * cnt => ColumnAt(m, rows, cols, start, cnt, q))
  }

  /** The part of rank r. */
  function Local<T>(p: Param, tp: nat, r: nat, m: seq<T>): seq<T>
    requires tp > 0 && r < tp && |m| == Size(p)
  {
    match p
    case Replicated(_) => m
    case RowSplit(rows, cols) =>
      BlockFits(rows, tp, r, cols);
      var b := Per(rows, tp) * cols;
      m[r * b..r * b + b]
    case ColSplit(rows, cols) =>
      BlockFits(cols, tp, r, 1);
      Columns(m, rows, cols, r * Per(cols, tp), Per(cols, tp))
    case QkvSplit(cols, q, kv) =>
      BlockFits(q, tp, r, cols);
      BlockFits(kv, tp, r, cols);
      var a, b := Per(q, tp) * cols, Per(kv, tp) * cols;
      var k, v := q * cols, q * cols + kv * cols;
      m[r * a..r * a + a] + m[k + r * b..k + r * b + b] + m[v + r * b..v + r * b + b]
  }

  // ---------------------------------------------------------------- putting the parts together

  function Concat<T>(s: seq<seq<T>>): seq<T> {
    if s == [] then [] else Concat(s[..|s| - 1]) + s[|s| - 1]
  }

  /** The parts of all ranks. */
  function Parts<T>(p: Param, tp: nat, m: seq<T>): (s: seq<seq<T>>)
    requires tp > 0 && |m| == Size(p)
    ensures |s| == tp
  {
    seq(tp, r requires 0 <= r < tp => Local(p, tp, r, m))
  }

  /** The same stretch of every part. */
  function Pieces<T>(parts: seq<seq<T>>, at: nat, len: nat): (s: seq<seq<T>>)
    ensures |s| == |parts|
  {
    seq(|parts|, r requires 0 <= r < |parts| => if at + len <= |parts[r]| then parts[r][at..at + len] else [])
  }

  /** Where element q of a matrix is, when its columns lie in parts of cnt columns each. */
  function PartOf(q: nat, cols: nat, cnt: nat): (nat, nat)
    requires cols > 0 && cnt > 0
  {
    QuotientNonnegative(q, cols);
    QuotientNonnegative(q % cols, cnt);
    (q % cols / cnt, q / cols * cnt + q % cols % cnt)
  }

  /** The matrix whose columns are those of the parts, one part after the other; None if a part is too short. */
  ghost predicate ColumnsJoined<T>(m: seq<T>, parts: seq<seq<T>>, cols: nat, cnt: nat) {
    forall q: nat :: q < |m| && cols > 0 && cnt > 0 ==>
      var (r, k) := PartOf(q, cols, cnt); r < |parts| && k < |parts[r]| && m[q] == parts[r][k]
  }

  lemma {:induction false} BlocksJoin<T>(m: seq<T>, o: nat, b: nat, n: nat, parts: seq<seq<T>>)
    requires |parts| == n && o + n * b <= |m|
    requires forall r :: 0 <= r < n ==>
             0 <= o + r * b <= o + r * b + b <= |m| && parts[r] == m[o + r * b..o + r * b + b]
    ensures Concat(parts) == m[o..o + n * b]
  {
    if n > 0 {
      assert n * b == (n - 1) * b + b;
      BlocksJoin(m, o, b, n - 1, parts[..n - 1]);
    }
  }

  lemma RowsReassemble<T>(rows: nat, cols: nat, tp: nat, m: seq<T>)
    requires tp > 0 && rows % tp == 0 && |m| == rows * cols
    ensures Concat(Parts(RowSplit(rows, cols), tp, m)) == m
  {
    hide Concat, Per;
    var b := Per(rows, tp) * cols;
    BlockFits(rows, tp, 0, cols);
    forall r | 0 <= r < tp
      ensures 0 <= 0 + r * b <= 0 + r * b + b <= |m| &&
              Parts(RowSplit(rows, cols), tp, m)[r] == m[0 + r * b..0 + r * b + b]
    {
      BlockFits(rows, tp, r, cols);
    }
    BlocksJoin(m, 0, b, tp, Parts(RowSplit(rows, cols), tp, m));
    assert m[0..0 + tp * b] == m;
  }

  /** Rank r's part has, at offset at, the r-th block of width len from offset o of the tensor. */
  ghost predicate HasBlockAt<T>(m: seq<T>, part: seq<T>, o: nat, len: nat, at: nat, r: nat) {
    && at + len <= |part| && 0 <= r * len <= r * len + len && o + r * len + len <= |m|
    && part[at..at + len] == m[o + r * len..o + r * len + len]
  }

  ghost predicate HasBlock<T>(m: seq<T>, parts: seq<seq<T>>, o: nat, len: nat, at: nat) {
    forall r :: 0 <= r < |parts| ==> HasBlockAt(m, parts[r], o, len, at, r)
  }

  /** Cutting the packed part of rank r into its three blocks. */
  lemma QkvLocal<T>(cols: nat, q: nat, kv: nat, tp: nat, r: nat, m: seq<T>, a: nat, b: nat, k: nat, v: nat)
    requires tp > 0 && r < tp && |m| == Size(QkvSplit(cols, q, kv))
    requires a == Per(q, tp) * cols && b == Per(kv, tp) * cols && k == q * cols && v == q * cols + kv * cols
    ensures var part := Local(QkvSplit(cols, q, kv), tp, r, m);
            HasBlockAt(m, part, 0, a, 0, r) && HasBlockAt(m, part, k, b, a, r) && HasBlockAt(m, part, v, b, a + b, r)
  {
    BlockFits(q, tp, r, cols);
    BlockFits(kv, tp, r, cols);
    hide Per;
    ThreeParts(m[r * a..r * a + a], m[k + r * b..k + r * b + b], m[v + r * b..v + r * b + b]);
  }

  lemma ThreeParts<T>(x: seq<T>, y: seq<T>, z: seq<T>)
    ensures var s := x + y + z;
            s[0..|x|] == x && s[|x|..|x| + |y|] == y && s[|x| + |y|..|x| + |y| + |z|] == z
  {
  }

  lemma PieceIs<T>(m: seq<T>, parts: seq<seq<T>>, o: nat, len: nat, at: nat, r: nat)
    requires r < |parts| && HasBlockAt(m, parts[r], o, len, at, r)
    ensures 0 <= o + r * len <= o + r * len + len <= |m|
    ensures Pieces(parts, at, len)[r] == m[o + r * len..o + r * len + len]
  {
  }

  /** One of the three blocks: the stretches at one place of all parts are consecutive blocks of the tensor. */
  lemma PiecesJoin<T>(m: seq<T>, o: nat, len: nat, tp: nat, parts: seq<seq<T>>, at: nat, end: nat)
    requires |parts| == tp && end == o + tp * len && end <= |m|
    requires HasBlock(m, parts, o, len, at)
    ensures Concat(Pieces(parts, at, len)) == m[o..end]
  {
    hide Concat, HasBlockAt;
    var pieces := Pieces(parts, at, len);
    forall r | 0 <= r < tp
      ensures 0 <= o + r * len <= o + r * len + len <= |m| && pieces[r] == m[o + r * len..o + r * len + len]
    {
      PieceIs(m, parts, o, len, at, r);
    }
    BlocksJoin(m, o, len, tp, pieces);
  }

  lemma QkvBlocks<T>(cols: nat, q: nat, kv: nat, tp: nat, m: seq<T>, a: nat, b: nat, k: nat, v: nat)
    requires tp > 0 && |m| == Size(QkvSplit(cols, q, kv))
    requires a == Per(q, tp) * cols && b == Per(kv, tp) * cols && k == q * cols && v == q * cols + kv * cols
    ensures var parts := Parts(QkvSplit(cols, q, kv), tp, m);
            HasBlock(m, parts, 0, a, 0) && HasBlock(m, parts, k, b, a) && HasBlock(m, parts, v, b, a + b)
  {
    hide Per, Local, HasBlockAt, Size;
    forall r | 0 <= r < tp
      ensures var part := Local(QkvSplit(cols, q, kv), tp, r, m);
              HasBlockAt(m, part, 0, a, 0, r) && HasBlockAt(m, part, k, b, a, r) && HasBlockAt(m, part, v, b, a + b, r)
    {
      QkvLocal(cols, q, kv, tp, r, m, a, b, k, v);
    }
  }

  /** Where Q, K and V end. */
  lemma QkvEnds(cols: nat, q: nat, kv: nat, tp: nat, a: nat, b: nat, k: nat, v: nat)
    requires tp > 0 && q % tp == 0 && kv % tp == 0
    requires a == Per(q, tp) * cols && b == Per(kv, tp) * cols && k == q * cols && v == q * cols + kv * cols
    ensures k == 0 + tp * a && v == k + tp * b && Size(QkvSplit(cols, q, kv)) == v + tp * b && k <= v
  {
    BlockFits(q, tp, 0, cols);
    BlockFits(kv, tp, 0, cols);
  }

  /** Q, K and V are each the concatenation, over the ranks, of the blocks in the packed parts. */
  lemma QkvReassembles<T>(cols: nat, q: nat, kv: nat, tp: nat, m: seq<T>, a: nat, b: nat, k: nat, v: nat)
    requires tp > 0 && q % tp == 0 && kv % tp == 0 && |m| == Size(QkvSplit(cols, q, kv))
    requires a == Per(q, tp) * cols && b == Per(kv, tp) * cols && k == q * cols && v == q * cols + kv * cols
    ensures k <= v <= |m|
    ensures var parts := Parts(QkvSplit(cols, q, kv), tp, m);
            && Concat(Pieces(parts, 0, a)) == m[0..k]
            && Concat(Pieces(parts, a, b)) == m[k..v]
            && Concat(Pieces(parts, a + b, b)) == m[v..|m|]
  {
    QkvEnds(cols, q, kv, tp, a, b, k, v);
    QkvBlocks(cols, q, kv, tp, m, a, b, k, v);
    hide *;
    AllPiecesJoin(m, tp, Parts(QkvSplit(cols, q, kv), tp, m), a, b, k, v);
  }

  lemma AllPiecesJoin<T>(m: seq<T>, tp: nat, parts: seq<seq<T>>, a: nat, b: nat, k: nat, v: nat)
    requires |parts| == tp && k == 0 + tp * a && v == k + tp * b && |m| == v + tp * b && k <= v
    requires HasBlock(m, parts, 0, a, 0) && HasBlock(m, parts, k, b, a) && HasBlock(m, parts, v, b, a + b)
    ensures k <= v <= |m|
    ensures Concat(Pieces(parts, 0, a)) == m[0..k]
    ensures Concat(Pieces(parts, a, b)) == m[k..v]
    ensures Concat(Pieces(parts, a + b, b)) == m[v..|m|]
  {
    hide *;
    assert tp * b >= 0;
    PiecesJoin(m, 0, a, tp, parts, 0, k);
    PiecesJoin(m, k, b, tp, parts, a, v);
    PiecesJoin(m, v, b, tp, parts, a + b, |m|);
  }

  lemma ColumnsReassemble<T>(rows: nat, cols: nat, tp: nat, m: seq<T>)
    requires tp > 0 && cols % tp == 0 && |m| == rows * cols
    ensures ColumnsJoined(m, Parts(ColSplit(rows, cols), tp, m), cols, Per(cols, tp))
  {
    var parts, c := Parts(ColSplit(rows, cols), tp, m), Per(cols, tp);
    forall q: nat | q < |m| && cols > 0 && c > 0
      ensures var (r, k) := PartOf(q, cols, c); r < |parts| && k < |parts[r]| && m[q] == parts[r][k]
    {
      ColumnElement(rows, cols, tp, m, c, q);
    }
  }

  lemma ColumnElement<T>(rows: nat, cols: nat, tp: nat, m: seq<T>, c: nat, q: nat)
    requires tp > 0 && |m| == rows * cols && c == Per(cols, tp) && tp * c == cols && q < |m| && cols > 0 && c > 0
    ensures var (r, k) := PartOf(q, cols, c);
            r < tp && k < |Local(ColSplit(rows, cols), tp, r, m)| && m[q] == Local(ColSplit(rows, cols), tp, r, m)[k]
  {
    hide Per;
    Encode(q, rows, cols);
    var i, j := q / cols, q % cols;
    Encode(j, tp, c);
    var r, jj := j / c, j % c;
    InRange(i, rows, jj, c);
    Decode(i, c, jj);
    BlockFits(cols, tp, r, 1);
  }

  // ---------------------------------------------------------------- any parameter

  /**
   * The ranks' tensors put the full tensor together again: each is a copy of it; its rows, one after the
   * other; its columns, side by side; or the rows of Q, of K and of V, each one after the other.
   */
  ghost predicate Reassembles<T>(p: Param, tp: nat, parts: seq<seq<T>>, m: seq<T>)
    requires tp > 0
  {
    |parts| == tp && |m| == Size(p) &&
    match p
    case Replicated(_) => forall r :: 0 <= r < tp ==> parts[r] == m
    case RowSplit(_, _) => Concat(parts) == m
    case ColSplit(_, cols) => ColumnsJoined(m, parts, cols, Per(cols, tp))
    case QkvSplit(cols, q, kv) =>
      QkvJoined(m, parts, Per(q, tp) * cols, Per(kv, tp) * cols, q * cols, q * cols + kv * cols)
  }

  /** Q ends at k and K at v; the parts hold a elements of Q and b each of K and of V. */
  ghost predicate QkvJoined<T>(m: seq<T>, parts: seq<seq<T>>, a: int, b: int, k: int, v: int) {
    && 0 <= a && 0 <= b && 0 <= k <= v <= |m|
    && Concat(Pieces(parts, 0, a)) == m[0..k]
    && Concat(Pieces(parts, a, b)) == m[k..v]
    && Concat(Pieces(parts, a + b, b)) == m[v..|m|]
  }

  lemma PartsReassemble<T>(p: Param, tp: nat, m: seq<T>)
    requires tp > 0 && |m| == Size(p) && Divides(p, tp)
    ensures Reassembles(p, tp, Parts(p, tp, m), m)
  {
    hide Concat, Per, ColumnsJoined, QkvJoined;
    match p
    case Replicated(_) =>
    case RowSplit(rows, cols) => RowsReassemble(rows, cols, tp, m);
    case ColSplit(rows, cols) => ColumnsReassemble(rows, cols, tp, m);
    case QkvSplit(cols, q, kv) =>
      BlockFits(q, tp, 0, cols);
      BlockFits(kv, tp, 0, cols);
      QkvPartsJoin(cols, q, kv, tp, m, Per(q, tp) * cols, Per(kv, tp) * cols, q * cols, q * cols + kv * cols);
  }

  lemma QkvPartsJoin<T>(cols: nat, q: nat, kv: nat, tp: nat, m: seq<T>, a: nat, b: nat, k: nat, v: nat)
    requires tp > 0 && q % tp == 0 && kv % tp == 0 && |m| == Size(QkvSplit(cols, q, kv))
    requires a == Per(q, tp) * cols && b == Per(kv, tp) * cols && k == q * cols && v == q * cols + kv * cols
    ensures QkvJoined(m, Parts(QkvSplit(cols, q, kv), tp, m), a, b, k, v)
  {
    hide Concat, Per, Parts, Pieces, Size;
    QkvReassembles(cols, q, kv, tp, m, a, b, k, v);
  }

  /** No other tensor is put together from the same parts: reassembly recovers the one that was cut. */
  lemma ReassemblyIsUnique<T>(p: Param, tp: nat, parts: seq<seq<T>>, m: seq<T>, m': seq<T>)
    requires tp > 0 && Divides(p, tp) && Reassembles(p, tp, parts, m) && Reassembles(p, tp, parts, m')
    ensures m == m'
  {
    hide Concat, Pieces;
    match p
    case Replicated(_) => assert parts[0] == m;
    case RowSplit(_, _) =>
    case ColSplit(rows, cols) => ColumnsAreUnique(rows, cols, tp, parts, m, m');
    case QkvSplit(cols, q, kv) =>
      var k, v := q * cols, q * cols + kv * cols;
      assert m == m[0..k] + m[k..v] + m[v..|m|];
      assert m' == m'[0..k] + m'[k..v] + m'[v..|m'|];
  }

  lemma ColumnsAreUnique<T>(rows: nat, cols: nat, tp: nat, parts: seq<seq<T>>, m: seq<T>, m': seq<T>)
    requires tp > 0 && cols % tp == 0 && |m| == |m'| == rows * cols
    requires ColumnsJoined(m, parts, cols, Per(cols, tp)) && ColumnsJoined(m', parts, cols, Per(cols, tp))
    ensures m == m'
  {
    var c := Per(cols, tp);
    hide Per, PartOf;
    forall q: nat | q < |m|
      ensures m[q] == m'[q]
    {
      assert cols > 0 && tp * c == cols;
      assert c > 0;
    }
  }

  /**
   * Rows that the number of ranks does not divide would lose the remainder: the parts reassemble
   * exactly when it divides.
   */
  lemma RowsReassembleExactlyWhen<T>(rows: nat, cols: nat, tp: nat, m: seq<T>)
    requires tp > 0 && cols > 0 && |m| == rows * cols
    ensures Reassembles(RowSplit(rows, cols), tp, Parts(RowSplit(rows, cols), tp, m), m) <==> rows % tp == 0
  {
    hide Concat, Parts;
    if rows % tp == 0 {
      PartsReassemble(RowSplit(rows, cols), tp, m);
    } else {
      RowsAreLost(rows, cols, tp, m);
    }
  }

  lemma RowsAreLost<T>(rows: nat, cols: nat, tp: nat, m: seq<T>)
    requires tp > 0 && cols > 0 && rows % tp != 0 && |m| == rows * cols
    ensures |Concat(Parts(RowSplit(rows, cols), tp, m))| < |m|
  {
    hide Per, Local, Concat;
    var c := Per(rows, tp);
    var b := c * cols;
    var parts := Parts(RowSplit(rows, cols), tp, m);
    forall r | 0 <= r < tp
      ensures |parts[r]| == b
    {
      RowPartLength(rows, cols, tp, r, m, b);
    }
    ConcatLength(parts, b);
    NotAll(rows, tp, c);
    FewerElements(rows, tp, c, cols, b);
  }

  lemma RowPartLength<T>(rows: nat, cols: nat, tp: nat, r: nat, m: seq<T>, b: nat)
    requires tp > 0 && r < tp && |m| == rows * cols && b == Per(rows, tp) * cols
    ensures |Local(RowSplit(rows, cols), tp, r, m)| == b
  {
    BlockFits(rows, tp, r, cols);
  }

  lemma FewerElements(rows: nat, tp: nat, c: nat, cols: nat, b: nat)
    requires cols > 0 && tp * c < rows && b == c * cols
    ensures tp * b < rows * cols
  {
    LessRows(tp * c, rows, cols);
    assert tp * b == (tp * c) * cols;
  }

  lemma NotAll(rows: nat, tp: nat, c: nat)
    requires tp > 0 && rows % tp != 0 && tp * c <= rows
    ensures tp * c < rows
  {
    if tp * c == rows {
      QuotientUnique(rows, tp, c, 0);
    }
  }

  lemma LessRows(a: nat, b: nat, cols: nat)
    requires a < b && cols > 0
    ensures a * cols < b * cols
  {
    assert (b - a) * cols > 0;
    assert (b - a) * cols == b * cols - a * cols;
  }

  lemma {:induction false} ConcatLength<T>(s: seq<seq<T>>, b: nat)
    requires forall r :: 0 <= r < |s| ==> |s[r]| == b
    ensures |Concat(s)| == |s| * b
  {
    if s != [] {
      ConcatLength(s[..|s| - 1], b);
      assert |s| * b == (|s| - 1) * b + b;
    }
  }
}
