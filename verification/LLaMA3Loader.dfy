/** The loader of LLaMA 3 model files: what it checks, what it reads, and that its ranks together hold the file. */
module LLaMA3Loader {
  import opened Wrappers
  import opened RealFacts
  import opened Shards
  import opened CheckpointLoader
  import opened HeldParts
  import opened RealSums
  import opened LoRA

  datatype Config = Config(blockSize: nat, vocabSize: nat, nLayer: nat, nHead: nat, nKvHead: nat, nEmbd: nat,
                           ffnDimMultiplier: real, multipleOf: nat)

  datatype Model = Model(
    wte: Option<seq<real>>, layers: seq<seq<seq<real>>>, lnF: Option<seq<real>>, lmHead: Option<seq<real>>)

  // ---------------------------------------------------------------- the MLP's hidden size

  /** C++ division truncates toward zero. */
  function TruncatedDiv(x: int, m: nat): int
    requires m > 0
  {
    if x >= 0 then x / m else -(-x / m)
  }

  /** llround: to the nearest integer, halves away from zero. */
  function LlRound(x: real): int {
    if x >= 0.0 then (x + 0.5).Floor else -(-x + 0.5).Floor
  }

  function RoundUpTo(x: int, m: nat): int
    requires m > 0
  {
    TruncatedDiv(x + m - 1, m) * m
  }

  function HiddenDim(c: Config): nat {
    2 * (4 * c.nEmbd) / 3
  }

  function ScaledHidden(c: Config): real {
    c.ffnDimMultiplier * HiddenDim(c) as real
  }

  /** The loader's ffn_hidden, which ignores a multiplier that is not positive. */
  function FfnHidden(c: Config): (h: nat)
    requires c.multipleOf > 0
  {
    var scaled := if c.ffnDimMultiplier > 0.0 then LlRound(ScaledHidden(c)) else HiddenDim(c);
    ScaledSign(c);
    RoundedUp(scaled, c.multipleOf);
    RoundUpTo(scaled, c.multipleOf)
  }

  /** The MLP's own ffn_hidden, which does not. */
  function MlpHidden(c: Config): int
    requires c.multipleOf > 0
  {
    RoundUpTo(LlRound(ScaledHidden(c)), c.multipleOf)
  }

  lemma ScaledSign(c: Config)
    ensures c.ffnDimMultiplier > 0.0 ==> LlRound(ScaledHidden(c)) >= 0
    ensures c.ffnDimMultiplier <= 0.0 ==> LlRound(ScaledHidden(c)) <= 0
  {
    var x, h := c.ffnDimMultiplier, HiddenDim(c) as real;
    if x > 0.0 {
      assert x * h >= 0.0;
    } else {
      assert x * h <= 0.0;
    }
  }

  lemma RoundedUp(x: int, m: nat)
    requires m > 0
    ensures x >= 0 ==> RoundUpTo(x, m) >= 0
    ensures x <= 0 ==> RoundUpTo(x, m) <= 0
  {
    var q := TruncatedDiv(x + m - 1, m);
    if x > 0 {
      QuotientNonnegative(x + m - 1, m);
      assert q * m >= 0;
    } else if x + m - 1 >= 0 {
      QuotientUnique(x + m - 1, m, 0, x + m - 1);
      assert q * m == 0;
    } else {
      QuotientNonnegative(-(x + m - 1), m);
      assert q <= 0;
      assert q * m <= 0;
    }
  }

  /** Where the MLP's CHECK on its size passes, loader and MLP agree on it. */
  lemma HiddenSizesAgree(c: Config)
    requires c.multipleOf > 0 && MlpHidden(c) > 0
    ensures c.ffnDimMultiplier > 0.0 && MlpHidden(c) == FfnHidden(c)
  {
    hide LlRound, RoundUpTo, ScaledHidden;
    ScaledSign(c);
    RoundedUp(LlRound(ScaledHidden(c)), c.multipleOf);
  }

  ghost predicate ScaledAndRounded(c: Config, dim: nat, scaled: int, hidden: nat)
    requires c.multipleOf > 0
  {
    && 3 * dim <= 8 * c.nEmbd < 3 * dim + 3
    && scaled as real - 0.5 <= c.ffnDimMultiplier * dim as real < scaled as real + 0.5
    && scaled <= hidden < scaled + c.multipleOf && hidden % c.multipleOf == 0
  }

  /**
   * What the size is: two thirds of 4 n_embd, rounded down, times the multiplier, rounded to the nearest
   * integer, rounded up to a multiple.
   */
  lemma FfnHiddenIs(c: Config)
    requires c.multipleOf > 0 && c.ffnDimMultiplier > 0.0
    ensures exists dim: nat, scaled: int :: ScaledAndRounded(c, dim, scaled, FfnHidden(c))
  {
    var dim, scaled, m := HiddenDim(c), LlRound(ScaledHidden(c)), c.multipleOf;
    ScaledSign(c);
    NearestInteger(ScaledHidden(c));
    RoundedUpIs(scaled, m);
    hide LlRound, RoundUpTo;
    assert c.ffnDimMultiplier * dim as real >= 0.0;
    assert ScaledAndRounded(c, dim, scaled, FfnHidden(c));
  }

  lemma NearestInteger(x: real)
    requires x >= 0.0
    ensures LlRound(x) as real - 0.5 <= x < LlRound(x) as real + 0.5
  {
  }

  lemma RoundedUpIs(x: int, m: nat)
    requires m > 0 && x >= 0
    ensures x <= RoundUpTo(x, m) < x + m && RoundUpTo(x, m) % m == 0
  {
    QuotientNonnegative(x + m - 1, m);
    var q := (x + m - 1) / m;
    assert x + m - 1 == q * m + (x + m - 1) % m;
    QuotientUnique(q * m, m, q, 0);
  }

  /** LLaMA 3.2 1B has 8192 hidden columns, LLaMA 3 8B 14336. */
  lemma KnownHiddenSizes(c: Config)
    ensures c.nEmbd == 2048 && c.ffnDimMultiplier == 1.5 && c.multipleOf == 256 ==> FfnHidden(c) == 8192
    ensures c.nEmbd == 4096 && c.ffnDimMultiplier == 1.3 && c.multipleOf == 1024 ==> FfnHidden(c) == 14336
  {
  }

  // ---------------------------------------------------------------- the CHECKs

  /** original_vocab_size of the default configuration, which the loader does not take from the file. */
  const ORIGINAL_VOCAB: nat := 128256

  /** SanitizeLLaMA3Config. */
  predicate Sane(c: Config) {
    && c.blockSize > 0 && c.vocabSize > 0 && c.vocabSize >= ORIGINAL_VOCAB && c.nLayer > 0 && c.nHead > 0 &&
      c.nKvHead > 0
    && c.nKvHead <= c.nHead && c.nHead % c.nKvHead == 0 && c.nEmbd > 0 && c.nEmbd % c.nHead == 0 && c.multipleOf > 0
  }

  /** The constructors of a layer's attention and MLP. */
  predicate LayerBuilds(c: Config, tp: nat)
    requires tp > 0 && Sane(c)
  {
    var headDim := c.nEmbd / c.nHead;
    && c.nHead % tp == 0 && (c.nKvHead < c.nHead ==> c.nKvHead % tp == 0)
    && (c.nHead + 2 * c.nKvHead) * headDim % tp == 0 && c.nEmbd % tp == 0
    && MlpHidden(c) > 0 && MlpHidden(c) % tp == 0
  }

  /**
   * Every CHECK on the way to the first parameter: the configuration, the constructor of the model and of
   * the stage's layers, and the loader itself.
   */
  predicate Checks(c: Config, tp: nat, layers: seq<bool>)
    requires tp > 0
  {
    && Sane(c)
    && c.vocabSize % tp == 0
    && (true in layers ==> LayerBuilds(c, tp))
    && c.nEmbd % tp == 0 && c.nHead % tp == 0 && c.nKvHead % tp == 0
  }

  /** Of a stage's CHECKs, those of its layers add the MLP's size and otherwise follow from the others. */
  lemma ChecksExactlyWhen(c: Config, tp: nat, layers: seq<bool>)
    requires tp > 0
    ensures Checks(c, tp, layers) <==>
            && Sane(c) && c.vocabSize % tp == 0 && c.nEmbd % tp == 0 && c.nHead % tp == 0 && c.nKvHead % tp == 0
            && (true in layers ==> MlpHidden(c) > 0 && MlpHidden(c) % tp == 0)
  {
    hide MlpHidden;
    if Sane(c) && c.nHead % tp == 0 && c.nKvHead % tp == 0 {
      var heads := c.nHead + 2 * c.nKvHead;
      QuotientNonnegative(c.nEmbd, c.nHead);
      QuotientUnique(heads, tp, Per(c.nHead, tp) + 2 * Per(c.nKvHead, tp), 0);
      KvLocalRows(heads, c.nEmbd / c.nHead, tp);
    }
  }

  /** A file with the 32000 words of LLaMA 2 never loads. */
  lemma SmallVocabularyIsRejected(c: Config, tp: nat, layers: seq<bool>)
    requires tp > 0 && c.vocabSize == 32000
    ensures !Checks(c, tp, layers)
  {
  }

  /** ln_1, the packed c_attn with K and V of n_kv_head heads, c_proj, ln_2, c_fc, c_fc2, mlp.c_proj. */
  function LayerParams(c: Config): seq<Param>
    requires Sane(c)
  {
    QuotientNonnegative(c.nEmbd, c.nHead);
    var n, ffn := c.nEmbd, FfnHidden(c);
    [Replicated(n), QkvSplit(n, n, c.nKvHead * (n / c.nHead)), ColSplit(n, n), Replicated(n),
     RowSplit(ffn, n), RowSplit(ffn, n), ColSplit(n, ffn)]
  }

  /** The loader's kv_local_rows, n_kv_head / tp heads, is the rank's share of the rows of K. */
  lemma KvLocalRows(heads: nat, headDim: nat, tp: nat)
    requires tp > 0 && heads % tp == 0
    ensures heads * headDim % tp == 0 && Per(heads * headDim, tp) == Per(heads, tp) * headDim
  {
    var h := Per(heads, tp);
    assert heads * headDim == (tp * h) * headDim == (h * headDim) * tp;
    QuotientUnique(heads * headDim, tp, h * headDim, 0);
  }

  /** Every parameter of the layers is divisible when the CHECKs of a stage with layers pass. */
  lemma LayersDivide(c: Config, tp: nat, layers: seq<bool>, k: nat)
    requires tp > 0 && Checks(c, tp, layers) && true in layers && k < 7
    ensures |LayerParams(c)| == 7 && Divides(LayerParams(c)[k], tp)
  {
    HiddenSizesAgree(c);
    hide FfnHidden, MlpHidden;
    QuotientNonnegative(c.nEmbd, c.nHead);
    KvLocalRows(c.nKvHead, c.nEmbd / c.nHead, tp);
  }

  // ---------------------------------------------------------------- reading

  /** Where the layers' parameters begin and end, and the size of the whole file: the same for every rank and stage. */
  function LayersStart(c: Config): nat {
    c.vocabSize * c.nEmbd
  }

  function LayersEnd(c: Config): nat
    requires Sane(c)
  {
    LayersStart(c) + Extent(LayerParams(c), c.nLayer, 7)
  }

  function FileSize(c: Config): nat
    requires Sane(c)
  {
    LayersEnd(c) + c.nEmbd + c.vocabSize * c.nEmbd
  }

  ghost predicate LayersLoaded(layers: seq<seq<seq<real>>>, c: Config, tp: nat, r: nat, own: Ownership, data: seq<real>,
                               base: nat)
    requires Sane(c)
  {
    |layers| == 7 && forall k :: 0 <= k < 7 ==>
      SectionLoaded(layers[k], LayerParams(c), tp, r, own.layers, data, base + LayersStart(c), k)
  }

  /** Every tensor is this rank's part of what lies in the file at the parameter's place. */
  ghost predicate Loaded(m: Model, c: Config, tp: nat, r: nat, own: Ownership, data: seq<real>, base: nat)
    requires Sane(c)
  {
    && Held(m.wte, own.embedding, RowSplit(c.vocabSize, c.nEmbd), tp, r, data, base)
    && LayersLoaded(m.layers, c, tp, r, own, data, base)
    && Held(m.lnF, own.finalNorm, Replicated(c.nEmbd), tp, r, data, base + LayersEnd(c))
    && Held(m.lmHead, own.lmHead, RowSplit(c.vocabSize, c.nEmbd), tp, r, data, base + LayersEnd(c) + c.nEmbd)
  }

  /**
   * LoadFromLLMC: whatever the rank, the stage and the modules it owns, the cursor ends at the same
   * place, and every tensor is cut from where its parameter lies in the file. None where a CHECK fails.
   */
  method LoadFromLLMC(ifs: Stream, c: Config, tp: nat, r: nat, own: Ownership) returns (m: Option<Model>)
    requires tp > 0 && r < tp && |own.layers| == c.nLayer
    requires Sane(c) ==> ifs.pos + FileSize(c) <= |ifs.data|
    modifies ifs
    ensures m.Some? <==> Checks(c, tp, own.layers)
    ensures m.Some? ==> ifs.pos == old(ifs.pos) + FileSize(c)
    ensures m.Some? ==> Loaded(m.value, c, tp, r, own, ifs.data, old(ifs.pos))
    ensures m.Some? ==> LoadedAsWritten(m.value, c, tp, r, own, ifs.data, old(ifs.pos))
  {
    hide SectionLoaded, Extent, LayerParams, Held, FfnHidden, MlpHidden, LayerBuilds, LoadedAsWritten;
    ghost var base := ifs.pos;
    if !Sane(c) || c.vocabSize % tp != 0 || (true in own.layers && !LayerBuilds(c, tp)) {
      return None;
    }
    if !(c.nEmbd % tp == 0 && c.nHead % tp == 0 && c.nKvHead % tp == 0) {
      return None;
    }
    ParamCount(c);
    var n := c.nEmbd;
    var wte := LoadIf(ifs, own.embedding, RowSplit(c.vocabSize, n), tp, r);
    var layers := LoadSections(ifs, LayerParams(c), tp, r, own.layers);
    var lnF, lmHead := LoadTail(ifs, c, tp, r, own);
    m := Some(Model(wte, layers, lnF, lmHead));
    LoadedIsAsWritten(m.value, c, tp, r, own, ifs.data, base);
  }

  /** The final norm and the head, read or skipped each on its own, or skipped together. */
  method LoadTail(ifs: Stream, c: Config, tp: nat, r: nat, own: Ownership)
    returns (lnF: Option<seq<real>>, lmHead: Option<seq<real>>)
    requires tp > 0 && r < tp && ifs.pos + c.nEmbd + c.vocabSize * c.nEmbd <= |ifs.data|
    modifies ifs
    ensures ifs.pos == old(ifs.pos) + c.nEmbd + c.vocabSize * c.nEmbd
    ensures Held(lnF, own.finalNorm, Replicated(c.nEmbd), tp, r, ifs.data, old(ifs.pos))
    ensures Held(lmHead, own.lmHead, RowSplit(c.vocabSize, c.nEmbd), tp, r, ifs.data, old(ifs.pos) + c.nEmbd)
  {
    var n := c.nEmbd;
    lnF, lmHead := None, None;
    if own.finalNorm || own.lmHead {
      lnF := LoadIf(ifs, own.finalNorm, Replicated(n), tp, r);
      lmHead := LoadIf(ifs, own.lmHead, RowSplit(c.vocabSize, n), tp, r);
    } else {
      ifs.Seek(ifs.pos + (n + c.vocabSize * n));
    }
  }

  lemma ParamCount(c: Config)
    requires Sane(c)
    ensures |LayerParams(c)| == 7
  {
  }

  // ---------------------------------------------------------------- the file, written out

  /**
   * What a rank holds of layer idx of count, at place j of its tensors, written out parameter by parameter.
   * K and V have kv rows, the MLP has f hidden columns. The layers' parameters begin at start; v, w, k and
   * u stand for count times n, n * n, kv * n and f * n.
   */
  ghost predicate LayerHeld(ls: seq<seq<seq<real>>>, n: nat, kv: nat, f: nat, v: nat, w: nat, k: nat, u: nat, idx: nat,
                            j: nat, start: nat, data: seq<real>, tp: nat, r: nat) {
    && |ls| == 7 && (forall i :: 0 <= i < 7 ==> j < |ls[i]|)
    // ln_1
    && Whole(ls[0][j], data, start + idx * n, n)
    // attn.c_attn and attn.c_proj
    && PackedBlock(ls[1][j], data, start + v + idx * (n * n + 2 * (kv * n)), n, n, kv, tp, r)
    && ColumnBlock(ls[2][j], data, start + v + w + 2 * k + idx * (n * n), n, n, tp, r)
    // ln_2
    && Whole(ls[3][j], data, start + v + 2 * w + 2 * k + idx * n, n)
    // mlp.c_fc, mlp.c_fc2 and mlp.c_proj
    && RowBlock(ls[4][j], data, start + 2 * v + 2 * w + 2 * k + idx * (f * n), f, n, tp, r)
    && RowBlock(ls[5][j], data, start + 2 * v + 2 * w + 2 * k + u + idx * (f * n), f, n, tp, r)
    && ColumnBlock(ls[6][j], data, start + 2 * v + 2 * w + 2 * k + 2 * u + idx * (f * n), n, f, tp, r)
  }

  /** The rows of K, or of V. */
  function KvRows(c: Config): nat
    requires Sane(c)
  {
    QuotientNonnegative(c.nEmbd, c.nHead);
    c.nKvHead * (c.nEmbd / c.nHead)
  }

  /** The size of each parameter; where all layers' copies of it begin, and where the last one's end. */
  function Lengths(n: nat, packed: nat, square: nat, wide: nat): seq<nat> {
    [n, packed, square, n, wide, wide, wide]
  }

  function Begins(v: nat, w: nat, k: nat, u: nat): seq<nat> {
    [0, v, v + w + 2 * k, v + 2 * w + 2 * k, 2 * v + 2 * w + 2 * k, 2 * v + 2 * w + 2 * k + u,
     2 * v + 2 * w + 2 * k + 2 * u, 2 * v + 2 * w + 2 * k + 3 * u]
  }

  function Places(n: nat, packed: nat, square: nat, wide: nat, v: nat, w: nat, k: nat, u: nat, idx: nat, start: nat)
    : seq<int> {
    [start + idx * n, start + v + idx * packed, start + v + w + 2 * k + idx * square,
     start + v + 2 * w + 2 * k + idx * n, start + 2 * v + 2 * w + 2 * k + idx * wide,
     start + 2 * v + 2 * w + 2 * k + u + idx * wide, start + 2 * v + 2 * w + 2 * k + 2 * u + idx * wide]
  }

  lemma LengthsAreSizes(c: Config)
    requires Sane(c)
    ensures var n, kv, f := c.nEmbd, KvRows(c), FfnHidden(c);
            var ls := Lengths(n, n * n + 2 * (kv * n), n * n, f * n);
            |LayerParams(c)| == |ls| == 7 && forall i :: 0 <= i < 7 ==> Size(LayerParams(c)[i]) == ls[i]
  {
    hide FfnHidden;
    assert c.nEmbd * FfnHidden(c) == FfnHidden(c) * c.nEmbd;
  }

  lemma BeginsFollow(n: nat, kvSquare: nat, square: nat, wide: nat, count: nat, v: nat, w: nat, k: nat, u: nat)
    requires v == count * n && w == count * square && k == count * kvSquare && u == count * wide
    ensures var begins, lengths := Begins(v, w, k, u), Lengths(n, square + 2 * kvSquare, square, wide);
            && |begins| == 8 && |lengths| == 7 && begins[0] == 0
            && forall i :: 0 <= i < 7 ==> begins[i + 1] == begins[i] + count * lengths[i]
  {
    Packed(count, square, kvSquare);
    var products, lengths := [v, w + 2 * k, w, v, u, u, u], Lengths(n, square + 2 * kvSquare, square, wide);
    assert forall i :: 0 <= i < 7 ==> count * lengths[i] == products[i];
    hide Lengths;
  }

  lemma Packed(count: nat, a: nat, b: nat)
    ensures count * (a + 2 * b) == count * a + 2 * (count * b)
  {
  }

  lemma PlacesAre(n: nat, packed: nat, square: nat, wide: nat, v: nat, w: nat, k: nat, u: nat, idx: nat, start: nat)
    ensures var places := Places(n, packed, square, wide, v, w, k, u, idx, start);
            var begins, lengths := Begins(v, w, k, u), Lengths(n, packed, square, wide);
            && |places| == |lengths| == 7 && |begins| == 8
            && forall i :: 0 <= i < 7 ==> places[i] == start + begins[i] + idx * lengths[i]
  {
  }

  lemma WrittenOut(ls: seq<seq<seq<real>>>, c: Config, kv: nat, f: nat, packed: nat, square: nat, wide: nat, v: nat,
                   w: nat, k: nat, u: nat, idx: nat,
                   j: nat, start: nat, data: seq<real>, tp: nat, r: nat)
    requires Sane(c) && kv == KvRows(c) && f == FfnHidden(c)
    requires packed == c.nEmbd * c.nEmbd + 2 * (kv * c.nEmbd) && square == c.nEmbd * c.nEmbd && wide == f * c.nEmbd
    requires |ls| == |LayerParams(c)| == |Places(c.nEmbd, packed, square, wide, v, w, k, u, idx, start)| == 7
    requires forall i :: 0 <= i < 7 ==> j < |ls[i]|
    requires forall i :: 0 <= i < 7 ==>
               PartHeld(LayerParams(c)[i], ls[i][j], data,
                        Places(c.nEmbd, packed, square, wide, v, w, k, u, idx, start)[i], tp, r)
    ensures LayerHeld(ls, c.nEmbd, kv, f, v, w, k, u, idx, j, start, data, tp, r)
  {
    hide RowBlock, ColumnBlock, PackedBlock, Whole, FfnHidden;
  }

  /** Every owned layer's tensors are this rank's parts of what lies in the file at that layer's places. */
  lemma LayerIsHeld(layers: seq<seq<seq<real>>>, c: Config, tp: nat, r: nat, own: Ownership, data: seq<real>, base: nat,
                    kv: nat, f: nat, v: nat, w: nat, k: nat, u: nat, idx: nat)
    requires Sane(c) && LayersLoaded(layers, c, tp, r, own, data, base) && |own.layers| == c.nLayer
    requires kv == KvRows(c) && f == FfnHidden(c) && v == c.nLayer * c.nEmbd && w == c.nLayer * (c.nEmbd * c.nEmbd)
    requires k == c.nLayer * (kv * c.nEmbd) && u == c.nLayer * (f * c.nEmbd) && idx < c.nLayer && own.layers[idx]
    ensures LayerHeld(layers, c.nEmbd, kv, f, v, w, k, u, idx, LocalIndex(own.layers, idx),
                      base + c.vocabSize * c.nEmbd, data, tp, r)
  {
    hide SectionLoaded, LocalIndex, LayerParams, LayerHeld, FfnHidden, KvRows, Sane;
    SectionsAreHeld(layers, c, tp, r, own.layers, data, base + LayersStart(c), kv, f, v, w, k, u, idx);
  }

  lemma SectionsAreHeld(layers: seq<seq<seq<real>>>, c: Config, tp: nat, r: nat, owned: seq<bool>, data: seq<real>,
                        start: nat, kv: nat, f: nat, v: nat, w: nat, k: nat, u: nat, idx: nat)
    requires Sane(c) && |layers| == 7 && kv == KvRows(c) && f == FfnHidden(c)
    requires forall i :: 0 <= i < 7 ==> SectionLoaded(layers[i], LayerParams(c), tp, r, owned, data, start, i)
    requires v == |owned| * c.nEmbd && w == |owned| * (c.nEmbd * c.nEmbd) && idx < |owned| && owned[idx]
    requires k == |owned| * (kv * c.nEmbd) && u == |owned| * (f * c.nEmbd)
    ensures LayerHeld(layers, c.nEmbd, kv, f, v, w, k, u, idx, LocalIndex(owned, idx), start, data, tp, r)
  {
    hide SectionLoaded, Size, LocalIndex, LayerParams, PartHeld, Begins, Lengths, Places, LayerHeld, FfnHidden, KvRows,
         Sane;
    var n := c.nEmbd;
    var packed, square, wide := n * n + 2 * (kv * n), n * n, f * n;
    LengthsAreSizes(c);
    BeginsFollow(n, kv * n, square, wide, |owned|, v, w, k, u);
    PlacesAre(n, packed, square, wide, v, w, k, u, idx, start);
    var j, ps, lengths, begins :=
        LocalIndex(owned, idx), LayerParams(c), Lengths(n, packed, square, wide), Begins(v, w, k, u);
    var places := Places(n, packed, square, wide, v, w, k, u, idx, start);
    forall i | 0 <= i < 7
      ensures j < |layers[i]| && PartHeld(ps[i], layers[i][j], data, places[i], tp, r)
    {
      PlaceIsHeld(layers[i], ps, lengths, begins, tp, r, owned, data, start, i, idx);
    }
    WrittenOut(layers, c, kv, f, packed, square, wide, v, w, k, u, idx, j, start, data, tp, r);
  }

  /** The width of the layers' part: 2 n + 2 n^2 + 2 kv n + 3 f n numbers for each layer. */
  function LayersWidth(c: Config): nat
    requires Sane(c)
  {
    var n, kv, f := c.nEmbd, KvRows(c), FfnHidden(c);
    LayerEnds(c.nLayer, 2 * n + 2 * (n * n) + 2 * (kv * n) + 3 * (f * n));
    c.nLayer * (2 * n + 2 * (n * n) + 2 * (kv * n) + 3 * (f * n))
  }

  /** The whole file: the layers between the embedding and the final norm, then the head. */
  lemma FileSizeWrittenOut(c: Config)
    requires Sane(c)
    ensures FileSize(c) == c.vocabSize * c.nEmbd + LayersWidth(c) + c.nEmbd + c.vocabSize * c.nEmbd
    ensures LayersEnd(c) + c.nEmbd + c.vocabSize * c.nEmbd == FileSize(c)
  {
    var n, count, kv, f := c.nEmbd, c.nLayer, KvRows(c), FfnHidden(c);
    hide LayerParams, Size, Extent, FfnHidden, KvRows, Sane, Lengths;
    LengthsAreSizes(c);
    LayersExtent(LayerParams(c), n, kv * n, n * n, f * n, count);
  }

  lemma LayersExtent(ps: seq<Param>, n: nat, kvSquare: nat, square: nat, wide: nat, count: nat)
    requires var lengths := Lengths(n, square + 2 * kvSquare, square, wide);
             |ps| == |lengths| == 7 && forall i :: 0 <= i < 7 ==> Size(ps[i]) == lengths[i]
    ensures Extent(ps, count, 7) == count * (2 * n + 2 * square + 2 * kvSquare + 3 * wide)
  {
    hide Size, Extent, Lengths;
    var v, w, k, u := count * n, count * square, count * kvSquare, count * wide;
    BeginsFollow(n, kvSquare, square, wide, count, v, w, k, u);
    BeginsAt(ps, count, Lengths(n, square + 2 * kvSquare, square, wide), Begins(v, w, k, u), 7);
    EachLayer(n, square, kvSquare, wide, count);
  }

  lemma EachLayer(n: nat, s: nat, k: nat, u: nat, count: nat)
    ensures count * (2 * n + 2 * s + 2 * k + 3 * u) ==
            2 * (count * n) + 2 * (count * s) + 2 * (count * k) + 3 * (count * u)
  {
  }

  /** The embedding, the final norm and the head on a rank, against the file written out. */
  ghost predicate ModulesHeld(m: Model, c: Config, tp: nat, r: nat, own: Ownership, data: seq<real>, base: nat,
                              e: nat) {
    var n := c.nEmbd;
    && (m.wte.Some? <==> own.embedding) && (m.lnF.Some? <==> own.finalNorm) && (m.lmHead.Some? <==> own.lmHead)
    && (m.wte.Some? ==> RowBlock(m.wte.value, data, base, c.vocabSize, n, tp, r))
    && (m.lnF.Some? ==> Whole(m.lnF.value, data, base + c.vocabSize * n + e, n))
    && (m.lmHead.Some? ==> RowBlock(m.lmHead.value, data, base + c.vocabSize * n + e + n, c.vocabSize, n, tp, r))
  }

  lemma ModulesAreHeld(m: Model, c: Config, tp: nat, r: nat, own: Ownership, data: seq<real>, base: nat)
    requires Sane(c) && Loaded(m, c, tp, r, own, data, base)
    ensures ModulesHeld(m, c, tp, r, own, data, base, LayersWidth(c))
  {
    FileSizeWrittenOut(c);
    hide LayersLoaded, Local, Full, LayersEnd, RowBlock, Extent, Sane, LayersWidth;
    HeldIsPart(m.wte, own.embedding, RowSplit(c.vocabSize, c.nEmbd), tp, r, data, base);
    HeldIsPart(m.lnF, own.finalNorm, Replicated(c.nEmbd), tp, r, data, base + LayersEnd(c));
    HeldIsPart(m.lmHead, own.lmHead, RowSplit(c.vocabSize, c.nEmbd), tp, r, data, base + LayersEnd(c) + c.nEmbd);
  }

  /** All of it: the special modules, and every owned layer at its local index. */
  ghost predicate LoadedAsWritten(m: Model, c: Config, tp: nat, r: nat, own: Ownership, data: seq<real>, base: nat)
    requires Sane(c) && |own.layers| == c.nLayer
  {
    var n, count, kv, f := c.nEmbd, c.nLayer, KvRows(c), FfnHidden(c);
    && ModulesHeld(m, c, tp, r, own, data, base, LayersWidth(c))
    && forall idx :: 0 <= idx < count && own.layers[idx] ==>
         LayerHeld(m.layers, n, kv, f, count * n, count * (n * n), count * (kv * n), count * (f * n), idx,
                   LocalIndex(own.layers, idx), base + c.vocabSize * n, data, tp, r)
  }

  lemma LoadedIsAsWritten(m: Model, c: Config, tp: nat, r: nat, own: Ownership, data: seq<real>, base: nat)
    requires Sane(c) && Loaded(m, c, tp, r, own, data, base) && |own.layers| == c.nLayer
    ensures LoadedAsWritten(m, c, tp, r, own, data, base)
  {
    hide LayersLoaded, Held, ModulesHeld, LayerHeld, LocalIndex, KvRows, FfnHidden, LayersWidth;
    ModulesAreHeld(m, c, tp, r, own, data, base);
    var n, count, kv, f := c.nEmbd, c.nLayer, KvRows(c), FfnHidden(c);
    forall idx | 0 <= idx < count && own.layers[idx]
      ensures LayerHeld(m.layers, n, kv, f, count * n, count * (n * n), count * (kv * n), count * (f * n), idx,
                        LocalIndex(own.layers, idx), base + c.vocabSize * n, data, tp, r)
    {
      LayerIsHeld(m.layers, c, tp, r, own, data, base, kv, f, count * n, count * (n * n), count * (kv * n),
                  count * (f * n), idx);
    }
  }

  // ---------------------------------------------------------------- all ranks together

  /** The models that the ranks of one stage have loaded. */
  ghost predicate StageLoaded(ms: seq<Model>, c: Config, tp: nat, own: Ownership, data: seq<real>, base: nat) {
    && tp > 0 && |ms| == tp && Checks(c, tp, own.layers) && |own.layers| == c.nLayer
    && forall r :: 0 <= r < tp ==> Loaded(ms[r], c, tp, r, own, data, base)
  }

  /** Parameter k of the layers, on every rank. */
  function Sections(ms: seq<Model>, k: nat): (s: seq<seq<seq<real>>>)
    requires forall r :: 0 <= r < |ms| ==> k < |ms[r].layers|
    ensures |s| == |ms|
  {
    seq(|ms|, r requires 0 <= r < |ms| => ms[r].layers[k])
  }

  /** Whenever the ranks of a stage have loaded the file, every layer's parameters reassemble from their tensors. */
  lemma LayersReassemble(ms: seq<Model>, c: Config, tp: nat, own: Ownership, data: seq<real>, base: nat, k: nat,
                         idx: nat)
    requires StageLoaded(ms, c, tp, own, data, base) && k < 7 && idx < |own.layers| && own.layers[idx]
    ensures forall r :: 0 <= r < |ms| ==> k < |ms[r].layers|
    ensures LayerReassembles(LayerParams(c), tp, own.layers, data, base + LayersStart(c), k, idx, Sections(ms, k))
  {
    ParamCount(c);
    LayersDivide(c, tp, own.layers, k);
    hide Held, SectionLoaded, LayerParams, LayersStart, LayersEnd, Divides, LayerReassembles, LayerBuilds;
    forall r | 0 <= r < tp
      ensures k < |ms[r].layers|
      ensures SectionLoaded(ms[r].layers[k], LayerParams(c), tp, r, own.layers, data, base + LayersStart(c), k)
    {
      assert Loaded(ms[r], c, tp, r, own, data, base);
    }
    SectionReassembles(LayerParams(c), tp, own.layers, data, base + LayersStart(c), k, idx, Sections(ms, k));
  }

  /** So do the embedding, the final norm and the head, on the stages that own them. */
  lemma ModulesReassemble(ms: seq<Model>, c: Config, tp: nat, own: Ownership, data: seq<real>, base: nat)
    requires StageLoaded(ms, c, tp, own, data, base)
    ensures own.embedding ==>
              ModuleReassembles(RowSplit(c.vocabSize, c.nEmbd), tp, seq(tp, r requires 0 <= r < tp => ms[r].wte), data,
                base)
    ensures own.finalNorm ==>
              ModuleReassembles(Replicated(c.nEmbd), tp, seq(tp, r requires 0 <= r < tp => ms[r].lnF), data,
                base + LayersEnd(c))
    ensures own.lmHead ==>
              ModuleReassembles(RowSplit(c.vocabSize, c.nEmbd), tp, seq(tp, r requires 0 <= r < tp => ms[r].lmHead),
                                data, base + LayersEnd(c) + c.nEmbd)
  {
    hide Held, ModuleReassembles, LayersLoaded, LayersEnd, LayerBuilds;
    var vocab := RowSplit(c.vocabSize, c.nEmbd);
    if own.embedding {
      HeldReassembles(vocab, tp, seq(tp, r requires 0 <= r < tp => ms[r].wte), true, data, base);
    }
    if own.finalNorm {
      HeldReassembles(Replicated(c.nEmbd), tp, seq(tp, r requires 0 <= r < tp => ms[r].lnF), true, data,
        base + LayersEnd(c));
    }
    if own.lmHead {
      HeldReassembles(vocab, tp, seq(tp, r requires 0 <= r < tp => ms[r].lmHead), true, data,
        base + LayersEnd(c) + c.nEmbd);
    }
  }

  // ---------------------------------------------------------------- what the ranks compute together

  /** On every rank of the stage the tensors at place j are its parts of layer idx. */
  ghost predicate LayerShared(ms: seq<Model>, n: nat, kv: nat, f: nat, v: nat, w: nat, k: nat, u: nat, idx: nat, j: nat,
                              start: nat, data: seq<real>, tp: nat) {
    && tp > 0 && |ms| == tp && n % tp == 0 && kv % tp == 0 && f % tp == 0
    && forall r :: 0 <= r < tp ==> LayerHeld(ms[r].layers, n, kv, f, v, w, k, u, idx, j, start, data, tp, r)
  }

  lemma StageSharesLayers(ms: seq<Model>, c: Config, tp: nat, own: Ownership, data: seq<real>, base: nat, kv: nat,
                          f: nat, v: nat, w: nat, k: nat, u: nat, idx: nat)
    requires StageLoaded(ms, c, tp, own, data, base) && idx < c.nLayer && own.layers[idx]
    requires kv == KvRows(c) && f == FfnHidden(c) && v == c.nLayer * c.nEmbd && w == c.nLayer * (c.nEmbd * c.nEmbd)
    requires k == c.nLayer * (kv * c.nEmbd) && u == c.nLayer * (f * c.nEmbd)
    ensures LayerShared(ms, c.nEmbd, kv, f, v, w, k, u, idx, LocalIndex(own.layers, idx), base + c.vocabSize * c.nEmbd,
                        data, tp)
  {
    hide LayersLoaded, Held, LayerHeld, LocalIndex, FfnHidden, LayerParams;
    LayersDivide(c, tp, own.layers, 1);
    LayersDivide(c, tp, own.layers, 4);
    ThreeDivide(c, tp);
    forall r | 0 <= r < tp
      ensures LayerHeld(ms[r].layers, c.nEmbd, kv, f, v, w, k, u, idx, LocalIndex(own.layers, idx),
                        base + c.vocabSize * c.nEmbd, data, tp, r)
    {
      LayerIsHeld(ms[r].layers, c, tp, r, own, data, base, kv, f, v, w, k, u, idx);
    }
  }

  lemma ThreeDivide(c: Config, tp: nat)
    requires tp > 0 && Sane(c) && |LayerParams(c)| == 7
    requires Divides(LayerParams(c)[1], tp) && Divides(LayerParams(c)[4], tp)
    ensures c.nEmbd % tp == 0 && KvRows(c) % tp == 0 && FfnHidden(c) % tp == 0
  {
    hide FfnHidden;
  }

  ghost predicate TensorsThere(ms: seq<Model>, j: nat) {
    forall r :: 0 <= r < |ms| ==> |ms[r].layers| == 7 && forall k :: 0 <= k < 7 ==> j < |ms[r].layers[k]|
  }

  lemma SharedTensorsThere(ms: seq<Model>, n: nat, kv: nat, f: nat, v: nat, w: nat, k: nat, u: nat, idx: nat, j: nat,
                           start: nat, data: seq<real>, tp: nat)
    requires LayerShared(ms, n, kv, f, v, w, k, u, idx, j, start, data, tp)
    ensures TensorsThere(ms, j)
  {
    hide PackedBlock, ColumnBlock, RowBlock, Whole;
  }

  /** The ranks' tensors of parameter k at place j. */
  function AtPlace(ms: seq<Model>, k: nat, j: nat): (s: seq<seq<real>>)
    requires forall r :: 0 <= r < |ms| ==> k < |ms[r].layers| && j < |ms[r].layers[k]|
    ensures |s| == |ms|
  {
    seq(|ms|, r requires 0 <= r < |ms| => ms[r].layers[k][j])
  }

  /**
   * attn.c_attn on rank r, on the whole input: its q, k and v are the rank's shares of the q, k and v that
   * the full weight gives, with fewer columns in k and v where heads are shared.
   */
  lemma AttentionComputes(ms: seq<Model>, n: nat, kv: nat, f: nat, v: nat, w: nat, k: nat, u: nat, idx: nat, j: nat,
                          start: nat, data: seq<real>, tp: nat, r: nat, a: nat, b: nat, x: seq<real>, rows: nat,
                          weight: seq<real>)
    requires LayerShared(ms, n, kv, f, v, w, k, u, idx, j, start, data, tp) && r < tp && a == n / tp && b == kv / tp
    requires Whole(weight, data, start + v + idx * (n * n + 2 * (kv * n)), (n + kv + kv) * n)
    ensures TensorsThere(ms, j)
    ensures PackedOutput(Linear(x, ms[r].layers[1][j], true, None, rows, n, a + b + b),
                         Linear(x, weight, true, None, rows, n, n + kv + kv), rows, n, kv, a, b, r)
  {
    SharedTensorsThere(ms, n, kv, f, v, w, k, u, idx, j, start, data, tp);
    assert LayerHeld(ms[r].layers, n, kv, f, v, w, k, u, idx, j, start, data, tp, r);
    hide PackedBlock, ColumnBlock, RowBlock, Whole, PackedOutput, Linear;
    PackedComputes(x, ms[r].layers[1][j], None, data, start + v + idx * (n * n + 2 * (kv * n)), 0, weight, None, rows,
      n,
                   n, kv, a, b, tp, r);
  }

  lemma ProjectionsHeld(ms: seq<Model>, n: nat, kv: nat, f: nat, v: nat, w: nat, k: nat, u: nat, idx: nat, j: nat,
                        start: nat, data: seq<real>, tp: nat, at: nat)
    requires LayerShared(ms, n, kv, f, v, w, k, u, idx, j, start, data, tp)
    requires at == start + v + w + 2 * k + idx * (n * n)
    ensures TensorsThere(ms, j)
    ensures forall s :: 0 <= s < tp ==> ColumnBlock(ms[s].layers[2][j], data, at, n, n, tp, s)
  {
    SharedTensorsThere(ms, n, kv, f, v, w, k, u, idx, j, start, data, tp);
    hide PackedBlock, ColumnBlock, RowBlock, Whole;
    forall s | 0 <= s < tp
      ensures ColumnBlock(ms[s].layers[2][j], data, at, n, n, tp, s)
    {
      assert LayerHeld(ms[s].layers, n, kv, f, v, w, k, u, idx, j, start, data, tp, s);
    }
  }

  /** attn.c_proj on the ranks' shares of the input's columns: the outputs add up to that of the full weight. */
  lemma AttentionProjectionComputes(ms: seq<Model>, n: nat, kv: nat, f: nat, v: nat, w: nat, k: nat, u: nat, idx: nat,
                                    j: nat, start: nat, data: seq<real>, tp: nat, m: nat, x: seq<real>,
                                    xs: seq<seq<real>>, rows: nat, weight: seq<real>, i: nat, o: nat)
    requires LayerShared(ms, n, kv, f, v, w, k, u, idx, j, start, data, tp) && m == n / tp && |x| == rows * n
    requires Whole(weight, data, start + v + w + 2 * k + idx * (n * n), n * n) && i < rows && o < n
    requires |xs| == tp && forall s :: 0 <= s < tp ==> ColumnBlock(xs[s], x, 0, rows, n, tp, s)
    ensures TensorsThere(ms, j)
    ensures At(Linear(x, weight, true, None, rows, n, n), i * n + o) ==
            Sum(tp, RankOutputs(xs, AtPlace(ms, 2, j), rows, m, n, i * n + o))
  {
    var at := start + v + w + 2 * k + idx * (n * n);
    ProjectionsHeld(ms, n, kv, f, v, w, k, u, idx, j, start, data, tp, at);
    hide LayerHeld, ColumnBlock, Whole, Linear, Sum, At;
    RowParallelSums(x, xs, data, at, AtPlace(ms, 2, j), weight, rows, n, n, m, tp, i, o);
  }

  /** mlp.c_fc and mlp.c_fc2 on rank r: their outputs are the rank's shares of the columns of the full ones. */
  lemma UpProjectionsCompute(ms: seq<Model>, n: nat, kv: nat, f: nat, v: nat, w: nat, k: nat, u: nat, idx: nat, j: nat,
                             start: nat, data: seq<real>, tp: nat, r: nat, m: nat, x: seq<real>, rows: nat,
                             up: seq<real>, gate: seq<real>)
    requires LayerShared(ms, n, kv, f, v, w, k, u, idx, j, start, data, tp) && r < tp && m == f / tp
    requires Whole(up, data, start + 2 * v + 2 * w + 2 * k + idx * (f * n), f * n)
    requires Whole(gate, data, start + 2 * v + 2 * w + 2 * k + u + idx * (f * n), f * n)
    ensures TensorsThere(ms, j)
    ensures ColumnBlock(Linear(x, ms[r].layers[4][j], true, None, rows, n, m), Linear(x, up, true, None, rows, n, f), 0,
                        rows, f, tp, r)
    ensures ColumnBlock(Linear(x, ms[r].layers[5][j], true, None, rows, n, m), Linear(x, gate, true, None, rows, n, f),
                        0, rows, f, tp, r)
  {
    SharedTensorsThere(ms, n, kv, f, v, w, k, u, idx, j, start, data, tp);
    assert LayerHeld(ms[r].layers, n, kv, f, v, w, k, u, idx, j, start, data, tp, r);
    hide LayerHeld, PackedBlock, ColumnBlock, RowBlock, Whole, Linear;
    ColumnParallelComputes(x, ms[r].layers[4][j], None, data, start + 2 * v + 2 * w + 2 * k + idx * (f * n), 0, up,
      None,
      rows, n, f, m, tp, r);
    ColumnParallelComputes(x, ms[r].layers[5][j], None, data, start + 2 * v + 2 * w + 2 * k + u + idx * (f * n), 0,
      gate,
      None, rows, n, f, m, tp, r);
  }

  /** The gated hidden columns: c_fc times the activated c_fc2. */
  function Gated(silu: real -> real, x: seq<real>, up: seq<real>, gate: seq<real>, rows: nat, n: nat, m: nat)
    : seq<real> {
    Multiplied(Linear(x, up, true, None, rows, n, m), Activated(silu, Linear(x, gate, true, None, rows, n, m)))
  }

  function GatedParts(ms: seq<Model>, silu: real -> real, x: seq<real>, rows: nat, n: nat, m: nat, j: nat)
    : (s: seq<seq<real>>)
    requires TensorsThere(ms, j)
    ensures |s| == |ms|
  {
    seq(|ms|, r requires 0 <= r < |ms| => Gated(silu, x, ms[r].layers[4][j], ms[r].layers[5][j], rows, n, m))
  }

  lemma GatedPartIsShare(ms: seq<Model>, n: nat, kv: nat, f: nat, v: nat, w: nat, k: nat, u: nat, idx: nat, j: nat,
                         start: nat, data: seq<real>, tp: nat, r: nat, m: nat, silu: real -> real, x: seq<real>,
                         rows: nat, up: seq<real>, gate: seq<real>)
    requires LayerShared(ms, n, kv, f, v, w, k, u, idx, j, start, data, tp) && r < tp && m == f / tp
    requires Whole(up, data, start + 2 * v + 2 * w + 2 * k + idx * (f * n), f * n)
    requires Whole(gate, data, start + 2 * v + 2 * w + 2 * k + u + idx * (f * n), f * n)
    ensures TensorsThere(ms, j)
    ensures ColumnBlock(GatedParts(ms, silu, x, rows, n, m, j)[r], Gated(silu, x, up, gate, rows, n, f), 0, rows, f, tp,
                        r)
  {
    UpProjectionsCompute(ms, n, kv, f, v, w, k, u, idx, j, start, data, tp, r, m, x, rows, up, gate);
    hide LayerShared, ColumnBlock, Linear, Activated, Multiplied, Whole;
    var yr, y := Linear(x, ms[r].layers[4][j], true, None, rows, n, m), Linear(x, up, true, None, rows, n, f);
    var zr, z := Linear(x, ms[r].layers[5][j], true, None, rows, n, m), Linear(x, gate, true, None, rows, n, f);
    ActivatedColumns(silu, zr, z, rows, f, tp, r);
    MultipliedColumns(yr, Activated(silu, zr), y, Activated(silu, z), rows, f, tp, r);
  }

  /**
   * The whole MLP: the outputs of the ranks, each on the hidden columns that its own parts of c_fc and c_fc2
   * give, add up to the output of the MLP with the full weights of the file, whatever the activation.
   */
  lemma MlpComputes(ms: seq<Model>, n: nat, kv: nat, f: nat, v: nat, w: nat, k: nat, u: nat, idx: nat, j: nat,
                    start: nat, data: seq<real>, tp: nat, m: nat, silu: real -> real, x: seq<real>, rows: nat,
                    up: seq<real>, gate: seq<real>, down: seq<real>, i: nat, o: nat)
    requires LayerShared(ms, n, kv, f, v, w, k, u, idx, j, start, data, tp) && m == f / tp && i < rows && o < n
    requires Whole(up, data, start + 2 * v + 2 * w + 2 * k + idx * (f * n), f * n)
    requires Whole(gate, data, start + 2 * v + 2 * w + 2 * k + u + idx * (f * n), f * n)
    requires Whole(down, data, start + 2 * v + 2 * w + 2 * k + 2 * u + idx * (f * n), n * f)
    ensures TensorsThere(ms, j)
    ensures At(Linear(Gated(silu, x, up, gate, rows, n, f), down, true, None, rows, f, n), i * n + o) ==
            Sum(tp, RankOutputs(GatedParts(ms, silu, x, rows, n, m, j), AtPlace(ms, 6, j), rows, m, n, i * n + o))
  {
    SharedTensorsThere(ms, n, kv, f, v, w, k, u, idx, j, start, data, tp);
    var at := start + 2 * v + 2 * w + 2 * k + 2 * u + idx * (f * n);
    var xs, y := GatedParts(ms, silu, x, rows, n, m, j), Gated(silu, x, up, gate, rows, n, f);
    forall s | 0 <= s < tp
      ensures ColumnBlock(ms[s].layers[6][j], data, at, n, f, tp, s)
    {
      assert LayerHeld(ms[s].layers, n, kv, f, v, w, k, u, idx, j, start, data, tp, s);
    }
    hide LayerHeld, ColumnBlock, Whole, Linear, Sum, GatedParts;
    forall s | 0 <= s < tp
      ensures ColumnBlock(xs[s], y, 0, rows, f, tp, s)
    {
      GatedPartIsShare(ms, n, kv, f, v, w, k, u, idx, j, start, data, tp, s, m, silu, x, rows, up, gate);
    }
    RowParallelSums(y, xs, data, at, AtPlace(ms, 6, j), down, rows, f, n, m, tp, i, o);
  }
}
