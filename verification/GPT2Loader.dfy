/** The loader of GPT-2 model files: what it checks, what it reads, and that its ranks together hold the file. */
module GPT2Loader {
  import opened Wrappers
  import opened RealFacts
  import opened Shards
  import opened CheckpointLoader
  import opened HeldParts
  import opened RealSums
  import opened LoRA

  datatype Config = Config(blockSize: nat, vocabSize: nat, paddedVocabSize: nat, nLayer: nat, nHead: nat, nEmbd: nat)

  datatype Model = Model(
    wte: Option<seq<real>>, lmHead: Option<seq<real>>, wpe: Option<seq<real>>,
    layers: seq<seq<seq<real>>>, lnFWeight: Option<seq<real>>, lnFBias: Option<seq<real>>)

  /** ln_1, c_attn, c_proj, ln_2, mlp.c_fc and mlp.c_proj: weight and bias of each, in the order of the file. */
  function LayerParams(n: nat): seq<Param> {
    [Replicated(n), Replicated(n), QkvSplit(n, n, n), QkvSplit(1, n, n), ColSplit(n, n), Replicated(n),
     Replicated(n), Replicated(n), RowSplit(4 * n, n), RowSplit(4 * n, 1), ColSplit(n, 4 * n), Replicated(n)]
  }

  function ModelVocab(c: Config, tp: nat): nat {
    if tp > 1 then c.paddedVocabSize else c.vocabSize
  }

  // ---------------------------------------------------------------- the CHECKs

  /** n_kv_head of the default configuration, which the loader does not take from the file. */
  const KV_HEADS: nat := 12

  /** SanitizeGPT2Config. */
  predicate Sane(c: Config, tp: nat) {
    && c.blockSize > 0 && ModelVocab(c, tp) > 0 && c.vocabSize <= ModelVocab(c, tp)
    && c.nLayer > 0 && c.nHead > 0 && c.nEmbd > 0 && c.nEmbd % c.nHead == 0 && c.nHead == KV_HEADS
  }

  /** The constructors of a layer's attention and MLP. */
  predicate LayerBuilds(c: Config, tp: nat)
    requires tp > 0 && Sane(c, tp)
  {
    var headDim := c.nEmbd / c.nHead;
    && c.nHead % tp == 0 && (c.nHead + 2 * c.nHead) * headDim % tp == 0
    && c.nEmbd % tp == 0 && 4 * c.nEmbd > 0 && 4 * c.nEmbd % tp == 0
  }

  /**
   * Every CHECK on the way to the first parameter: the configuration, the constructor of the model and of
   * the stage's layers, and the loader itself.
   */
  predicate Checks(c: Config, tp: nat, layers: seq<bool>)
    requires tp > 0
  {
    && Sane(c, tp)
    && ModelVocab(c, tp) % tp == 0
    && (true in layers ==> LayerBuilds(c, tp))
    && c.nEmbd % tp == 0 && c.nEmbd % c.nHead == 0 && c.nHead % tp == 0
  }

  /** Of a stage's CHECKs, those of its layers follow from the others. */
  lemma ChecksExactlyWhen(c: Config, tp: nat, layers: seq<bool>)
    requires tp > 0
    ensures Checks(c, tp, layers) <==>
            Sane(c, tp) && ModelVocab(c, tp) % tp == 0 && c.nEmbd % tp == 0 && c.nHead % tp == 0
  {
    if Sane(c, tp) && c.nEmbd % tp == 0 && c.nHead % tp == 0 {
      var n := Per(c.nEmbd, tp);
      QuotientUnique(4 * c.nEmbd, tp, 4 * n, 0);
      QuotientUnique(3 * c.nEmbd, tp, 3 * n, 0);
      var d := c.nEmbd / c.nHead;
      assert c.nEmbd == d * c.nHead + c.nEmbd % c.nHead;
      assert (c.nHead + 2 * c.nHead) * d == 3 * c.nEmbd;
    }
  }

  /** A file of GPT-2 medium, with its sixteen heads, never loads; one of GPT-2 small does. */
  lemma MediumIsRejected(tp: nat, layers: seq<bool>)
    requires tp > 0
    ensures !Checks(Config(1024, 50257, 50304, 24, 16, 1024), tp, layers)
    ensures Checks(Config(1024, 50257, 50304, 12, 12, 768), 4, layers)
  {
    ChecksExactlyWhen(Config(1024, 50257, 50304, 12, 12, 768), 4, layers);
  }

  /** Every parameter of the layers is divisible when the CHECKs pass. */
  lemma LayersDivide(c: Config, tp: nat, layers: seq<bool>, k: nat)
    requires tp > 0 && Checks(c, tp, layers) && k < 12
    ensures |LayerParams(c.nEmbd)| == 12 && Divides(LayerParams(c.nEmbd)[k], tp)
  {
    var h := Per(c.nEmbd, tp);
    assert 4 * c.nEmbd == (4 * h) * tp;
    QuotientUnique(4 * c.nEmbd, tp, 4 * h, 0);
  }

  // ---------------------------------------------------------------- reading

  /** Where the layers' parameters begin, and the size of the whole file: the same for every rank and stage. */
  function LayersStart(c: Config): nat {
    c.paddedVocabSize * c.nEmbd + c.blockSize * c.nEmbd
  }

  function LayersEnd(c: Config): nat {
    LayersStart(c) + Extent(LayerParams(c.nEmbd), c.nLayer, 12)
  }

  function FileSize(c: Config): nat {
    LayersEnd(c) + c.nEmbd + c.nEmbd
  }

  lemma PaddedVocab(c: Config, tp: nat)
    requires tp > 0 && c.vocabSize <= c.paddedVocabSize
    ensures 0 <= ModelVocab(c, tp) * c.nEmbd <= c.paddedVocabSize * c.nEmbd && c.blockSize * c.nEmbd >= 0
    ensures tp == 1 ==>
            ModelVocab(c, tp) * c.nEmbd + (c.paddedVocabSize - ModelVocab(c, tp)) * c.nEmbd ==
              c.paddedVocabSize * c.nEmbd
  {
    AtMost(ModelVocab(c, tp), c.paddedVocabSize, c.nEmbd);
  }

  /** The token embedding, on the first stage or, tied, on the stage of the head; and the position embedding. */
  ghost predicate EmbeddingsLoaded(wte: Option<seq<real>>, lmHead: Option<seq<real>>, wpe: Option<seq<real>>,
                                   c: Config, tp: nat, r: nat, stages: nat, own: Ownership, data: seq<real>,
                                   base: nat) {
    var p := RowSplit(ModelVocab(c, tp), c.nEmbd);
    && Held(wte, own.embedding, p, tp, r, data, base)
    && Held(lmHead, !own.embedding && stages > 1 && own.lmHead, p, tp, r, data, base)
    && Held(wpe, own.embedding, Replicated(c.blockSize * c.nEmbd), tp, r, data, base + c.paddedVocabSize * c.nEmbd)
  }

  ghost predicate LayersLoaded(layers: seq<seq<seq<real>>>, c: Config, tp: nat, r: nat, own: Ownership, data: seq<real>,
                               base: nat) {
    |layers| == 12 && forall k :: 0 <= k < 12 ==>
      SectionLoaded(layers[k], LayerParams(c.nEmbd), tp, r, own.layers, data, base + LayersStart(c), k)
  }

  ghost predicate NormLoaded(w: Option<seq<real>>, b: Option<seq<real>>, c: Config, tp: nat, r: nat, own: Ownership,
                             data: seq<real>, base: nat) {
    && Held(w, own.finalNorm, Replicated(c.nEmbd), tp, r, data, base + LayersEnd(c))
    && Held(b, own.finalNorm, Replicated(c.nEmbd), tp, r, data, base + LayersEnd(c) + c.nEmbd)
  }

  /** Every tensor is this rank's part of what lies in the file at the parameter's place. */
  ghost predicate Loaded(m: Model, c: Config, tp: nat, r: nat, stages: nat, own: Ownership, data: seq<real>,
                         base: nat) {
    && EmbeddingsLoaded(m.wte, m.lmHead, m.wpe, c, tp, r, stages, own, data, base)
    && LayersLoaded(m.layers, c, tp, r, own, data, base)
    && NormLoaded(m.lnFWeight, m.lnFBias, c, tp, r, own, data, base)
  }

  /**
   * LoadFromLLMC: whatever the rank, the stage and the modules it owns, the cursor ends at the same
   * place, and every tensor is cut from where its parameter lies in the file. None where a CHECK fails.
   */
  method LoadFromLLMC(ifs: Stream, c: Config, tp: nat, r: nat, stages: nat, own: Ownership) returns (m: Option<Model>)
    requires tp > 0 && r < tp && |own.layers| == c.nLayer && (tp == 1 ==> c.vocabSize <= c.paddedVocabSize)
    requires ifs.pos + FileSize(c) <= |ifs.data|
    modifies ifs
    ensures m.Some? <==> Checks(c, tp, own.layers)
    ensures m.Some? ==> ifs.pos == old(ifs.pos) + FileSize(c)
    ensures m.Some? ==> Loaded(m.value, c, tp, r, stages, own, ifs.data, old(ifs.pos))
    ensures m.Some? ==> LoadedAsWritten(m.value, c, tp, r, stages, own, ifs.data, old(ifs.pos))
  {
    hide SectionLoaded, Extent, LayerParams, LayersStart, EmbeddingsLoaded, LayersLoaded, NormLoaded, LayerBuilds,
         LoadedAsWritten;
    if !Sane(c, tp) || ModelVocab(c, tp) % tp != 0 || (true in own.layers && !LayerBuilds(c, tp)) {
      return None;
    }
    if !(c.nEmbd % tp == 0 && c.nEmbd % c.nHead == 0 && c.nHead % tp == 0) {
      return None;
    }
    ghost var base := ifs.pos;
    ParamCount(c.nEmbd);
    var wte, lmHead, wpe := LoadEmbeddings(ifs, c, tp, r, stages, own);
    var layers := LoadSections(ifs, LayerParams(c.nEmbd), tp, r, own.layers);
    LayersAreLoaded(layers, c, tp, r, own, ifs.data, base);
    var w, b := LoadNorm(ifs, c, tp, r, own, base);
    m := Some(Model(wte, lmHead, wpe, layers, w, b));
    LoadedIsAsWritten(m.value, c, tp, r, stages, own, ifs.data, base);
  }

  lemma LayersAreLoaded(layers: seq<seq<seq<real>>>, c: Config, tp: nat, r: nat, own: Ownership, data: seq<real>,
                        base: nat)
    requires |layers| == |LayerParams(c.nEmbd)|
    requires forall k :: 0 <= k < |layers| ==>
             SectionLoaded(layers[k], LayerParams(c.nEmbd), tp, r, own.layers, data, base + LayersStart(c), k)
    ensures LayersLoaded(layers, c, tp, r, own, data, base)
  {
    ParamCount(c.nEmbd);
  }

  method LoadEmbeddings(ifs: Stream, c: Config, tp: nat, r: nat, stages: nat, own: Ownership)
    returns (wte: Option<seq<real>>, lmHead: Option<seq<real>>, wpe: Option<seq<real>>)
    requires tp > 0 && r < tp && c.vocabSize <= c.paddedVocabSize && ifs.pos + LayersStart(c) <= |ifs.data|
    modifies ifs
    ensures ifs.pos == old(ifs.pos) + LayersStart(c)
    ensures EmbeddingsLoaded(wte, lmHead, wpe, c, tp, r, stages, own, ifs.data, old(ifs.pos))
  {
    hide Local;
    PaddedVocab(c, tp);
    var n, vocab := c.nEmbd, ModelVocab(c, tp);
    wte, lmHead := None, None;
    if own.embedding {
      wte := LoadIf(ifs, true, RowSplit(vocab, n), tp, r);
    } else {
      lmHead := LoadIf(ifs, stages > 1 && own.lmHead, RowSplit(vocab, n), tp, r);
    }
    if tp == 1 {
      ifs.Seek(ifs.pos + (c.paddedVocabSize - vocab) * n);
    }
    wpe := LoadIf(ifs, own.embedding, Replicated(c.blockSize * n), tp, r);
  }

  method LoadNorm(ifs: Stream, c: Config, tp: nat, r: nat, own: Ownership, ghost base: nat)
    returns (w: Option<seq<real>>, b: Option<seq<real>>)
    requires tp > 0 && r < tp && ifs.pos == base + LayersEnd(c) && ifs.pos + c.nEmbd + c.nEmbd <= |ifs.data|
    modifies ifs
    ensures ifs.pos == old(ifs.pos) + c.nEmbd + c.nEmbd
    ensures NormLoaded(w, b, c, tp, r, own, ifs.data, base)
  {
    hide LayersEnd, Held;
    w := LoadIf(ifs, own.finalNorm, Replicated(c.nEmbd), tp, r);
    b := LoadIf(ifs, own.finalNorm, Replicated(c.nEmbd), tp, r);
  }

  lemma ParamCount(n: nat)
    ensures |LayerParams(n)| == 12
  {
  }

  // ---------------------------------------------------------------- the file, written out

  /**
   * What a rank holds of layer idx of count, at place j of its tensors, written out parameter by parameter.
   * The layers' parameters begin at start; v and w stand for count * n and count * n * n.
   */
  ghost predicate LayerHeld(ls: seq<seq<seq<real>>>, n: nat, v: nat, w: nat, idx: nat, j: nat, start: nat,
                            data: seq<real>, tp: nat, r: nat) {
    && |ls| == 12 && (forall k :: 0 <= k < 12 ==> j < |ls[k]|)
    // ln_1: weight and bias
    && Whole(ls[0][j], data, start + idx * n, n)
    && Whole(ls[1][j], data, start + v + idx * n, n)
    // attn.c_attn: weight and bias
    && PackedBlock(ls[2][j], data, start + 2 * v + idx * (3 * (n * n)), n, n, n, tp, r)
    && PackedBlock(ls[3][j], data, start + 2 * v + 3 * w + idx * (3 * n), 1, n, n, tp, r)
    // attn.c_proj: weight and bias
    && ColumnBlock(ls[4][j], data, start + 5 * v + 3 * w + idx * (n * n), n, n, tp, r)
    && Whole(ls[5][j], data, start + 5 * v + 4 * w + idx * n, n)
    // ln_2: weight and bias
    && Whole(ls[6][j], data, start + 6 * v + 4 * w + idx * n, n)
    && Whole(ls[7][j], data, start + 7 * v + 4 * w + idx * n, n)
    // mlp.c_fc: weight and bias
    && RowBlock(ls[8][j], data, start + 8 * v + 4 * w + idx * (4 * (n * n)), 4 * n, n, tp, r)
    && RowBlock(ls[9][j], data, start + 8 * v + 8 * w + idx * (4 * n), 4 * n, 1, tp, r)
    // mlp.c_proj: weight and bias
    && ColumnBlock(ls[10][j], data, start + 12 * v + 8 * w + idx * (4 * (n * n)), n, 4 * n, tp, r)
    && Whole(ls[11][j], data, start + 12 * v + 12 * w + idx * n, n)
  }

  /** The size of each parameter; where all layers' copies of it begin, and where the last one's end. */
  function Lengths(n: nat): seq<nat> {
    [n, n, 3 * (n * n), 3 * n, n * n, n, n, n, 4 * (n * n), 4 * n, 4 * (n * n), n]
  }

  function Begins(v: nat, w: nat): seq<nat> {
    [0, v, 2 * v, 2 * v + 3 * w, 5 * v + 3 * w, 5 * v + 4 * w, 6 * v + 4 * w, 7 * v + 4 * w,
     8 * v + 4 * w, 8 * v + 8 * w, 12 * v + 8 * w, 12 * v + 12 * w, 13 * v + 12 * w]
  }

  lemma LengthsAreSizes(n: nat)
    ensures |LayerParams(n)| == |Lengths(n)| == 12
    ensures forall k :: 0 <= k < 12 ==> Size(LayerParams(n)[k]) == Lengths(n)[k]
  {
    assert 4 * n * n == 4 * (n * n) == n * (4 * n);
  }

  lemma Multiples(count: nat, a: nat, v: nat)
    requires v == count * a
    ensures count * (3 * a) == 3 * v && count * (4 * a) == 4 * v
  {
  }

  lemma BeginsFollow(n: nat, count: nat, v: nat, w: nat)
    requires v == count * n && w == count * (n * n)
    ensures |Begins(v, w)| == 13 && |Lengths(n)| == 12 && Begins(v, w)[0] == 0
    ensures forall k :: 0 <= k < 12 ==> Begins(v, w)[k + 1] == Begins(v, w)[k] + count * Lengths(n)[k]
  {
    Multiples(count, n, v);
    Multiples(count, n * n, w);
    var products := [v, v, 3 * w, 3 * v, w, v, v, v, 4 * w, 4 * v, 4 * w, v];
    assert forall k :: 0 <= k < 12 ==> count * Lengths(n)[k] == products[k];
    hide Lengths;
  }

  /** Every owned layer's tensors are this rank's parts of what lies in the file at that layer's places. */
  lemma LayerIsHeld(layers: seq<seq<seq<real>>>, c: Config, tp: nat, r: nat, own: Ownership, data: seq<real>, base: nat,
                    v: nat, w: nat, idx: nat)
    requires LayersLoaded(layers, c, tp, r, own, data, base) && |own.layers| == c.nLayer
    requires v == c.nLayer * c.nEmbd && w == c.nLayer * (c.nEmbd * c.nEmbd) && idx < c.nLayer && own.layers[idx]
    ensures LayerHeld(layers, c.nEmbd, v, w, idx, LocalIndex(own.layers, idx),
                      base + c.paddedVocabSize * c.nEmbd + c.blockSize * c.nEmbd, data, tp, r)
  {
    hide SectionLoaded, LocalIndex, LayerParams, LayerHeld;
    SectionsAreHeld(layers, c.nEmbd, tp, r, own.layers, data, base + LayersStart(c), v, w, idx);
  }

  lemma SectionsAreHeld(layers: seq<seq<seq<real>>>, n: nat, tp: nat, r: nat, owned: seq<bool>, data: seq<real>,
                        start: nat, v: nat, w: nat, idx: nat)
    requires |layers| == 12
    requires forall k :: 0 <= k < 12 ==> SectionLoaded(layers[k], LayerParams(n), tp, r, owned, data, start, k)
    requires v == |owned| * n && w == |owned| * (n * n) && idx < |owned| && owned[idx]
    ensures LayerHeld(layers, n, v, w, idx, LocalIndex(owned, idx), start, data, tp, r)
  {
    hide SectionLoaded, Size, LocalIndex, LayerParams, PartHeld, Begins, Lengths, Places, LayerHeld;
    LengthsAreSizes(n);
    BeginsFollow(n, |owned|, v, w);
    PlacesAre(n, v, w, idx, start);
    var j, ps, lengths, begins := LocalIndex(owned, idx), LayerParams(n), Lengths(n), Begins(v, w);
    var places := Places(n, v, w, idx, start);
    forall k | 0 <= k < 12
      ensures j < |layers[k]| && PartHeld(ps[k], layers[k][j], data, places[k], tp, r)
    {
      PlaceIsHeld(layers[k], ps, lengths, begins, tp, r, owned, data, start, k, idx);
    }
    WrittenOut(layers, n, v, w, idx, j, start, data, tp, r);
  }

  function Places(n: nat, v: nat, w: nat, idx: nat, start: nat): seq<int> {
    [start + idx * n, start + v + idx * n, start + 2 * v + idx * (3 * (n * n)), start + 2 * v + 3 * w + idx * (3 * n),
     start + 5 * v + 3 * w + idx * (n * n), start + 5 * v + 4 * w + idx * n, start + 6 * v + 4 * w + idx * n,
     start + 7 * v + 4 * w + idx * n, start + 8 * v + 4 * w + idx * (4 * (n * n)),
     start + 8 * v + 8 * w + idx * (4 * n), start + 12 * v + 8 * w + idx * (4 * (n * n)),
     start + 12 * v + 12 * w + idx * n]
  }

  lemma PlacesAre(n: nat, v: nat, w: nat, idx: nat, start: nat)
    ensures |Places(n, v, w, idx, start)| == 12 && |Begins(v, w)| == 13 && |Lengths(n)| == 12
    ensures forall k :: 0 <= k < 12 ==>
              Places(n, v, w, idx, start)[k] == start + Begins(v, w)[k] + idx * Lengths(n)[k]
  {
  }

  lemma WrittenOut(ls: seq<seq<seq<real>>>, n: nat, v: nat, w: nat, idx: nat, j: nat, start: nat, data: seq<real>,
                   tp: nat, r: nat)
    requires |ls| == |LayerParams(n)| == |Places(n, v, w, idx, start)| == 12
    requires forall k :: 0 <= k < 12 ==> j < |ls[k]|
    requires forall k :: 0 <= k < 12 ==>
               PartHeld(LayerParams(n)[k], ls[k][j], data, Places(n, v, w, idx, start)[k], tp, r)
    ensures LayerHeld(ls, n, v, w, idx, j, start, data, tp, r)
  {
    hide RowBlock, ColumnBlock, PackedBlock, Whole;
  }

  /** The whole file: 12 n^2 + 13 n numbers for each layer, between the embeddings and the final norm. */
  lemma FileSizeWrittenOut(c: Config)
    ensures FileSize(c) == c.paddedVocabSize * c.nEmbd + c.blockSize * c.nEmbd +
                           c.nLayer * (12 * (c.nEmbd * c.nEmbd) + 13 * c.nEmbd) + 2 * c.nEmbd
    ensures LayersEnd(c) + 2 * c.nEmbd == FileSize(c)
  {
    var n, count := c.nEmbd, c.nLayer;
    var v, w := count * n, count * (n * n);
    hide LayerParams, Size, Extent;
    LengthsAreSizes(n);
    BeginsFollow(n, count, v, w);
    BeginsAt(LayerParams(n), count, Lengths(n), Begins(v, w), 12);
    EachLayer(n * n, n, count);
  }

  lemma EachLayer(s: nat, n: nat, count: nat)
    ensures count * (12 * s + 13 * n) == 12 * (count * s) + 13 * (count * n)
  {
  }

  /** The embeddings and the final norm on a rank, against the file written out; e is the width of the layers' part. */
  ghost predicate ModulesHeld(m: Model, c: Config, tp: nat, r: nat, stages: nat, own: Ownership, data: seq<real>,
                              base: nat, e: nat) {
    var n := c.nEmbd;
    var vocab := if tp > 1 then c.paddedVocabSize else c.vocabSize;
    && (m.wte.Some? <==> own.embedding) && (m.wpe.Some? <==> own.embedding)
    && (m.lmHead.Some? <==> own.lmHead && !own.embedding && stages > 1)
    && (m.lnFWeight.Some? <==> own.finalNorm) && (m.lnFBias.Some? <==> own.finalNorm)
    && (m.wte.Some? ==> RowBlock(m.wte.value, data, base, vocab, n, tp, r))
    && (m.lmHead.Some? ==> RowBlock(m.lmHead.value, data, base, vocab, n, tp, r))
    && (m.wpe.Some? ==> Whole(m.wpe.value, data, base + c.paddedVocabSize * n, c.blockSize * n))
    && var end := base + c.paddedVocabSize * n + c.blockSize * n + e;
      && (m.lnFWeight.Some? ==> Whole(m.lnFWeight.value, data, end, n))
      && (m.lnFBias.Some? ==> Whole(m.lnFBias.value, data, end + n, n))
  }

  lemma ModulesAreHeld(m: Model, c: Config, tp: nat, r: nat, stages: nat, own: Ownership, data: seq<real>, base: nat)
    requires Loaded(m, c, tp, r, stages, own, data, base)
    ensures ModulesHeld(m, c, tp, r, stages, own, data, base,
                        c.nLayer * (12 * (c.nEmbd * c.nEmbd) + 13 * c.nEmbd))
  {
    FileSizeWrittenOut(c);
    hide LayersLoaded, Local, Full, LayersEnd, RowBlock, Extent;
    HeldIsPart(m.wte, own.embedding, RowSplit(ModelVocab(c, tp), c.nEmbd), tp, r, data, base);
    HeldIsPart(m.lmHead, !own.embedding && stages > 1 && own.lmHead, RowSplit(ModelVocab(c, tp), c.nEmbd), tp, r, data,
               base);
    HeldIsPart(m.wpe, own.embedding, Replicated(c.blockSize * c.nEmbd), tp, r, data,
      base + c.paddedVocabSize * c.nEmbd);
    HeldIsPart(m.lnFWeight, own.finalNorm, Replicated(c.nEmbd), tp, r, data, base + LayersEnd(c));
    HeldIsPart(m.lnFBias, own.finalNorm, Replicated(c.nEmbd), tp, r, data, base + LayersEnd(c) + c.nEmbd);
  }

  /** All of it: the special modules, and every owned layer at its local index. */
  ghost predicate LoadedAsWritten(m: Model, c: Config, tp: nat, r: nat, stages: nat, own: Ownership, data: seq<real>,
                                  base: nat)
    requires |own.layers| == c.nLayer
  {
    var n, count := c.nEmbd, c.nLayer;
    var v, w := count * n, count * (n * n);
    && ModulesHeld(m, c, tp, r, stages, own, data, base, count * (12 * (n * n) + 13 * n))
    && forall idx :: 0 <= idx < count && own.layers[idx] ==>
         LayerHeld(m.layers, n, v, w, idx, LocalIndex(own.layers, idx),
                   base + c.paddedVocabSize * n + c.blockSize * n, data, tp, r)
  }

  lemma LoadedIsAsWritten(m: Model, c: Config, tp: nat, r: nat, stages: nat, own: Ownership, data: seq<real>, base: nat)
    requires Loaded(m, c, tp, r, stages, own, data, base) && |own.layers| == c.nLayer
    ensures LoadedAsWritten(m, c, tp, r, stages, own, data, base)
  {
    hide LayersLoaded, EmbeddingsLoaded, NormLoaded, ModulesHeld, LayerHeld, LocalIndex;
    ModulesAreHeld(m, c, tp, r, stages, own, data, base);
    var n, count := c.nEmbd, c.nLayer;
    forall idx | 0 <= idx < count && own.layers[idx]
      ensures LayerHeld(m.layers, n, count * n, count * (n * n), idx, LocalIndex(own.layers, idx),
                        base + c.paddedVocabSize * n + c.blockSize * n, data, tp, r)
    {
      LayerIsHeld(m.layers, c, tp, r, own, data, base, count * n, count * (n * n), idx);
    }
  }

  // ---------------------------------------------------------------- all ranks together

  /** The models that the ranks of one stage have loaded. */
  ghost predicate StageLoaded(ms: seq<Model>, c: Config, tp: nat, stages: nat, own: Ownership, data: seq<real>,
                              base: nat) {
    && tp > 0 && |ms| == tp && Checks(c, tp, own.layers) && |own.layers| == c.nLayer
    && forall r :: 0 <= r < tp ==> Loaded(ms[r], c, tp, r, stages, own, data, base)
  }

  /** Parameter k of the layers, on every rank. */
  function Sections(ms: seq<Model>, k: nat): (s: seq<seq<seq<real>>>)
    requires forall r :: 0 <= r < |ms| ==> k < |ms[r].layers|
    ensures |s| == |ms|
  {
    seq(|ms|, r requires 0 <= r < |ms| => ms[r].layers[k])
  }

  /** Whenever the ranks of a stage have loaded the file, every layer's parameters reassemble from their tensors. */
  lemma LayersReassemble(ms: seq<Model>, c: Config, tp: nat, stages: nat, own: Ownership, data: seq<real>, base: nat,
                         k: nat, idx: nat)
    requires StageLoaded(ms, c, tp, stages, own, data, base) && k < 12 && idx < |own.layers| && own.layers[idx]
    ensures forall r :: 0 <= r < |ms| ==> k < |ms[r].layers|
    ensures LayerReassembles(LayerParams(c.nEmbd), tp, own.layers, data, base + LayersStart(c), k, idx, Sections(ms, k))
  {
    ParamCount(c.nEmbd);
    LayersDivide(c, tp, own.layers, k);
    hide EmbeddingsLoaded, NormLoaded, SectionLoaded, LayerParams, LayersStart, Divides, LayerReassembles, Checks;
    forall r | 0 <= r < tp
      ensures k < |ms[r].layers|
      ensures SectionLoaded(ms[r].layers[k], LayerParams(c.nEmbd), tp, r, own.layers, data, base + LayersStart(c), k)
    {
      assert Loaded(ms[r], c, tp, r, stages, own, data, base);
    }
    SectionReassembles(LayerParams(c.nEmbd), tp, own.layers, data, base + LayersStart(c), k, idx, Sections(ms, k));
  }

  /** So do the embeddings, the head and the final norm, on the stages that own them. */
  lemma ModulesReassemble(ms: seq<Model>, c: Config, tp: nat, stages: nat, own: Ownership, data: seq<real>, base: nat)
    requires StageLoaded(ms, c, tp, stages, own, data, base)
    ensures own.embedding ==>
              && ModuleReassembles(RowSplit(ModelVocab(c, tp), c.nEmbd), tp,
                seq(tp, r requires 0 <= r < tp => ms[r].wte), data, base)
              && ModuleReassembles(Replicated(c.blockSize * c.nEmbd), tp, seq(tp, r requires 0 <= r < tp => ms[r].wpe),
                                   data, base + c.paddedVocabSize * c.nEmbd)
    ensures !own.embedding && stages > 1 && own.lmHead ==>
              ModuleReassembles(RowSplit(ModelVocab(c, tp), c.nEmbd), tp,
                seq(tp, r requires 0 <= r < tp => ms[r].lmHead), data, base)
    ensures own.finalNorm ==>
              && ModuleReassembles(Replicated(c.nEmbd), tp, seq(tp, r requires 0 <= r < tp => ms[r].lnFWeight), data,
                base + LayersEnd(c))
              && ModuleReassembles(Replicated(c.nEmbd), tp, seq(tp, r requires 0 <= r < tp => ms[r].lnFBias),
                                   data, base + LayersEnd(c) + c.nEmbd)
  {
    hide Held, ModuleReassembles, LayersLoaded, LayersEnd;
    var vocab, n := RowSplit(ModelVocab(c, tp), c.nEmbd), Replicated(c.nEmbd);
    forall r | 0 <= r < tp
      ensures EmbeddingsLoaded(ms[r].wte, ms[r].lmHead, ms[r].wpe, c, tp, r, stages, own, data, base)
      ensures NormLoaded(ms[r].lnFWeight, ms[r].lnFBias, c, tp, r, own, data, base)
    {
      assert Loaded(ms[r], c, tp, r, stages, own, data, base);
    }
    if own.embedding {
      HeldReassembles(vocab, tp, seq(tp, r requires 0 <= r < tp => ms[r].wte), true, data, base);
      HeldReassembles(Replicated(c.blockSize * c.nEmbd), tp, seq(tp, r requires 0 <= r < tp => ms[r].wpe),
                      true, data, base + c.paddedVocabSize * c.nEmbd);
    } else if stages > 1 && own.lmHead {
      HeldReassembles(vocab, tp, seq(tp, r requires 0 <= r < tp => ms[r].lmHead), true, data, base);
    }
    if own.finalNorm {
      HeldReassembles(n, tp, seq(tp, r requires 0 <= r < tp => ms[r].lnFWeight), true, data, base + LayersEnd(c));
      HeldReassembles(n, tp, seq(tp, r requires 0 <= r < tp => ms[r].lnFBias), true, data,
        base + LayersEnd(c) + c.nEmbd);
    }
  }

  // ---------------------------------------------------------------- what the ranks compute together

  /** On every rank of the stage the tensors at place j are its parts of layer idx. */
  ghost predicate LayerShared(ms: seq<Model>, n: nat, v: nat, w: nat, idx: nat, j: nat, start: nat, data: seq<real>,
                              tp: nat) {
    && tp > 0 && |ms| == tp && n % tp == 0
    && forall r :: 0 <= r < tp ==> LayerHeld(ms[r].layers, n, v, w, idx, j, start, data, tp, r)
  }

  lemma StageSharesLayers(ms: seq<Model>, c: Config, tp: nat, stages: nat, own: Ownership, data: seq<real>, base: nat,
                          idx: nat)
    requires StageLoaded(ms, c, tp, stages, own, data, base) && idx < c.nLayer && own.layers[idx]
    ensures LayerShared(ms, c.nEmbd, c.nLayer * c.nEmbd, c.nLayer * (c.nEmbd * c.nEmbd), idx,
                        LocalIndex(own.layers, idx), base + c.paddedVocabSize * c.nEmbd + c.blockSize * c.nEmbd, data,
                        tp)
  {
    hide LayersLoaded, EmbeddingsLoaded, NormLoaded, LayerHeld, LocalIndex, LayerBuilds;
    var n, count := c.nEmbd, c.nLayer;
    forall r | 0 <= r < tp
      ensures LayerHeld(ms[r].layers, n, count * n, count * (n * n), idx, LocalIndex(own.layers, idx),
                        base + c.paddedVocabSize * n + c.blockSize * n, data, tp, r)
    {
      LayerIsHeld(ms[r].layers, c, tp, r, own, data, base, count * n, count * (n * n), idx);
    }
  }

  /**
   * attn.c_attn on rank r, on the whole input: its q, k and v are the rank's shares of the q, k and v that
   * the full weight and bias, of 3 n outputs, give.
   */
  lemma AttentionComputes(ms: seq<Model>, n: nat, v: nat, w: nat, idx: nat, j: nat, start: nat, data: seq<real>,
                          tp: nat, r: nat, m: nat, x: seq<real>, rows: nat, weight: seq<real>, bias: seq<real>)
    requires LayerShared(ms, n, v, w, idx, j, start, data, tp) && r < tp && m == n / tp
    requires Whole(weight, data, start + 2 * v + idx * (3 * (n * n)), (n + n + n) * n)
    requires Whole(bias, data, start + 2 * v + 3 * w + idx * (3 * n), n + n + n)
    ensures |ms[r].layers| == 12 && j < |ms[r].layers[2]| && j < |ms[r].layers[3]|
    ensures PackedOutput(Linear(x, ms[r].layers[2][j], true, Some(ms[r].layers[3][j]), rows, n, m + m + m),
                         Linear(x, weight, true, Some(bias), rows, n, n + n + n), rows, n, n, m, m, r)
  {
    assert LayerHeld(ms[r].layers, n, v, w, idx, j, start, data, tp, r);
    hide PackedBlock, ColumnBlock, RowBlock, Whole, PackedOutput, Linear;
    PackedComputes(x, ms[r].layers[2][j], Some(ms[r].layers[3][j]), data, start + 2 * v + idx * (3 * (n * n)),
      start + 2 * v + 3 * w + idx * (3 * n), weight, Some(bias), rows, n, n, n, m, m, tp, r);
  }

  /** mlp.c_fc on rank r, on the whole input: its output is the rank's share of the columns of the full 4 n. */
  lemma UpProjectionComputes(ms: seq<Model>, n: nat, v: nat, w: nat, idx: nat, j: nat, start: nat, data: seq<real>,
                             tp: nat, r: nat, m: nat, x: seq<real>, rows: nat, weight: seq<real>, bias: seq<real>)
    requires LayerShared(ms, n, v, w, idx, j, start, data, tp) && r < tp && m == 4 * n / tp
    requires Whole(weight, data, start + 8 * v + 4 * w + idx * (4 * (n * n)), 4 * n * n)
    requires Whole(bias, data, start + 8 * v + 8 * w + idx * (4 * n), 4 * n)
    ensures |ms[r].layers| == 12 && j < |ms[r].layers[8]| && j < |ms[r].layers[9]|
    ensures ColumnBlock(Linear(x, ms[r].layers[8][j], true, Some(ms[r].layers[9][j]), rows, n, m),
                        Linear(x, weight, true, Some(bias), rows, n, 4 * n), 0, rows, 4 * n, tp, r)
  {
    assert LayerHeld(ms[r].layers, n, v, w, idx, j, start, data, tp, r);
    hide PackedBlock, ColumnBlock, RowBlock, Whole, Linear;
    ColumnParallelComputes(x, ms[r].layers[8][j], Some(ms[r].layers[9][j]), data,
      start + 8 * v + 4 * w + idx * (4 * (n * n)), start + 8 * v + 8 * w + idx * (4 * n), weight, Some(bias), rows, n,
      4 * n, m, tp, r);
  }

  /** The ranks' tensors of parameter k at place j. */
  function AtPlace(ms: seq<Model>, k: nat, j: nat): (s: seq<seq<real>>)
    requires forall r :: 0 <= r < |ms| ==> k < |ms[r].layers| && j < |ms[r].layers[k]|
    ensures |s| == |ms|
  {
    seq(|ms|, r requires 0 <= r < |ms| => ms[r].layers[k][j])
  }

  /**
   * attn.c_proj on the ranks' shares of the input's columns: the outputs add up to that of the full n by n
   * weight, to which every rank adds the bias that it holds.
   */
  lemma AttentionProjectionComputes(ms: seq<Model>, n: nat, v: nat, w: nat, idx: nat, j: nat, start: nat,
                                    data: seq<real>, tp: nat, r: nat, m: nat, x: seq<real>, xs: seq<seq<real>>,
                                    rows: nat, weight: seq<real>, i: nat, o: nat)
    requires LayerShared(ms, n, v, w, idx, j, start, data, tp) && r < tp && m == n / tp && |x| == rows * n
    requires Whole(weight, data, start + 5 * v + 3 * w + idx * (n * n), n * n) && i < rows && o < n
    requires |xs| == tp && forall s :: 0 <= s < tp ==> ColumnBlock(xs[s], x, 0, rows, n, tp, s)
    ensures forall s :: 0 <= s < |ms| ==> |ms[s].layers| == 12 && j < |ms[s].layers[4]| && j < |ms[s].layers[5]|
    ensures i * n + o < rows * n
    ensures Linear(x, weight, true, Some(ms[r].layers[5][j]), rows, n, n)[i * n + o] ==
            Sum(tp, RankOutputs(xs, AtPlace(ms, 4, j), rows, m, n, i * n + o)) + At(ms[r].layers[5][j], o)
  {
    var at := start + 5 * v + 3 * w + idx * (n * n);
    forall s | 0 <= s < tp
      ensures |ms[s].layers| == 12 && j < |ms[s].layers[4]| && j < |ms[s].layers[5]|
      ensures ColumnBlock(ms[s].layers[4][j], data, at, n, n, tp, s)
    {
      assert LayerHeld(ms[s].layers, n, v, w, idx, j, start, data, tp, s);
    }
    hide LayerHeld, ColumnBlock, Whole, Linear, Sum;
    RowParallelComputes(x, xs, data, at, AtPlace(ms, 4, j), weight, Some(ms[r].layers[5][j]), rows, n, n, m, tp, i, o);
  }

  /** mlp.c_proj in the same way, from 4 n columns. */
  lemma DownProjectionComputes(ms: seq<Model>, n: nat, v: nat, w: nat, idx: nat, j: nat, start: nat, data: seq<real>,
                               tp: nat, r: nat, d: nat, m: nat, x: seq<real>, xs: seq<seq<real>>, rows: nat,
                               weight: seq<real>, i: nat, o: nat)
    requires LayerShared(ms, n, v, w, idx, j, start, data, tp) && r < tp && d == 4 * n && m == d / tp && |x| == rows * d
    requires Whole(weight, data, start + 12 * v + 8 * w + idx * (4 * (n * n)), n * d) && i < rows && o < n
    requires |xs| == tp && forall s :: 0 <= s < tp ==> ColumnBlock(xs[s], x, 0, rows, d, tp, s)
    ensures forall s :: 0 <= s < |ms| ==> |ms[s].layers| == 12 && j < |ms[s].layers[10]| && j < |ms[s].layers[11]|
    ensures i * n + o < rows * n
    ensures Linear(x, weight, true, Some(ms[r].layers[11][j]), rows, d, n)[i * n + o] ==
            Sum(tp, RankOutputs(xs, AtPlace(ms, 10, j), rows, m, n, i * n + o)) + At(ms[r].layers[11][j], o)
  {
    var at := start + 12 * v + 8 * w + idx * (4 * (n * n));
    forall s | 0 <= s < tp
      ensures |ms[s].layers| == 12 && j < |ms[s].layers[10]| && j < |ms[s].layers[11]|
      ensures ColumnBlock(ms[s].layers[10][j], data, at, n, d, tp, s)
    {
      assert LayerHeld(ms[s].layers, n, v, w, idx, j, start, data, tp, s);
    }
    hide LayerHeld, ColumnBlock, Whole, Linear, Sum;
    QuotientUnique(d, tp, 4 * Per(n, tp), 0);
    RowParallelComputes(x, xs, data, at, AtPlace(ms, 10, j), weight, Some(ms[r].layers[11][j]), rows, d, n, m, tp, i,
                        o);
  }

  /** The activated hidden columns of every rank: c_fc on its part, then the activation. */
  function HiddenParts(ms: seq<Model>, gelu: real -> real, x: seq<real>, rows: nat, n: nat, m: nat, j: nat)
    : (s: seq<seq<real>>)
    requires forall r :: 0 <= r < |ms| ==>
             |ms[r].layers| == 12 && j < |ms[r].layers[8]| && j < |ms[r].layers[9]|
    ensures |s| == |ms|
  {
    seq(|ms|, r requires 0 <= r < |ms| =>
      Activated(gelu, Linear(x, ms[r].layers[8][j], true, Some(ms[r].layers[9][j]), rows, n, m)))
  }

  function FullMlp(gelu: real -> real, x: seq<real>, rows: nat, n: nat, d: nat, up: seq<real>, upBias: seq<real>,
                   down: seq<real>, downBias: seq<real>): seq<real> {
    Linear(Activated(gelu, Linear(x, up, true, Some(upBias), rows, n, d)), down, true, Some(downBias), rows, d, n)
  }

  ghost predicate TensorsThere(ms: seq<Model>, j: nat) {
    forall r :: 0 <= r < |ms| ==> |ms[r].layers| == 12 && forall k :: 0 <= k < 12 ==> j < |ms[r].layers[k]|
  }

  lemma SharedTensorsThere(ms: seq<Model>, n: nat, v: nat, w: nat, idx: nat, j: nat, start: nat, data: seq<real>,
                           tp: nat)
    requires LayerShared(ms, n, v, w, idx, j, start, data, tp)
    ensures TensorsThere(ms, j)
  {
    hide PackedBlock, ColumnBlock, RowBlock, Whole;
  }

  /**
   * The whole MLP: the outputs of the ranks, each on the hidden columns that its own part of c_fc gives, add
   * up to the output of the MLP with the full weights of the file, whatever the activation.
   */
  lemma MlpComputes(ms: seq<Model>, n: nat, v: nat, w: nat, idx: nat, j: nat, start: nat, data: seq<real>, tp: nat,
                    r: nat, d: nat, m: nat, gelu: real -> real, x: seq<real>, rows: nat, up: seq<real>,
                    upBias: seq<real>, down: seq<real>, i: nat, o: nat)
    requires LayerShared(ms, n, v, w, idx, j, start, data, tp) && r < tp && d == 4 * n && m == d / tp
    requires Whole(up, data, start + 8 * v + 4 * w + idx * (4 * (n * n)), 4 * n * n)
    requires Whole(upBias, data, start + 8 * v + 8 * w + idx * (4 * n), 4 * n)
    requires Whole(down, data, start + 12 * v + 8 * w + idx * (4 * (n * n)), n * d) && i < rows && o < n
    ensures TensorsThere(ms, j)
    ensures At(FullMlp(gelu, x, rows, n, d, up, upBias, down, ms[r].layers[11][j]), i * n + o) ==
            Sum(tp, RankOutputs(HiddenParts(ms, gelu, x, rows, n, m, j), AtPlace(ms, 10, j), rows, m, n, i * n + o)) +
            At(ms[r].layers[11][j], o)
  {
    hide LayerHeld, ColumnBlock, Whole, Linear, Sum, Activated;
    SharedTensorsThere(ms, n, v, w, idx, j, start, data, tp);
    var y := Linear(x, up, true, Some(upBias), rows, n, d);
    var xs := HiddenParts(ms, gelu, x, rows, n, m, j);
    forall s | 0 <= s < tp
      ensures ColumnBlock(xs[s], Activated(gelu, y), 0, rows, d, tp, s)
    {
      UpProjectionComputes(ms, n, v, w, idx, j, start, data, tp, s, m, x, rows, up, upBias);
      ActivatedColumns(gelu, Linear(x, ms[s].layers[8][j], true, Some(ms[s].layers[9][j]), rows, n, m), y, rows, d, tp,
                       s);
    }
    DownProjectionComputes(ms, n, v, w, idx, j, start, data, tp, r, d, m, Activated(gelu, y), xs, rows, down, i, o);
  }
}
