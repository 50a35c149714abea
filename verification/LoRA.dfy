/**
 * The linear layer's forward kernel and the LoRA layer built on it. Merging the low-rank product into
 * the weight keeps the layer's function, and any run of merges and unmerges keeps the weight equal to
 * the base weight plus, while merged, the scaled product. Arithmetic is exact.
 */
module LoRA {
  import opened Wrappers
  import opened RealSums
  import opened Matmul

  // ---------------------------------------------------------------- LinearForward

  /** The terms of output (r, o): input(r, p) times weight(o, p), or weight(p, o) if not transposed. */
  function LinearTerms(x: seq<real>, w: seq<real>, transpose: bool, d: nat, out: nat, r: nat, o: nat): nat -> real {
    (p: nat) => At(x, r * d + p) * At(w, if transpose then o * d + p else p * out + o)
  }

  function ProductAt(x: seq<real>, w: seq<real>, transpose: bool, d: nat, out: nat, q: nat): real
    requires out > 0
  {
    Sum(d, LinearTerms(x, w, transpose, d, out, Div(q, out), Mod(q, out)))
  }

  /** output = input * weight^T (or input * weight), plus the bias in every row. */
  function Linear(x: seq<real>, w: seq<real>, transpose: bool, bias: Option<seq<real>>, rows: nat, d: nat,
                  out: nat): (y: seq<real>)
    ensures |y| == rows * out
  {
    seq(rows * out, (q: nat) requires out > 0 =>
      ProductAt(x, w, transpose, d, out, q) + if bias.Some? then At(bias.value, Mod(q, out)) else 0.0)
  }

  method LinearForward(x: array<real>, w: array<real>, transpose: bool, bias: array?<real>, rows: nat, d: nat, out: nat)
    returns (y: array<real>)
    requires x.Length == rows * d && w.Length == out * d && (bias != null ==> bias.Length == out)
    ensures fresh(y) &&
            y[..] == Linear(x[..], w[..], transpose, if bias == null then None else Some(bias[..]), rows, d, out)
  {
    hide ProductAt, Div, Mod;
    var xs, ws := x[..], w[..];
    y := new real[rows * out]((q: nat) requires out > 0 => ProductAt(xs, ws, transpose, d, out, q));
    assert forall q: nat :: q < y.Length ==> y[q] == ProductAt(xs, ws, transpose, d, out, q);
    if bias != null {
      forall q | 0 <= q < y.Length {
        y[q] := y[q] + bias[Mod(q, out)];
      }
    }
    ghost var spec := Linear(xs, ws, transpose, if bias == null then None else Some(bias[..]), rows, d, out);
    assert forall q :: 0 <= q < |spec| ==> y[q] == spec[q];
    assert y[..] == spec;
    assert xs == x[..];
    assert ws == w[..];
  }

  lemma LinearElement(x: seq<real>, w: seq<real>, bias: Option<seq<real>>, rows: nat, d: nat, out: nat, r: nat, o: nat)
    requires r < rows && o < out
    ensures r * out + o < rows * out
    ensures Linear(x, w, true, bias, rows, d, out)[r * out + o] ==
            Sum(d, LinearTerms(x, w, true, d, out, r, o)) + if bias.Some? then At(bias.value, o) else 0.0
  {
    hide Sum, LinearTerms, Div, Mod;
    Place(1, rows, out, 0, r, o);
  }

  /** Output (r, o) of a linear layer, written out. */
  lemma LinearFigures(x: seq<real>, w: seq<real>, bias: Option<seq<real>>, rows: nat, d: nat, out: nat, r: nat, o: nat)
    requires r < rows && o < out
    ensures r * out + o < rows * out
    ensures Linear(x, w, true, bias, rows, d, out)[r * out + o] ==
            Sum(d, (p: nat) => At(x, r * d + p) * At(w, o * d + p)) + if bias.Some? then At(bias.value, o) else 0.0
    ensures Linear(x, w, false, bias, rows, d, out)[r * out + o] ==
            Sum(d, (p: nat) => At(x, r * d + p) * At(w, p * out + o)) + if bias.Some? then At(bias.value, o) else 0.0
  {
    hide Sum, At;
    Place(1, rows, out, 0, r, o);
    SumExt(d, LinearTerms(x, w, true, d, out, r, o), (p: nat) => At(x, r * d + p) * At(w, o * d + p));
    SumExt(d, LinearTerms(x, w, false, d, out, r, o), (p: nat) => At(x, r * d + p) * At(w, p * out + o));
  }

  // ---------------------------------------------------------------- elementwise tensor operations

  method Mul(a: array<real>, c: real) returns (o: array<real>)
    ensures fresh(o) && o[..] == Scaled(c, a[..])
  {
    o := new real[a.Length](q requires 0 <= q < a.Length reads a => a[q] * c);
    assert forall q :: 0 <= q < a.Length ==> o[q] == a[q] * c == Scaled(c, a[..])[q];
  }

  method Add(a: array<real>, b: array<real>) returns (o: array<real>)
    requires a.Length == b.Length
    ensures fresh(o) && o[..] == Added(a[..], b[..])
  {
    o := new real[a.Length](q requires 0 <= q < a.Length reads a, b => a[q] + b[q]);
  }

  method Sub(a: array<real>, b: array<real>) returns (o: array<real>)
    requires a.Length == b.Length
    ensures fresh(o) && o[..] == Added(a[..], Scaled(-1.0, b[..]))
  {
    o := new real[a.Length](q requires 0 <= q < a.Length reads a, b => a[q] - b[q]);
  }

  function Scaled(c: real, a: seq<real>): (o: seq<real>)
    ensures |o| == |a|
  {
    seq(|a|, q requires 0 <= q < |a| => a[q] * c)
  }

  function Added(a: seq<real>, b: seq<real>): (o: seq<real>)
    requires |a| == |b|
    ensures |o| == |a|
  {
    seq(|a|, q requires 0 <= q < |a| => a[q] + b[q])
  }

  lemma SubUndoesAdd(a: seq<real>, b: seq<real>)
    requires |a| == |b|
    ensures Added(Added(a, b), Scaled(-1.0, b)) == a
  {
  }

  // ---------------------------------------------------------------- the algebra of merging

  /** The weight with the scaled low-rank product in it. */
  function MergedWeight(w: seq<real>, a: seq<real>, b: seq<real>, s: real, d: nat, out: nat, rank: nat): seq<real>
    requires |w| == out * d
  {
    Added(w, Scaled(s, Forward(b, a, 1, out, rank, d)))
  }

  /** The unmerged layer: base output plus the scaled output of the two low-rank layers. */
  function LayerOutput(x: seq<real>, w: seq<real>, a: seq<real>, b: seq<real>, bias: Option<seq<real>>, s: real,
                       rows: nat, d: nat, out: nat, rank: nat): seq<real> {
    Added(Linear(x, w, true, bias, rows, d, out),
          Scaled(s, Linear(Linear(x, a, true, None, rows, d, rank), b, true, None, rows, rank, out)))
  }

  function RowAt(b: seq<real>, rank: nat, o: nat): nat -> real {
    (t: nat) => At(b, o * rank + t)
  }

  function Transposed(a: seq<real>, d: nat): (nat, nat) -> real {
    (p: nat, t: nat) => At(a, t * d + p)
  }

  /** The terms of row r of the input against row o of the product b * a. */
  function DeltaTerms(x: seq<real>, a: seq<real>, b: seq<real>, d: nat, out: nat, rank: nat, r: nat,
                      o: nat): nat -> real {
    (p: nat) => At(x, r * d + p) * At(Forward(b, a, 1, out, rank, d), o * d + p)
  }

  function HiddenTerms(x: seq<real>, a: seq<real>, b: seq<real>, rows: nat, d: nat, rank: nat, r: nat,
                       o: nat): nat -> real {
    LinearTerms(Linear(x, a, true, None, rows, d, rank), b, true, rank, 0, r, o)
  }

  lemma HiddenTermAt(x: seq<real>, a: seq<real>, b: seq<real>, rows: nat, d: nat, rank: nat, r: nat, o: nat, t: nat)
    requires r < rows && t < rank
    ensures HiddenTerms(x, a, b, rows, d, rank, r, o)(t) ==
            Sum(d, WeighedBy(RowAt(x, d, r), Transposed(a, d), t)) * RowAt(b, rank, o)(t)
  {
    hide Sum, Linear;
    var h := Linear(x, a, true, None, rows, d, rank);
    LinearElement(x, a, None, rows, d, rank, r, t);
    assert At(h, r * rank + t) == Sum(d, LinearTerms(x, a, true, d, rank, r, t));
    SumExt(d, LinearTerms(x, a, true, d, rank, r, t), WeighedBy(RowAt(x, d, r), Transposed(a, d), t));
  }

  lemma DeltaTermAt(x: seq<real>, a: seq<real>, b: seq<real>, d: nat, out: nat, rank: nat, r: nat, o: nat, p: nat)
    requires o < out && p < d
    ensures DeltaTerms(x, a, b, d, out, rank, r, o)(p) ==
            RowAt(x, d, r)(p) * Sum(rank, WeighedAlong(RowAt(b, rank, o), Transposed(a, d), p))
  {
    hide Sum, Forward, At;
    ForwardElementAt(b, a, 1, out, rank, d, 0, o, p);
    SumExt(rank, ForwardTerms(b, a, out, rank, d, 0, o, p), WeighedAlong(RowAt(b, rank, o), Transposed(a, d), p));
  }

  /** (x A^T) B^T is x (B A)^T, element by element. */
  lemma LowRankAssociates(x: seq<real>, a: seq<real>, b: seq<real>, rows: nat, d: nat, out: nat, rank: nat, r: nat,
                          o: nat)
    requires r < rows && o < out
    ensures Sum(rank, HiddenTerms(x, a, b, rows, d, rank, r, o)) == Sum(d, DeltaTerms(x, a, b, d, out, rank, r, o))
  {
    hide Sum, HiddenTerms, DeltaTerms, WeighedBy, WeighedAlong, RowAt;
    var left, right := HiddenTerms(x, a, b, rows, d, rank, r, o), DeltaTerms(x, a, b, d, out, rank, r, o);
    var xs, ys, w := RowAt(x, d, r), RowAt(b, rank, o), Transposed(a, d);
    forall t: nat | t < rank
      ensures left(t) == Sum(d, WeighedBy(xs, w, t)) * ys(t)
    {
      HiddenTermAt(x, a, b, rows, d, rank, r, o, t);
    }
    forall p: nat | p < d
      ensures right(p) == xs(p) * Sum(rank, WeighedAlong(ys, w, p))
    {
      DeltaTermAt(x, a, b, d, out, rank, r, o, p);
    }
    AdjointSwap(d, rank, xs, ys, w, left, right);
  }

  /** One element: the merged weight gives the base element plus the scaled low-rank element. */
  lemma MergedElement(x: seq<real>, w: seq<real>, a: seq<real>, b: seq<real>, s: real,
                      rows: nat, d: nat, out: nat, rank: nat, r: nat, o: nat)
    requires |w| == out * d && r < rows && o < out
    ensures Sum(d, LinearTerms(x, MergedWeight(w, a, b, s, d, out, rank), true, d, out, r, o)) ==
            Sum(d, LinearTerms(x, w, true, d, out, r, o)) +
            s * Sum(rank, LinearTerms(Linear(x, a, true, None, rows, d, rank), b, true, rank, out, r, o))
  {
    hide Sum, Forward, MergedWeight, At;
    var delta := DeltaTerms(x, a, b, d, out, rank, r, o);
    var scaled: nat -> real := (p: nat) => s * delta(p);
    var hidden := LinearTerms(Linear(x, a, true, None, rows, d, rank), b, true, rank, out, r, o);
    forall p: nat | p < d
      ensures LinearTerms(x, MergedWeight(w, a, b, s, d, out, rank), true, d, out, r, o)(p) ==
              LinearTerms(x, w, true, d, out, r, o)(p) + scaled(p)
    {
      InRange(o, out, p, d);
      MergedWeightAt(w, a, b, s, d, out, rank, o * d + p);
      MergedTerm(At(x, r * d + p), At(w, o * d + p), At(Forward(b, a, 1, out, rank, d), o * d + p), s);
    }
    SumAdds(d, LinearTerms(x, w, true, d, out, r, o), scaled,
      LinearTerms(x, MergedWeight(w, a, b, s, d, out, rank), true, d, out, r, o));
    SumScales(d, s, delta, scaled);
    LowRankAssociates(x, a, b, rows, d, out, rank, r, o);
    SumExt(rank, hidden, HiddenTerms(x, a, b, rows, d, rank, r, o));
  }

  lemma MergedWeightAt(w: seq<real>, a: seq<real>, b: seq<real>, s: real, d: nat, out: nat, rank: nat, i: nat)
    requires |w| == out * d && i < out * d
    ensures At(MergedWeight(w, a, b, s, d, out, rank), i) == At(w, i) + At(Forward(b, a, 1, out, rank, d), i) * s
  {
    hide Forward;
  }

  lemma MergedTerm(x: real, w: real, f: real, s: real)
    ensures x * (w + f * s) == x * w + s * (x * f)
  {
    assert x * (f * s) == s * (x * f);
  }

  /**
   * The merged layer computes what the unmerged layer does: for every input, weight, A, B, bias and
   * scaling.
   */
  lemma MergingKeepsTheFunction(x: seq<real>, w: seq<real>, a: seq<real>, b: seq<real>, bias: Option<seq<real>>,
                                s: real,
                                rows: nat, d: nat, out: nat, rank: nat)
    requires |w| == out * d
    ensures Linear(x, MergedWeight(w, a, b, s, d, out, rank), true, bias, rows, d, out) ==
            LayerOutput(x, w, a, b, bias, s, rows, d, out, rank)
  {
    hide Sum, Linear, LinearTerms, MergedWeight;
    var left, right :=
        Linear(x, MergedWeight(w, a, b, s, d, out, rank), true, bias, rows, d, out),
          LayerOutput(x, w, a, b, bias, s, rows, d, out, rank);
    var h := Linear(x, a, true, None, rows, d, rank);
    forall q: nat | q < rows * out
      ensures left[q] == right[q]
    {
      assert out > 0;
      Encode(q, rows, out);
      var r, o := q / out, q % out;
      LinearElement(x, MergedWeight(w, a, b, s, d, out, rank), bias, rows, d, out, r, o);
      LinearElement(x, w, bias, rows, d, out, r, o);
      LinearElement(h, b, None, rows, rank, out, r, o);
      MergedElement(x, w, a, b, s, rows, d, out, rank, r, o);
    }
  }

  /** With B at zero, as it is initialised, the layer is the base layer. */
  lemma StartsAsBaseLayer(x: seq<real>, w: seq<real>, a: seq<real>, bias: Option<seq<real>>, s: real,
                          rows: nat, d: nat, out: nat, rank: nat)
    ensures LayerOutput(x, w, a, seq(out * rank, _ => 0.0), bias, s, rows, d, out, rank) ==
            Linear(x, w, true, bias, rows, d, out)
  {
    hide Sum, Linear;
    var b := seq(out * rank, _ => 0.0);
    var h := Linear(x, a, true, None, rows, d, rank);
    forall q: nat | q < rows * out
      ensures Linear(h, b, true, None, rows, rank, out)[q] == 0.0
    {
      assert out > 0;
      assert forall i: int :: At(b, i) == 0.0;
      Encode(q, rows, out);
      LinearElement(h, b, None, rows, rank, out, q / out, q % out);
      SumZero(rank, LinearTerms(h, b, true, rank, out, q / out, q % out));
    }
  }

  /** Element (o, p) of the merged weight, written out: the base weight's plus s times that of B A. */
  ghost predicate MergedElementIs(merged: seq<real>, w: seq<real>, a: seq<real>, b: seq<real>, s: real, d: nat,
                                  rank: nat,
                                  o: nat, p: nat) {
    At(merged, o * d + p) == At(w, o * d + p) + s * Sum(rank, (t: nat) => At(b, o * rank + t) * At(a, t * d + p))
  }

  lemma MergedFigures(w: seq<real>, a: seq<real>, b: seq<real>, s: real, d: nat, out: nat, rank: nat)
    requires |w| == out * d
    ensures forall o: nat, p: nat :: o < out && p < d ==>
              MergedElementIs(MergedWeight(w, a, b, s, d, out, rank), w, a, b, s, d, rank, o, p)
  {
    hide MergedElementIs, MergedWeight;
    forall o: nat, p: nat | o < out && p < d
      ensures MergedElementIs(MergedWeight(w, a, b, s, d, out, rank), w, a, b, s, d, rank, o, p)
    {
      MergedFigure(w, a, b, s, d, out, rank, o, p);
    }
  }

  lemma DeltaFigure(a: seq<real>, b: seq<real>, d: nat, out: nat, rank: nat, o: nat, p: nat)
    requires o < out && p < d
    ensures At(Forward(b, a, 1, out, rank, d), o * d + p) ==
            Sum(rank, (t: nat) => At(b, o * rank + t) * At(a, t * d + p))
  {
    hide Sum, Forward, At;
    ForwardElementAt(b, a, 1, out, rank, d, 0, o, p);
    SumExt(rank, ForwardTerms(b, a, out, rank, d, 0, o, p), (t: nat) => At(b, o * rank + t) * At(a, t * d + p));
  }

  lemma MergedFigure(w: seq<real>, a: seq<real>, b: seq<real>, s: real, d: nat, out: nat, rank: nat, o: nat, p: nat)
    requires |w| == out * d && o < out && p < d
    ensures MergedElementIs(MergedWeight(w, a, b, s, d, out, rank), w, a, b, s, d, rank, o, p)
  {
    hide Sum, Forward, MergedWeight, At;
    InRange(o, out, p, d);
    MergedWeightAt(w, a, b, s, d, out, rank, o * d + p);
    DeltaFigure(a, b, d, out, rank, o, p);
  }

  /** Output (r, o) of the layer, written out: the linear layer's plus s times that of the two low-rank layers. */
  lemma LayerFigures(x: seq<real>, w: seq<real>, a: seq<real>, b: seq<real>, bias: Option<seq<real>>, s: real,
                     rows: nat, d: nat, out: nat, rank: nat, r: nat, o: nat)
    requires r < rows && o < out
    ensures r * out + o < rows * out
    ensures LayerOutput(x, w, a, b, bias, s, rows, d, out, rank)[r * out + o] ==
            Sum(d, (p: nat) => At(x, r * d + p) * At(w, o * d + p)) + (if bias.Some? then At(bias.value, o) else 0.0) +
            s * Sum(rank, (t: nat) => Sum(d, (p: nat) => At(x, r * d + p) * At(a, t * d + p)) * At(b, o * rank + t))
  {
    hide Sum, Linear, LayerOutput, At;
    LayerOutputAt(x, w, a, b, bias, s, rows, d, out, rank, r * out + o);
    LinearFigures(x, w, bias, rows, d, out, r, o);
    LowRankFigures(x, a, b, rows, d, out, rank, r, o);
  }

  lemma LayerOutputAt(x: seq<real>, w: seq<real>, a: seq<real>, b: seq<real>, bias: Option<seq<real>>, s: real,
                      rows: nat, d: nat, out: nat, rank: nat, q: nat)
    ensures var y := LayerOutput(x, w, a, b, bias, s, rows, d, out, rank);
            var low := Linear(Linear(x, a, true, None, rows, d, rank), b, true, None, rows, rank, out);
            && |y| == rows * out
            && (q < rows * out ==> y[q] == Linear(x, w, true, bias, rows, d, out)[q] + s * low[q])
  {
    hide Linear;
  }

  lemma HiddenFigure(x: seq<real>, a: seq<real>, rows: nat, d: nat, rank: nat, r: nat, t: nat)
    requires r < rows && t < rank
    ensures At(Linear(x, a, true, None, rows, d, rank), r * rank + t) ==
            Sum(d, (p: nat) => At(x, r * d + p) * At(a, t * d + p))
  {
    LinearFigures(x, a, None, rows, d, rank, r, t);
    hide Sum, Linear;
  }

  lemma LowRankFigures(x: seq<real>, a: seq<real>, b: seq<real>, rows: nat, d: nat, out: nat, rank: nat, r: nat, o: nat)
    requires r < rows && o < out
    ensures r * out + o < rows * out
    ensures Linear(Linear(x, a, true, None, rows, d, rank), b, true, None, rows, rank, out)[r * out + o] ==
            Sum(rank, (t: nat) => Sum(d, (p: nat) => At(x, r * d + p) * At(a, t * d + p)) * At(b, o * rank + t))
  {
    hide Sum, Linear, At;
    var h := Linear(x, a, true, None, rows, d, rank);
    LinearFigures(h, b, None, rows, rank, out, r, o);
    var terms := (t: nat) => At(h, r * rank + t) * At(b, o * rank + t);
    var explicit := (t: nat) => Sum(d, (p: nat) => At(x, r * d + p) * At(a, t * d + p)) * At(b, o * rank + t);
    forall t: nat | t < rank
      ensures terms(t) == explicit(t)
    {
      HiddenFigure(x, a, rows, d, rank, r, t);
    }
    SumExt(rank, terms, explicit);
  }

  // ---------------------------------------------------------------- the layer

  class LoRALinear {
    const inFeatures: nat
    const outFeatures: nat
    const rank: nat
    const scaling: real
    const weight: array<real>
    const bias: array?<real>
    const loraA: array<real>
    const loraB: array<real>
    var merged: bool
    var weightRequiresGrad: bool
    var biasRequiresGrad: bool
    var loraARequiresGrad: bool
    var loraBRequiresGrad: bool
    /** The weight of the wrapped linear layer. */
    ghost var base: seq<real>

    ghost predicate Valid()
      reads this, weight, loraA, loraB
    {
      && weight.Length == outFeatures * inFeatures
      && loraA.Length == rank * inFeatures
      && loraB.Length == outFeatures * rank
      && (bias != null ==> bias.Length == outFeatures && bias != weight)
      && weight != loraA && weight != loraB
      && |base| == outFeatures * inFeatures
      && weight[..] == if merged then MergedWeight(base, loraA[..], loraB[..], scaling, inFeatures, outFeatures, rank)
        else base
    }

    function Bias(): Option<seq<real>>
      reads this, bias
    {
      if bias == null then None else Some(bias[..])
    }

    /** The function of the layer, in terms of the base weight: whether it is merged does not enter. */
    ghost function Output(x: seq<real>, rows: nat): seq<real>
      reads this, loraA, loraB, bias
    {
      LayerOutput(x, base, loraA[..], loraB[..], Bias(), scaling, rows, inFeatures, outFeatures, rank)
    }

    /** Wrap a linear layer, whose weight and bias are shared; A is given, B starts at zero. */
    constructor (weight: array<real>, bias: array?<real>, inFeatures: nat, outFeatures: nat, rank: nat, alpha: real,
                 a: seq<real>)
      requires rank > 0
      requires weight.Length == outFeatures * inFeatures && |a| == rank * inFeatures
      requires bias != null ==> bias.Length == outFeatures && bias != weight
      ensures Valid() && !merged && base == weight[..] && this.weight == weight && this.bias == bias
      ensures this.inFeatures == inFeatures && this.outFeatures == outFeatures && this.rank == rank &&
              scaling == alpha / rank as real
      ensures loraA[..] == a && loraB[..] == seq(outFeatures * rank, _ => 0.0)
      ensures !weightRequiresGrad && !biasRequiresGrad && loraARequiresGrad && loraBRequiresGrad
      ensures fresh(loraA) && fresh(loraB)
    {
      this.weight, this.bias, this.inFeatures, this.outFeatures := weight, bias, inFeatures, outFeatures;
      this.rank, this.scaling := rank, alpha / rank as real;
      loraA := new real[rank * inFeatures](q requires 0 <= q < rank * inFeatures => a[q]);
      loraB := new real[outFeatures * rank](_ => 0.0);
      merged := false;
      loraARequiresGrad, loraBRequiresGrad := true, true;
      weightRequiresGrad, biasRequiresGrad := false, false;
      base := weight[..];
    }

    /** Fails if the layer is merged and A still requires a gradient. */
    method Forward(x: array<real>, rows: nat) returns (y: Option<array<real>>)
      requires Valid() && x.Length == rows * inFeatures
      ensures y.None? <==> merged && loraARequiresGrad
      ensures y.Some? ==> fresh(y.value) && y.value[..] == Output(x[..], rows)
    {
      hide Linear, MergedWeight;
      if merged && loraARequiresGrad {
        return None;
      }
      var baseOutput := LinearForward(x, weight, true, bias, rows, inFeatures, outFeatures);
      if merged {
        MergingKeepsTheFunction(x[..], base, loraA[..], loraB[..], Bias(), scaling, rows, inFeatures, outFeatures,
          rank);
        return Some(baseOutput);
      }
      var hidden := LinearForward(x, loraA, true, null, rows, inFeatures, rank);
      var loraOutput := LinearForward(hidden, loraB, true, null, rows, rank, outFeatures);
      var scaledLora := Mul(loraOutput, scaling);
      var sum := Add(baseOutput, scaledLora);
      return Some(sum);
    }

    /** scaling * B A */
    method ScaledDelta() returns (delta: array<real>)
      requires Valid()
      ensures fresh(delta)
      ensures delta[..] == Scaled(scaling, Matmul.Forward(loraB[..], loraA[..], 1, outFeatures, rank, inFeatures))
    {
      var product := MatmulForward(loraB, loraA, 1, outFeatures, rank, inFeatures);
      delta := Mul(product, scaling);
    }

    /** CopyFrom into the weight. */
    method CopyToWeight(src: array<real>)
      requires src.Length == weight.Length && src != weight
      modifies weight
      ensures weight[..] == src[..]
    {
      forall q | 0 <= q < src.Length {
        weight[q] := src[q];
      }
    }

    method MergeWeights()
      requires Valid()
      modifies this`merged, this`loraARequiresGrad, this`loraBRequiresGrad, weight
      ensures Valid() && merged
      ensures !old(merged) ==> !loraARequiresGrad && !loraBRequiresGrad
      ensures !old(merged) ==> forall o: nat, p: nat :: o < outFeatures && p < inFeatures ==>
                MergedElementIs(weight[..], old(weight[..]), loraA[..], loraB[..], scaling, inFeatures, rank, o, p)
      ensures old(merged) ==>
              weight[..] == old(weight[..]) && loraARequiresGrad == old(loraARequiresGrad) &&
                loraBRequiresGrad == old(loraBRequiresGrad)
    {
      hide Matmul.Forward, Scaled, Added, MergedElementIs;
      if merged {
        return;
      }
      var delta := ScaledDelta();
      var newWeight := Add(weight, delta);
      CopyToWeight(newWeight);
      loraARequiresGrad, loraBRequiresGrad := false, false;
      merged := true;
      MergedFigures(base, loraA[..], loraB[..], scaling, inFeatures, outFeatures, rank);
    }

    method UnmergeWeights()
      requires Valid()
      modifies this`merged, this`loraARequiresGrad, this`loraBRequiresGrad, weight
      ensures Valid() && !merged
      ensures old(merged) ==> loraARequiresGrad && loraBRequiresGrad && weight[..] == base
      ensures !old(merged) ==>
              weight[..] == old(weight[..]) && loraARequiresGrad == old(loraARequiresGrad) &&
                loraBRequiresGrad == old(loraBRequiresGrad)
    {
      hide Matmul.Forward, Scaled, Added;
      if !merged {
        return;
      }
      var delta := ScaledDelta();
      SubUndoesAdd(base, delta[..]);
      var newWeight := Sub(weight, delta);
      CopyToWeight(newWeight);
      loraARequiresGrad, loraBRequiresGrad := true, true;
      merged := false;
    }
  }

  /** Any run of merges (true) and unmerges (false) keeps the layer's function, and A, B and the base weight. */
  method MergesAndUnmerges(layer: LoRALinear, calls: seq<bool>, x: array<real>, rows: nat)
    requires layer.Valid() && x.Length == rows * layer.inFeatures && layer.weight != x && layer.weight != layer.bias
    modifies layer`merged, layer`loraARequiresGrad, layer`loraBRequiresGrad, layer.weight
    ensures layer.Valid() && layer.merged == if calls == [] then old(layer.merged) else calls[|calls| - 1]
    ensures layer.Output(x[..], rows) == old(layer.Output(x[..], rows))
    ensures !layer.merged && !old(layer.merged) ==> layer.weight[..] == old(layer.weight[..])
  {
    hide LayerOutput, MergedWeight;
    for i := 0 to |calls|
      invariant layer.Valid() && layer.merged == if i == 0 then old(layer.merged) else calls[i - 1]
      invariant layer.base == old(layer.base)
    {
      if calls[i] {
        layer.MergeWeights();
      } else {
        layer.UnmergeWeights();
      }
    }
  }
}
