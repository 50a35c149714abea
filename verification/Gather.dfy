/**
 * The gather kernels for tensors of any rank. Both enumerate the index tensor by a recursion over its
 * dimensions that keeps the current index in a shared buffer.
 */
module Gather {
  import opened Wrappers
  import opened RealSums
  import opened NdIndex

  /** Negative entries count from the end; then clamp to the dimension. */
  function NormIndex(v: int, size: nat): int {
    var v1 := if v < 0 then v + size else v;
    var v2 := if v1 < 0 then 0 else v1;
    if v2 >= size then size - 1 else v2
  }

  /** Every entry is in bounds after normalization exactly if the dimension is not empty. */
  lemma NormIndexInBounds(v: int, size: nat)
    ensures 0 <= NormIndex(v, size) < size <==> size > 0
    ensures 0 <= v < size ==> NormIndex(v, size) == v
    ensures v < 0 <= v + size ==> NormIndex(v, size) == v + size
  {
  }

  /** The CHECKs on rank, dimension and shape, with dim already counted from the front. */
  predicate Allowed(inDims: Dims, idxDims: Dims, dim: int) {
    && |inDims| == |idxDims| && 0 <= dim < |inDims|
    && forall d :: 0 <= d < |inDims| && d != dim ==> idxDims[d] <= inDims[d]
  }

  function FromFront(dim: int, rank: nat): int {
    if dim < 0 then dim + rank else dim
  }

  /** The input offset that output element q reads. */
  function Source(q: nat, norm: seq<int>, inDims: Dims, idxDims: Dims, dim: nat): int
    requires |inDims| == |idxDims| && dim < |inDims| && q < Volume(idxDims) == |norm|
  {
    Flatten(Unflatten(q, idxDims)[dim := norm[q]], inDims)
  }

  function Sources(norm: seq<int>, inDims: Dims, idxDims: Dims, dim: nat): (r: seq<int>)
    requires |inDims| == |idxDims| && dim < |inDims| && Volume(idxDims) == |norm|
    ensures |r| == |norm|
  {
    seq(|norm|, (q: nat) requires q < |norm| => Source(q, norm, inDims, idxDims, dim))
  }

  function Norms(index: seq<int>, size: nat): (r: seq<int>)
    ensures |r| == |index|
  {
    seq(|index|, q requires 0 <= q < |index| => NormIndex(index[q], size))
  }

  lemma SourceInRange(q: nat, norm: seq<int>, inDims: Dims, idxDims: Dims, dim: nat)
    requires Allowed(inDims, idxDims, dim) && q < Volume(idxDims) == |norm| && 0 <= norm[q] < inDims[dim]
    ensures 0 <= Source(q, norm, inDims, idxDims, dim) < Volume(inDims)
  {
    UnflattenInDims(q, idxDims);
    FlattenInRange(Unflatten(q, idxDims)[dim := norm[q]], inDims);
  }

  /** All the offsets read are in bounds if and only if the gathered dimension is not empty or nothing is read. */
  lemma InBoundsExactlyWhen(index: seq<int>, inDims: Dims, idxDims: Dims, dim: nat)
    requires Allowed(inDims, idxDims, dim) && |index| == Volume(idxDims)
    ensures AllIn(Sources(Norms(index, inDims[dim]), inDims, idxDims, dim), Volume(inDims)) <==>
            inDims[dim] > 0 || index == []
  {
    var norm := Norms(index, inDims[dim]);
    if inDims[dim] > 0 {
      forall q: nat | q < |index|
        ensures 0 <= Source(q, norm, inDims, idxDims, dim) < Volume(inDims)
      {
        NormIndexInBounds(index[q], inDims[dim]);
        SourceInRange(q, norm, inDims, idxDims, dim);
      }
    } else if index != [] {
      VolumePositive(inDims);
      assert Volume(inDims) == 0;
      assert !(0 <= Sources(norm, inDims, idxDims, dim)[0] < Volume(inDims));
    }
  }

  /** Gathering one element, by index 0, from an empty vector reads offset -1. */
  lemma EmptyDimensionReadsBefore()
    ensures Norms([0], 0) == [-1] && Volume([1]) == 1 && Volume([0]) == 0
    ensures Source(0, [-1], [0], [1], 0) == -1
  {
    assert Unflatten(0, [1]) == [0];
    assert [0][0 := -1] == [-1] && Flatten([-1], [0]) == -1;
  }

  // ---------------------------------------------------------------- the recursion

  /** The flat offset of the first element whose index begins with the given prefix. */
  function First(ix: seq<int>, dims: Dims, d: nat): int
    requires d <= |ix| == |dims|
  {
    Flatten(ix[..d] + seq(|dims| - d, _ => 0), dims)
  }

  lemma FirstOfNone(ix: seq<int>, dims: Dims)
    requires |ix| == |dims|
    ensures First(ix, dims, 0) == 0
  {
    FlattenOfZeros(dims);
    assert ix[..0] + seq(|dims|, _ => 0) == seq(|dims|, _ => 0);
  }

  lemma FirstOfAll(ix: seq<int>, dims: Dims)
    requires |ix| == |dims|
    ensures First(ix, dims, |dims|) == Flatten(ix, dims)
  {
    assert ix[..|dims|] + seq(0, _ => 0) == ix;
  }

  /** One dimension further: the prefix moves on by ix[d] blocks. */
  lemma {:induction false} FirstExtends(ix: seq<int>, dims: Dims, d: nat)
    requires d < |ix| == |dims|
    ensures First(ix, dims, d + 1) == First(ix, dims, d) + ix[d] * Volume(dims[d + 1..])
  {
    var a, b := ix[..d] + seq(|dims| - d, _ => 0), ix[..d + 1] + seq(|dims| - d - 1, _ => 0);
    if d == 0 {
      FlattenOfZeros(dims[1..]);
      assert a[1..] == seq(|dims| - 1, _ => 0) && b[1..] == seq(|dims| - 1, _ => 0);
      assert a[0] == 0 && b[0] == ix[0];
    } else {
      FirstExtends(ix[1..], dims[1..], d - 1);
      assert a[1..] == ix[1..][..d - 1] + seq(|dims[1..]| - (d - 1), _ => 0);
      assert b[1..] == ix[1..][..d] + seq(|dims[1..]| - d, _ => 0);
      assert dims[1..][d..] == dims[d + 1..];
      assert a[0] == ix[0] == b[0];
    }
  }

  lemma FirstSame(ix: seq<int>, ix': seq<int>, dims: Dims, d: nat)
    requires d <= |ix| == |ix'| == |dims| && ix[..d] == ix'[..d]
    ensures First(ix, dims, d) == First(ix', dims, d)
  {
  }

  predicate PrefixInDims(ix: seq<int>, dims: Dims, d: nat) {
    d <= |ix| == |dims| && forall i :: 0 <= i < d ==> 0 <= ix[i] < dims[i]
  }

  /** The numbers both kernels work with. */
  datatype Shape = Shape(inDims: Dims, idxDims: Dims, dim: nat, norm: seq<int>)

  predicate Ready(s: Shape) {
    && Allowed(s.inDims, s.idxDims, s.dim) && |s.norm| == Volume(s.idxDims)
    && forall q :: 0 <= q < |s.norm| ==> 0 <= s.norm[q] < s.inDims[s.dim]
  }

  function Offsets(s: Shape): (r: seq<int>)
    requires Ready(s)
    ensures |r| == |s.norm|
  {
    Sources(s.norm, s.inDims, s.idxDims, s.dim)
  }

  /** The loop that normalizes the index tensor. */
  method Normalize(index: array<int>, size: nat) returns (norm: seq<int>)
    ensures norm == Norms(index[..], size)
  {
    norm := [];
    for i := 0 to index.Length
      invariant |norm| == i && forall j :: 0 <= j < i ==> norm[j] == NormIndex(index[j], size)
    {
      var v := index[i];
      v := if v < 0 then v + size else v;
      if v < 0 {
        v := 0;
      }
      if v >= size {
        v := size - 1;
      }
      norm := norm + [v];
    }
  }

  /** The leaf of the recursion: the output offset of the current index, and the input offset it reads. */
  method Locate(s: Shape, dst: array<int>, src: array<int>, inStrides: seq<nat>, outStrides: seq<nat>)
    returns (dstOffset: nat, srcOffset: nat)
    requires Ready(s) && dst != src && dst.Length == src.Length == |s.inDims|
    requires inStrides == Strides(s.inDims) && outStrides == Strides(s.idxDims) && InDims(dst[..], s.idxDims)
    modifies src
    ensures dst[..] == old(dst[..])
    ensures dstOffset == Flatten(dst[..], s.idxDims) < |s.norm|
    ensures srcOffset == Offsets(s)[dstOffset] < Volume(s.inDims)
  {
    hide Flatten, Strides, Volume, Unflatten;
    UnflattenFlatten(dst[..], s.idxDims);
    dstOffset := OffsetFromLast(dst, s.idxDims, outStrides);
    SourceInRange(dstOffset, s.norm, s.inDims, s.idxDims, s.dim);
    var gatherJ := s.norm[dstOffset];
    for i := 0 to src.Length
      invariant dst[..] == old(dst[..])
      invariant forall j :: 0 <= j < i ==> src[j] == if j == s.dim then gatherJ else dst[j]
    {
      src[i] := if i == s.dim then gatherJ else dst[i];
    }
    assert src[..] == dst[..][s.dim := gatherJ];
    srcOffset := OffsetFromLast(src, s.inDims, inStrides);
  }

  lemma AtLeaf(ix: seq<int>, dims: Dims)
    requires PrefixInDims(ix, dims, |dims|)
    ensures InDims(ix, dims) && First(ix, dims, |dims|) == Flatten(ix, dims) && Volume(dims[|dims|..]) == 1
  {
    FirstOfAll(ix, dims);
  }

  /** Entry i of dimension d: its block begins i blocks after the first. */
  lemma NextBlock(ix: seq<int>, ix': seq<int>, dims: Dims, d: nat, i: nat)
    requires PrefixInDims(ix, dims, d) && d < |dims| && i < dims[d] && |ix'| == |ix|
    requires ix'[..d] == ix[..d] && ix'[d] == i
    ensures PrefixInDims(ix', dims, d + 1)
    ensures First(ix', dims, d + 1) == First(ix, dims, d) + i * Volume(dims[d + 1..])
  {
    assert forall j :: 0 <= j < d ==> ix'[j] == ix'[..d][j] == ix[..d][j];
    FirstSame(ix, ix', dims, d);
    FirstExtends(ix', dims, d);
  }

  lemma BlockVolume(dims: Dims, d: nat)
    requires d < |dims|
    ensures Volume(dims[d..]) == dims[d] * Volume(dims[d + 1..])
  {
    assert dims[d..][1..] == dims[d + 1..];
  }

  // ---------------------------------------------------------------- GatherForward

  /** The first elements of the output are those read from their sources. */
  ghost predicate PulledUpTo(o: seq<real>, x: seq<real>, offs: seq<int>, count: int) {
    count <= |o| == |offs| && forall q :: 0 <= q < count ==> o[q] == At(x, offs[q])
  }

  /** The recursion of GatherForward: it fills the block of elements under the current prefix. */
  method RecurseForward(d: nat, s: Shape, dst: array<int>, src: array<int>, inStrides: seq<nat>, outStrides: seq<nat>,
                        input: array<real>, output: array<real>)
    requires Ready(s) && dst != src && dst.Length == src.Length == |s.inDims|
    requires inStrides == Strides(s.inDims) && outStrides == Strides(s.idxDims)
    requires input != output && input.Length == Volume(s.inDims)
    requires PrefixInDims(dst[..], s.idxDims, d)
    requires PulledUpTo(output[..], input[..], Offsets(s), First(dst[..], s.idxDims, d))
    modifies dst, src, output
    ensures dst[..d] == old(dst[..d])
    ensures PulledUpTo(output[..], input[..], Offsets(s), old(First(dst[..], s.idxDims, d)) + Volume(s.idxDims[d..]))
    decreases |s.inDims| - d
  {
    hide Flatten, Strides, Volume, Ready, First, Offsets;
    ReadyRank(s);
    if d == |s.inDims| {
      AtLeaf(dst[..], s.idxDims);
      var dstOffset, srcOffset := Locate(s, dst, src, inStrides, outStrides);
      output[dstOffset] := input[srcOffset];
      return;
    }
    var limit := s.idxDims[d];
    ghost var ix0 := dst[..];
    BlockVolume(s.idxDims, d);
    for i := 0 to limit
      invariant dst[..d] == ix0[..d]
      invariant PulledUpTo(output[..], input[..], Offsets(s), First(ix0, s.idxDims, d) + i * Volume(s.idxDims[d + 1..]))
    {
      dst[d] := i;
      NextBlock(ix0, dst[..], s.idxDims, d, i);
      RecurseForward(d + 1, s, dst, src, inStrides, outStrides, input, output);
      assert dst[..d] == dst[..d + 1][..d];
      OneMore(i, Volume(s.idxDims[d + 1..]));
    }
  }

  lemma OneMore(i: nat, v: nat)
    ensures i * v + v == (i + 1) * v
  {
  }

  lemma ReadyRank(s: Shape)
    requires Ready(s)
    ensures |s.inDims| == |s.idxDims| && |s.norm| == Volume(s.idxDims)
  {
  }

  /** The index that the entry v selects: counted from the end if it is negative, clamped if it is out of range. */
  function Selected(v: int, size: nat): int {
    if v < 0 - size then 0 else if v < 0 then v + size else if v < size then v else -1 + size
  }

  /** Output element ix is the input's element at ix with its index along dim replaced by the selected one. */
  lemma GatheredAt(x: seq<real>, index: seq<int>, inDims: Dims, idxDims: Dims, dim: nat, ix: seq<int>, j: int)
    requires Allowed(inDims, idxDims, dim) && |x| == Volume(inDims) && |index| == Volume(idxDims) && inDims[dim] > 0
    requires InDims(ix, idxDims)
    ensures 0 <= Flatten(ix, idxDims) < |index|
    ensures j == Selected(index[Flatten(ix, idxDims)], inDims[dim]) ==>
              && 0 <= j < inDims[dim] && 0 <= Flatten(ix[dim := j], inDims) < |x|
              && Sources(Norms(index, inDims[dim]), inDims, idxDims, dim)[Flatten(ix, idxDims)] ==
                Flatten(ix[dim := j], inDims)
  {
    UnflattenFlatten(ix, idxDims);
    if j == Selected(index[Flatten(ix, idxDims)], inDims[dim]) {
      assert InDims(ix[dim := j], inDims);
      FlattenInRange(ix[dim := j], inDims);
    }
  }

  /**
   * For every index ix of the output: the element is that of the input at ix with its index along dim (counted
   * from the end if negative) replaced by the index tensor's entry (counted from the end if negative, clamped).
   */
  ghost predicate GathersAll(r: seq<real>, x: seq<real>, inDims: Dims, index: seq<int>, idxDims: Dims, dim: int)
    requires |r| == |index| == Volume(idxDims) && |x| == Volume(inDims)
  {
    var d := if dim < 0 then dim + |inDims| else dim;
    && 0 <= d < |inDims| == |idxDims|
    && forall ix: seq<int> :: InDims(ix, idxDims) ==>
         (FlattenInRange(ix, idxDims);
          var q := Flatten(ix, idxDims);
          var p := Flatten(ix[d := Selected(index[q], inDims[d])], inDims);
          0 <= p < |x| && r[q] == x[p])
  }

  lemma GathersEach(r: seq<real>, x: seq<real>, inDims: Dims, index: seq<int>, idxDims: Dims, dim: int)
    requires |r| == |index| == Volume(idxDims) && |x| == Volume(inDims)
    requires Allowed(inDims, idxDims, FromFront(dim, |inDims|))
    requires inDims[FromFront(dim, |inDims|)] > 0 || index == []
    requires var d := FromFront(dim, |inDims|); r == Pull(x, Sources(Norms(index, inDims[d]), inDims, idxDims, d))
    ensures GathersAll(r, x, inDims, index, idxDims, dim)
  {
    var d := FromFront(dim, |inDims|);
    forall ix: seq<int> | InDims(ix, idxDims)
      ensures (FlattenInRange(ix, idxDims);
               var q := Flatten(ix, idxDims);
               var p := Flatten(ix[d := Selected(index[q], inDims[d])], inDims);
               0 <= p < |x| && r[q] == x[p])
    {
      FlattenInRange(ix, idxDims);
      GatheredAt(x, index, inDims, idxDims, d, ix, Selected(index[Flatten(ix, idxDims)], inDims[d]));
      hide Flatten, Source, Sources, Norms, Selected;
    }
  }

  method GatherForward(input: array<real>, inDims: Dims, index: array<int>, idxDims: Dims, dim: int)
    returns (r: Option<array<real>>)
    requires input.Length == Volume(inDims) && index.Length == Volume(idxDims)
    requires var d := FromFront(dim, |inDims|);
             Allowed(inDims, idxDims, d) ==> inDims[d] > 0 || index.Length == 0
    ensures r.Some? <==> Allowed(inDims, idxDims, FromFront(dim, |inDims|))
    ensures r.Some? ==>
              var d := FromFront(dim, |inDims|);
              fresh(r.value) && r.value[..] == Pull(input[..], Sources(Norms(index[..], inDims[d]), inDims, idxDims, d))
    ensures r.Some? ==>
            r.value.Length == index.Length && GathersAll(r.value[..], input[..], inDims, index[..], idxDims, dim)
  {
    hide Flatten, Strides, Volume, First, NormIndex, Source;
    var d := FromFront(dim, |inDims|);
    var ok := CheckShape(inDims, idxDims, d);
    if !ok {
      return None;
    }
    var output := new real[Volume(idxDims)];
    var inStrides := ComputeStrides(inDims);
    var outStrides := ComputeStrides(idxDims);
    var norm := Normalize(index, inDims[d]);
    var s := Shape(inDims, idxDims, d, norm);
    IsReady(index[..], inDims, idxDims, d);
    var dst := new int[|idxDims|](_ => 0);
    var src := new int[|inDims|](_ => 0);
    FirstOfNone(dst[..], idxDims);
    assert idxDims[0..] == idxDims;
    RecurseForward(0, s, dst, src, inStrides, outStrides, input, output);
    GathersEach(output[..], input[..], inDims, index[..], idxDims, dim);
    return Some(output);
  }

  method CheckShape(inDims: Dims, idxDims: Dims, dim: int) returns (ok: bool)
    ensures ok == Allowed(inDims, idxDims, dim)
  {
    if |inDims| != |idxDims| || dim < 0 || dim >= |inDims| {
      return false;
    }
    for d := 0 to |inDims|
      invariant forall e :: 0 <= e < d && e != dim ==> idxDims[e] <= inDims[e]
    {
      if d == dim {
        continue;
      }
      if idxDims[d] > inDims[d] {
        return false;
      }
    }
    ok := true;
  }

  lemma IsReady(index: seq<int>, inDims: Dims, idxDims: Dims, d: nat)
    requires Allowed(inDims, idxDims, d) && |index| == Volume(idxDims) && (inDims[d] > 0 || index == [])
    ensures Ready(Shape(inDims, idxDims, d, Norms(index, inDims[d])))
  {
    forall q | 0 <= q < |index|
      ensures 0 <= NormIndex(index[q], inDims[d]) < inDims[d]
    {
      NormIndexInBounds(index[q], inDims[d]);
    }
  }

  // ---------------------------------------------------------------- GatherBackward

  /** The recursion of GatherBackward: it sends back the gradients of the block under the current prefix. */
  method RecurseBackward(d: nat, s: Shape, dst: array<int>, src: array<int>, inStrides: seq<nat>, outStrides: seq<nat>,
                         g: array<real>, gradInput: array<real>)
    requires Ready(s) && dst != src && dst.Length == src.Length == |s.inDims|
    requires inStrides == Strides(s.inDims) && outStrides == Strides(s.idxDims)
    requires g != gradInput && g.Length == |s.norm| && gradInput.Length == Volume(s.inDims)
    requires PrefixInDims(dst[..], s.idxDims, d)
    requires First(dst[..], s.idxDims, d) >= 0
    requires ReceivedUpTo(gradInput[..], Offsets(s), g[..], First(dst[..], s.idxDims, d))
    modifies dst, src, gradInput
    ensures dst[..d] == old(dst[..d])
    ensures ReceivedUpTo(gradInput[..], Offsets(s), g[..], old(First(dst[..], s.idxDims, d)) + Volume(s.idxDims[d..]))
    decreases |s.inDims| - d
  {
    hide Flatten, Strides, Volume, Ready, First, Offsets, ReceivedUpTo;
    ReadyRank(s);
    if d == |s.inDims| {
      AtLeaf(dst[..], s.idxDims);
      var dstOffset, srcOffset := Locate(s, dst, src, inStrides, outStrides);
      AddAt(gradInput, Offsets(s), g[..], dstOffset, srcOffset, g[dstOffset]);
      return;
    }
    var limit := s.idxDims[d];
    ghost var ix0 := dst[..];
    BlockVolume(s.idxDims, d);
    for i := 0 to limit
      invariant dst[..d] == ix0[..d]
      invariant First(ix0, s.idxDims, d) + i * Volume(s.idxDims[d + 1..]) >= 0
      invariant ReceivedUpTo(gradInput[..], Offsets(s), g[..],
                First(ix0, s.idxDims, d) + i * Volume(s.idxDims[d + 1..]))
    {
      dst[d] := i;
      NextBlock(ix0, dst[..], s.idxDims, d, i);
      RecurseBackward(d + 1, s, dst, src, inStrides, outStrides, g, gradInput);
      assert dst[..d] == dst[..d + 1][..d];
      OneMore(i, Volume(s.idxDims[d + 1..]));
    }
  }

  /**
   * For every element p of the input: the sum of the gradients of those output elements whose index, with
   * the entry of the index tensor along dim, is that of p.
   */
  ghost predicate SendsBackAll(r: seq<real>, g: seq<real>, inDims: Dims, index: seq<int>, idxDims: Dims, dim: int)
    requires |g| == |index| == Volume(idxDims) && |r| == Volume(inDims)
  {
    var d := if dim < 0 then dim + |inDims| else dim;
    && 0 <= d < |inDims| == |idxDims|
    && forall p: nat :: p < |r| ==>
         r[p] == Sum(|g|, (q: nat) =>
                   if q < |g| && Flatten(Unflatten(q, idxDims)[d := Selected(index[q], inDims[d])], inDims) == p
                   then g[q] else 0.0)
  }

  lemma SendsBackEach(r: seq<real>, g: seq<real>, inDims: Dims, index: seq<int>, idxDims: Dims, dim: int)
    requires |g| == |index| == Volume(idxDims) && |r| == Volume(inDims)
    requires Allowed(inDims, idxDims, FromFront(dim, |inDims|))
    requires inDims[FromFront(dim, |inDims|)] > 0 || index == []
    requires var d := FromFront(dim, |inDims|);
             r == Scatter(Sources(Norms(index, inDims[d]), inDims, idxDims, d), g, Volume(inDims))
    ensures SendsBackAll(r, g, inDims, index, idxDims, dim)
  {
    var d := FromFront(dim, |inDims|);
    var offs := Sources(Norms(index, inDims[d]), inDims, idxDims, d);
    forall p: nat | p < |r|
      ensures r[p] == Sum(|g|, (q: nat) =>
                        if q < |g| && Flatten(Unflatten(q, idxDims)[d := Selected(index[q], inDims[d])], inDims) == p
                        then g[q] else 0.0)
    {
      SumExt(|g|, Landing(offs, g, p), (q: nat) =>
                        if q < |g| && Flatten(Unflatten(q, idxDims)[d := Selected(index[q], inDims[d])], inDims) == p
                        then g[q] else 0.0);
    }
  }

  method GatherBackward(g: array<real>, index: array<int>, idxDims: Dims, dim: int, inDims: Dims)
    returns (r: Option<array<real>>)
    requires g.Length == index.Length == Volume(idxDims)
    requires var d := FromFront(dim, |inDims|);
             Allowed(inDims, idxDims, d) ==> inDims[d] > 0 || index.Length == 0
    ensures r.Some? <==> Allowed(inDims, idxDims, FromFront(dim, |inDims|))
    ensures r.Some? ==>
              var d := FromFront(dim, |inDims|);
              fresh(r.value) &&
                r.value[..] == Scatter(Sources(Norms(index[..], inDims[d]), inDims, idxDims, d), g[..], Volume(inDims))
    ensures r.Some? ==> r.value.Length == Volume(inDims)
    ensures r.Some? ==> SendsBackAll(r.value[..], g[..], inDims, index[..], idxDims, dim)
  {
    hide Flatten, Strides, Volume, First, NormIndex, Source, ReceivedUpTo, Scatter;
    var d := FromFront(dim, |inDims|);
    var ok := CheckShape(inDims, idxDims, d);
    if !ok {
      return None;
    }
    var gradInput := new real[Volume(inDims)](_ => 0.0);
    var inStrides := ComputeStrides(inDims);
    var outStrides := ComputeStrides(idxDims);
    var norm := Normalize(index, inDims[d]);
    var s := Shape(inDims, idxDims, d, norm);
    IsReady(index[..], inDims, idxDims, d);
    var dst := new int[|idxDims|](_ => 0);
    var src := new int[|inDims|](_ => 0);
    FirstOfNone(dst[..], idxDims);
    assert idxDims[0..] == idxDims;
    NoneReceived(gradInput[..], Offsets(s), g[..]);
    RecurseBackward(0, s, dst, src, inStrides, outStrides, g, gradInput);
    AllReceived(gradInput[..], Offsets(s), g[..]);
    SendsBackEach(gradInput[..], g[..], inDims, index[..], idxDims, dim);
    return Some(gradInput);
  }

  /** GatherBackward is the adjoint of GatherForward, for any rank and index tensor of allowed shape. */
  lemma GatherAdjoint(x: seq<real>, g: seq<real>, index: seq<int>, inDims: Dims, idxDims: Dims, dim: nat)
    requires Allowed(inDims, idxDims, dim) && |x| == Volume(inDims) && |g| == |index| == Volume(idxDims)
    requires inDims[dim] > 0 || index == []
    ensures var offs := Sources(Norms(index, inDims[dim]), inDims, idxDims, dim);
            Dot(Pull(x, offs), g) == Dot(x, Scatter(offs, g, |x|))
  {
    InBoundsExactlyWhen(index, inDims, idxDims, dim);
    ScatterIsAdjoint(x, Sources(Norms(index, inDims[dim]), inDims, idxDims, dim), g);
  }
}
