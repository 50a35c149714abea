/** The transpose kernel: two dimensions of a tensor of any rank exchanged. */
module Transpose {
  import opened Wrappers
  import opened RealFacts
  import opened NdIndex

  function Swap<T>(s: seq<T>, d0: nat, d1: nat): (r: seq<T>)
    requires d0 < |s| && d1 < |s|
    ensures |r| == |s| && r[d0] == s[d1] && r[d1] == s[d0]
    ensures forall i :: 0 <= i < |s| && i != d0 && i != d1 ==> r[i] == s[i]
  {
    s[d0 := s[d1]][d1 := s[d0]]
  }

  lemma SwapTwice<T>(s: seq<T>, d0: nat, d1: nat)
    requires d0 < |s| && d1 < |s|
    ensures Swap(Swap(s, d0, d1), d0, d1) == s && Swap(Swap(s, d0, d1), d1, d0) == s
  {
  }

  lemma SwapInDims(ix: seq<int>, dims: Dims, d0: nat, d1: nat)
    requires InDims(ix, dims) && d0 < |dims| && d1 < |dims|
    ensures InDims(Swap(ix, d0, d1), Swap(dims, d0, d1))
  {
  }

  /** Volume does not depend on the order of the dimensions. */
  lemma {:induction false} VolumeRemove(dims: Dims, i: nat)
    requires i < |dims|
    ensures Volume(dims) == dims[i] * Volume(dims[..i] + dims[i + 1..])
  {
    var rest := dims[..i] + dims[i + 1..];
    if i == 0 {
      assert rest == dims[1..];
    } else {
      VolumeRemove(dims[1..], i - 1);
      assert rest[1..] == dims[1..][..i - 1] + dims[1..][i..];
      Exchange(dims[0], dims[i], Volume(rest[1..]));
    }
  }

  lemma Exchange(a: nat, b: nat, v: nat)
    ensures a * (b * v) == b * (a * v)
  {
  }

  lemma {:induction false} VolumeAnyOrder(dims: Dims, dims': Dims)
    requires multiset(dims) == multiset(dims')
    ensures Volume(dims) == Volume(dims')
    decreases |dims|
  {
    if dims == [] {
      assert |multiset(dims')| == 0;
    } else {
      var i := PickOut(dims, dims');
      VolumeRemove(dims', i);
      VolumeAnyOrder(dims[1..], dims'[..i] + dims'[i + 1..]);
    }
  }

  lemma SwapKeepsVolume(dims: Dims, d0: nat, d1: nat)
    requires d0 < |dims| && d1 < |dims|
    ensures Volume(Swap(dims, d0, d1)) == Volume(dims)
  {
    VolumeAnyOrder(Swap(dims, d0, d1), dims);
  }

  /** Where the element at offset q goes. */
  function Target(q: nat, dims: Dims, d0: nat, d1: nat): (t: nat)
    requires q < Volume(dims) && d0 < |dims| && d1 < |dims|
    ensures t < Volume(Swap(dims, d0, d1))
  {
    var ix := Swap(Unflatten(q, dims), d0, d1);
    UnflattenInDims(q, dims);
    SwapInDims(Unflatten(q, dims), dims, d0, d1);
    FlattenInRange(ix, Swap(dims, d0, d1));
    Flatten(ix, Swap(dims, d0, d1))
  }

  /** The target's own target, with the dimensions exchanged back, is the place it came from. */
  lemma TargetOfTarget(q: nat, dims: Dims, d0: nat, d1: nat)
    requires q < Volume(dims) && d0 < |dims| && d1 < |dims|
    ensures Target(Target(q, dims, d0, d1), Swap(dims, d0, d1), d1, d0) == q
  {
    var ix := Unflatten(q, dims);
    UnflattenInDims(q, dims);
    SwapInDims(ix, dims, d0, d1);
    UnflattenFlatten(Swap(ix, d0, d1), Swap(dims, d0, d1));
    SwapTwice(ix, d0, d1);
    SwapTwice(dims, d0, d1);
    FlattenUnflatten(q, dims);
  }

  /** output[.. ix1 .. ix0 ..] = input[.. ix0 .. ix1 ..]: element q of the output comes from q's target in the input. */
  function Transposed(s: seq<real>, dims: Dims, d0: nat, d1: nat): (r: seq<real>)
    requires |s| == Volume(dims) && d0 < |dims| && d1 < |dims|
    ensures |r| == Volume(Swap(dims, d0, d1))
  {
    SwapTwice(dims, d0, d1);
    seq(Volume(Swap(dims, d0, d1)),
      (q: nat) requires q < Volume(Swap(dims, d0, d1)) => s[Target(q, Swap(dims, d0, d1), d1, d0)])
  }

  /** The element at an index, both read as tensors. */
  lemma TransposedAt(s: seq<real>, dims: Dims, d0: nat, d1: nat, ix: seq<int>)
    requires |s| == Volume(dims) && d0 < |dims| && d1 < |dims| && InDims(ix, dims)
    ensures 0 <= Flatten(ix, dims) < |s|
    ensures InDims(Swap(ix, d0, d1), Swap(dims, d0, d1))
    ensures 0 <= Flatten(Swap(ix, d0, d1), Swap(dims, d0, d1)) < |Transposed(s, dims, d0, d1)|
    ensures Transposed(s, dims, d0, d1)[Flatten(Swap(ix, d0, d1), Swap(dims, d0, d1))] == s[Flatten(ix, dims)]
  {
    SwapInDims(ix, dims, d0, d1);
    UnflattenFlatten(ix, dims);
    UnflattenFlatten(Swap(ix, d0, d1), Swap(dims, d0, d1));
    SwapTwice(ix, d0, d1);
    SwapTwice(dims, d0, d1);
  }

  /** dim < 0 counts from the end. None when the CHECK fails. */
  function Normalized(dim: int, rank: nat): Option<nat> {
    var d := if dim < 0 then dim + rank else dim;
    if 0 <= d < rank then Some(d) else None
  }

  /**
   * Dimensions may be counted from the end. The output has the two dimensions exchanged, and for every index
   * of the input its element at the index with the two exchanged is the input's.
   */
  ghost predicate Transposes(r: seq<real>, outDims: Dims, x: seq<real>, dims: Dims, dim0: int, dim1: int)
    requires |x| == Volume(dims)
  {
    var d0, d1 := if dim0 < 0 then dim0 + |dims| else dim0, if dim1 < 0 then dim1 + |dims| else dim1;
    && 0 <= d0 < |dims| && 0 <= d1 < |dims|
    && outDims == dims[d0 := dims[d1]][d1 := dims[d0]] && |r| == |x|
    && forall ix: seq<int> :: InDims(ix, dims) ==>
         (FlattenInRange(ix, dims);
          var t := Flatten(ix[d0 := ix[d1]][d1 := ix[d0]], outDims);
          0 <= t < |r| && r[t] == x[Flatten(ix, dims)])
  }

  lemma TransposesEach(x: seq<real>, dims: Dims, dim0: int, dim1: int)
    requires |x| == Volume(dims) && Normalized(dim0, |dims|).Some? && Normalized(dim1, |dims|).Some?
    ensures var d0, d1 := Normalized(dim0, |dims|).value, Normalized(dim1, |dims|).value;
            Transposes(Transposed(x, dims, d0, d1), Swap(dims, d0, d1), x, dims, dim0, dim1)
  {
    var d0, d1 := Normalized(dim0, |dims|).value, Normalized(dim1, |dims|).value;
    var r, outDims := Transposed(x, dims, d0, d1), Swap(dims, d0, d1);
    SwapKeepsVolume(dims, d0, d1);
    hide Flatten, Transposed, Volume;
    forall ix: seq<int> | InDims(ix, dims)
      ensures (FlattenInRange(ix, dims);
               var t := Flatten(ix[d0 := ix[d1]][d1 := ix[d0]], outDims);
               0 <= t < |r| && r[t] == x[Flatten(ix, dims)])
    {
      FlattenInRange(ix, dims);
      TransposedAt(x, dims, d0, d1, ix);
    }
  }

  method TransposeForward(input: array<real>, dims: Dims, dim0: int, dim1: int) returns (r: Option<(array<real>, Dims)>)
    requires input.Length == Volume(dims)
    ensures r.Some? <==> -|dims| <= dim0 < |dims| && -|dims| <= dim1 < |dims|
    ensures r.Some? ==> Transposes(r.value.0[..], r.value.1, input[..], dims, dim0, dim1)
    ensures r.Some? <==> Normalized(dim0, |dims|).Some? && Normalized(dim1, |dims|).Some?
    ensures r.Some? ==>
              var d0, d1 := Normalized(dim0, |dims|).value, Normalized(dim1, |dims|).value;
              && fresh(r.value.0) && r.value.1 == Swap(dims, d0, d1)
              && r.value.0[..] == Transposed(input[..], dims, d0, d1)
  {
    hide Transposed, Target, Flatten, Unflatten, Volume, Transposes;
    var d0 := if dim0 < 0 then dim0 + |dims| else dim0;
    var d1 := if dim1 < 0 then dim1 + |dims| else dim1;
    if !(0 <= d0 < |dims| && 0 <= d1 < |dims|) {
      return None;
    }
    var outDims := Swap(dims, d0, d1);
    SwapKeepsVolume(dims, d0, d1);
    var output := new real[Volume(outDims)];
    var inStrides := ComputeStrides(dims);
    var outStrides := ComputeStrides(outDims);
    for idx := 0 to output.Length
      invariant forall q: nat :: q < idx ==> output[Target(q, dims, d0, d1)] == input[q]
    {
      var inIndex := IndexOf(idx, dims, inStrides);
      inIndex := Swap(inIndex, d0, d1);
      var outIdx := OffsetOf(inIndex, outDims, outStrides);
      TargetIs(idx, dims, d0, d1);
      TargetsDiffer(idx, dims, d0, d1);
      output[outIdx] := input[idx];
    }
    AllPlaced(output[..], input[..], dims, d0, d1);
    TransposesEach(input[..], dims, dim0, dim1);
    return Some((output, outDims));
  }

  lemma TargetIs(q: nat, dims: Dims, d0: nat, d1: nat)
    requires q < Volume(dims) && d0 < |dims| && d1 < |dims|
    ensures Target(q, dims, d0, d1) == Flatten(Swap(Unflatten(q, dims), d0, d1), Swap(dims, d0, d1))
  {
  }

  /**
   * Every output element is written exactly once: no earlier element has the same target, and every
   * place is a target.
   */
  lemma TargetsDiffer(q: nat, dims: Dims, d0: nat, d1: nat)
    requires q < Volume(dims) && d0 < |dims| && d1 < |dims|
    ensures forall q': nat :: q' < Volume(dims) && q' != q ==> Target(q', dims, d0, d1) != Target(q, dims, d0, d1)
  {
    hide Target;
    forall q': nat | q' < Volume(dims) && q' != q
      ensures Target(q', dims, d0, d1) != Target(q, dims, d0, d1)
    {
      TargetOfTarget(q, dims, d0, d1);
      TargetOfTarget(q', dims, d0, d1);
    }
  }

  lemma AllPlaced(o: seq<real>, s: seq<real>, dims: Dims, d0: nat, d1: nat)
    requires d0 < |dims| && d1 < |dims| && |s| == Volume(dims) && |o| == Volume(Swap(dims, d0, d1))
    requires forall q: nat :: q < |s| ==> o[Target(q, dims, d0, d1)] == s[q]
    ensures o == Transposed(s, dims, d0, d1)
  {
    hide Target;
    var out := Swap(dims, d0, d1);
    SwapTwice(dims, d0, d1);
    forall t: nat | t < |o|
      ensures o[t] == Transposed(s, dims, d0, d1)[t]
    {
      TargetOfTarget(t, out, d1, d0);
    }
  }

  method TransposeBackward(gradOutput: array<real>, dims: Dims, dim0: int, dim1: int)
    returns (r: Option<(array<real>, Dims)>)
    requires gradOutput.Length == Volume(dims)
    ensures r.Some? ==> Transposes(r.value.0[..], r.value.1, gradOutput[..], dims, dim1, dim0)
    ensures r.Some? <==> Normalized(dim0, |dims|).Some? && Normalized(dim1, |dims|).Some?
    ensures r.Some? ==>
              var d0, d1 := Normalized(dim0, |dims|).value, Normalized(dim1, |dims|).value;
              && fresh(r.value.0) && r.value.1 == Swap(dims, d1, d0)
              && r.value.0[..] == Transposed(gradOutput[..], dims, d1, d0)
  {
    r := TransposeForward(gradOutput, dims, dim1, dim0);
  }

  /** Backward after forward is the identity, on shape and elements. */
  lemma BackwardUndoesForward(s: seq<real>, dims: Dims, d0: nat, d1: nat)
    requires |s| == Volume(dims) && d0 < |dims| && d1 < |dims|
    ensures Swap(Swap(dims, d0, d1), d1, d0) == dims
    ensures Transposed(Transposed(s, dims, d0, d1), Swap(dims, d0, d1), d1, d0) == s
  {
    hide Target;
    SwapTwice(dims, d0, d1);
    var t := Transposed(s, dims, d0, d1);
    forall q: nat | q < |s|
      ensures Transposed(t, Swap(dims, d0, d1), d1, d0)[q] == s[q]
    {
      TargetOfTarget(q, dims, d0, d1);
    }
  }
}
