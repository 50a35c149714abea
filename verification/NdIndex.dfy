/**
 * Row-major indexing of tensors of any rank: strides, flat offsets, and that flattening and
 * unflattening are inverse to each other.
 */
module NdIndex {
  import opened RealSums

  type Dims = seq<nat>

  function Volume(dims: Dims): nat {
    if dims == [] then 1 else dims[0] * Volume(dims[1..])
  }

  /** How far apart, in the flat buffer, neighbours along each dimension lie. */
  function Strides(dims: Dims): (s: seq<nat>)
    ensures |s| == |dims|
  {
    if dims == [] then [] else [Volume(dims[1..])] + Strides(dims[1..])
  }

  /** The flat offset of an index. */
  function Flatten(ix: seq<int>, dims: Dims): int
    requires |ix| == |dims|
  {
    if dims == [] then 0 else ix[0] * Volume(dims[1..]) + Flatten(ix[1..], dims[1..])
  }

  predicate InDims(ix: seq<int>, dims: Dims) {
    |ix| == |dims| && forall i :: 0 <= i < |dims| ==> 0 <= ix[i] < dims[i]
  }

  /** The index at a flat offset. */
  function Unflatten(q: nat, dims: Dims): (ix: seq<int>)
    requires q < Volume(dims)
    ensures |ix| == |dims|
  {
    if dims == [] then []
    else
      Encode(q, dims[0], Volume(dims[1..]));
      [q / Volume(dims[1..])] + Unflatten(q % Volume(dims[1..]), dims[1..])
  }

  lemma {:induction false} StrideAt(dims: Dims, i: nat)
    requires i < |dims|
    ensures Strides(dims)[i] == Volume(dims[i + 1..])
  {
    if i > 0 {
      StrideAt(dims[1..], i - 1);
      assert dims[1..][i..] == dims[i + 1..];
    }
  }

  lemma {:induction false} FlattenInRange(ix: seq<int>, dims: Dims)
    requires InDims(ix, dims)
    ensures 0 <= Flatten(ix, dims) < Volume(dims)
  {
    if dims != [] {
      FlattenInRange(ix[1..], dims[1..]);
      InRange(ix[0], dims[0], Flatten(ix[1..], dims[1..]), Volume(dims[1..]));
    }
  }

  lemma {:induction false} UnflattenInDims(q: nat, dims: Dims)
    requires q < Volume(dims)
    ensures InDims(Unflatten(q, dims), dims)
  {
    if dims != [] {
      Encode(q, dims[0], Volume(dims[1..]));
      UnflattenInDims(q % Volume(dims[1..]), dims[1..]);
    }
  }

  lemma {:induction false} FlattenUnflatten(q: nat, dims: Dims)
    requires q < Volume(dims)
    ensures Flatten(Unflatten(q, dims), dims) == q
  {
    if dims != [] {
      Encode(q, dims[0], Volume(dims[1..]));
      FlattenUnflatten(q % Volume(dims[1..]), dims[1..]);
      assert Unflatten(q, dims)[1..] == Unflatten(q % Volume(dims[1..]), dims[1..]);
    }
  }

  lemma {:induction false} UnflattenFlatten(ix: seq<int>, dims: Dims)
    requires InDims(ix, dims)
    ensures 0 <= Flatten(ix, dims) < Volume(dims)
    ensures Unflatten(Flatten(ix, dims), dims) == ix
  {
    FlattenInRange(ix, dims);
    if dims != [] {
      UnflattenFlatten(ix[1..], dims[1..]);
      Decode(ix[0], Volume(dims[1..]), Flatten(ix[1..], dims[1..]));
    }
  }

  lemma {:induction false} FlattenMonotone(ix: seq<int>, ix': seq<int>, dims: Dims)
    requires |ix| == |ix'| == |dims| && forall i :: 0 <= i < |dims| ==> ix[i] <= ix'[i]
    ensures Flatten(ix, dims) <= Flatten(ix', dims)
  {
    if dims != [] {
      FlattenMonotone(ix[1..], ix'[1..], dims[1..]);
      assert (ix'[0] - ix[0]) * Volume(dims[1..]) >= 0;
      assert (ix'[0] - ix[0]) * Volume(dims[1..]) == ix'[0] * Volume(dims[1..]) - ix[0] * Volume(dims[1..]);
    }
  }

  lemma {:induction false} FlattenOfZeros(dims: Dims)
    ensures Flatten(seq(|dims|, _ => 0), dims) == 0
  {
    if dims != [] {
      assert seq(|dims|, _ => 0)[1..] == seq(|dims[1..]|, _ => 0);
      FlattenOfZeros(dims[1..]);
    }
  }

  lemma {:induction false} VolumePositive(dims: Dims)
    ensures Volume(dims) > 0 <==> forall i :: 0 <= i < |dims| ==> dims[i] > 0
  {
    if dims != [] {
      VolumePositive(dims[1..]);
      assert dims[0] > 0 && Volume(dims[1..]) > 0 ==> dims[0] * Volume(dims[1..]) > 0;
      assert (forall i :: 0 <= i < |dims| ==> dims[i] > 0) <==>
             dims[0] > 0 && forall i :: 0 <= i < |dims[1..]| ==> dims[1..][i] > 0;
    }
  }

  /** Row-major order, written out for three dimensions. */
  lemma RowMajor(i: int, j: int, k: int, a: nat, b: nat, c: nat)
    ensures Volume([a, b, c]) == a * (b * c)
    ensures Strides([a, b, c]) == [b * c, c, 1]
    ensures Flatten([i, j, k], [a, b, c]) == i * (b * c) + j * c + k
  {
    assert [a, b, c][1..] == [b, c] && [b, c][1..] == [c] && [c][1..] == [];
    assert [i, j, k][1..] == [j, k] && [j, k][1..] == [k] && [k][1..] == [];
    assert Volume([c]) == c && Volume([b, c]) == b * c;
    assert Strides([c]) == [1] && Strides([b, c]) == [c, 1];
    assert Flatten([k], [c]) == k && Flatten([j, k], [b, c]) == j * c + k;
  }

  // ---------------------------------------------------------------- the loops

  lemma StridesStep(dims: Dims, i: nat)
    requires i + 1 < |dims|
    ensures Volume(dims[i + 1..]) == Volume(dims[i + 2..]) * dims[i + 1]
  {
    assert dims[i + 1..][1..] == dims[i + 2..];
  }

  lemma StridesEqual(dims: Dims, s: seq<nat>)
    requires |s| == |dims| && forall i :: 0 <= i < |dims| ==> s[i] == Volume(dims[i + 1..])
    ensures s == Strides(dims)
  {
    forall i | 0 <= i < |dims|
      ensures s[i] == Strides(dims)[i]
    {
      StrideAt(dims, i);
    }
  }

  method ComputeStrides(dims: Dims) returns (strides: seq<nat>)
    ensures strides == Strides(dims)
  {
    hide Volume, Strides;
    strides := seq(|dims|, _ => 1);
    var i := |dims| - 2;
    assert dims[|dims|..] == [];
    VolumeOfNone();
    while i >= 0
      invariant -2 <= i < |dims| && |strides| == |dims|
      invariant forall j :: i < j < |dims| && 0 <= j ==> strides[j] == Volume(dims[j + 1..])
    {
      StridesStep(dims, i);
      strides := strides[i := strides[i + 1] * dims[i + 1]];
      i := i - 1;
    }
    StridesEqual(dims, strides);
  }

  lemma VolumeOfNone()
    ensures Volume([]) == 1
  {
  }

  /** index[i] = temp / strides[i]; temp %= strides[i], for every dimension in turn. */
  method IndexOf(q: nat, dims: Dims, strides: seq<nat>) returns (ix: seq<int>)
    requires q < Volume(dims) && strides == Strides(dims)
    ensures ix == Unflatten(q, dims)
  {
    hide Unflatten;
    ix := [];
    var temp := q;
    assert dims[0..] == dims;
    for i := 0 to |dims|
      invariant 0 <= temp < Volume(dims[i..])
      invariant ix + Unflatten(temp, dims[i..]) == Unflatten(q, dims)
    {
      StrideAt(dims, i);
      UnflattenStep(temp, dims, i, ix);
      ix := ix + [temp / strides[i]];
      temp := temp % strides[i];
    }
  }

  lemma UnflattenStep(temp: nat, dims: Dims, i: nat, ix: seq<int>)
    requires i < |dims| && temp < Volume(dims[i..])
    ensures var s := Volume(dims[i + 1..]);
            && s > 0 && 0 <= temp % s < s
            && ix + Unflatten(temp, dims[i..]) == (ix + [temp / s]) + Unflatten(temp % s, dims[i + 1..])
  {
    assert dims[i..][1..] == dims[i + 1..];
    Encode(temp, dims[i], Volume(dims[i + 1..]));
  }

  /** The offset, from the first dimension to the last. */
  method OffsetOf(ix: seq<int>, dims: Dims, strides: seq<nat>) returns (offset: int)
    requires |ix| == |dims| && strides == Strides(dims)
    ensures offset == Flatten(ix, dims)
  {
    hide Flatten;
    offset := 0;
    assert dims[0..] == dims && ix[0..] == ix;
    for i := 0 to |dims|
      invariant offset + Flatten(ix[i..], dims[i..]) == Flatten(ix, dims)
    {
      StrideAt(dims, i);
      FlattenStep(ix, dims, i);
      offset := offset + ix[i] * strides[i];
    }
    FlattenOfNone();
  }

  /** The offset, from the last dimension to the first. */
  method OffsetFromLast(ix: array<int>, dims: Dims, strides: seq<nat>) returns (offset: int)
    requires ix.Length == |dims| && strides == Strides(dims)
    ensures offset == Flatten(ix[..], dims)
  {
    hide Flatten;
    offset := 0;
    FlattenOfNone();
    assert ix[ix.Length..] == [] && dims[|dims|..] == [];
    var i := |dims| - 1;
    while i >= 0
      invariant -1 <= i < |dims|
      invariant offset == Flatten(ix[i + 1..], dims[i + 1..])
    {
      StrideAt(dims, i);
      FlattenStep(ix[..], dims, i);
      assert ix[..][i..] == ix[i..] && ix[..][i + 1..] == ix[i + 1..];
      offset := offset + ix[i] * strides[i];
      i := i - 1;
    }
    assert ix[0..] == ix[..] && dims[0..] == dims;
  }

  lemma FlattenStep(ix: seq<int>, dims: Dims, i: nat)
    requires |ix| == |dims| && i < |dims|
    ensures Flatten(ix[i..], dims[i..]) == ix[i] * Volume(dims[i + 1..]) + Flatten(ix[i + 1..], dims[i + 1..])
  {
    assert dims[i..][1..] == dims[i + 1..] && ix[i..][1..] == ix[i + 1..];
  }

  lemma FlattenOfNone()
    ensures Flatten([], []) == 0
  {
  }
}
