/** The elementwise binary kernels, which broadcast their second operand to the shape of the first. */
module Broadcast {
  import opened Wrappers
  import opened RealSums
  import opened NdIndex

  /** b is right-aligned to a and each of its dimensions is 1 or that of a. */
  predicate Broadcastable(dims: Dims, bdims: Dims) {
    |bdims| <= |dims| &&
    forall i :: 0 <= i < |bdims| ==> bdims[i] == 1 || bdims[i] == dims[|dims| - |bdims| + i]
  }

  /** The index of the element of b that index ix of a meets. */
  function Project(ix: seq<int>, bdims: Dims): (r: seq<int>)
    requires |bdims| <= |ix|
    ensures |r| == |bdims|
  {
    seq(|bdims|, i requires 0 <= i < |bdims| => if bdims[i] == 1 then 0 else ix[|ix| - |bdims| + i])
  }

  lemma ProjectInDims(ix: seq<int>, dims: Dims, bdims: Dims)
    requires Broadcastable(dims, bdims) && InDims(ix, dims)
    ensures InDims(Project(ix, bdims), bdims)
  {
  }

  /** The offset of the element of b that element q of a meets. */
  function MetOffset(q: nat, dims: Dims, bdims: Dims): (o: nat)
    requires q < Volume(dims) && |bdims| <= |dims|
  {
    UnflattenInDims(q, dims);
    FlattenMonotone(seq(|bdims|, _ => 0), Project(Unflatten(q, dims), bdims), bdims);
    FlattenOfZeros(bdims);
    Flatten(Project(Unflatten(q, dims), bdims), bdims)
  }

  // ---------------------------------------------------------------- where b is read

  /** Every element of a meets one inside the buffer of b. */
  ghost predicate ReadsInside(dims: Dims, bdims: Dims) {
    |bdims| <= |dims| && forall q: nat :: q < Volume(dims) ==> MetOffset(q, dims, bdims) < Volume(bdims)
  }

  lemma ReadInside(q: nat, dims: Dims, bdims: Dims)
    requires ReadsInside(dims, bdims) && q < Volume(dims)
    ensures |bdims| <= |dims| && MetOffset(q, dims, bdims) < Volume(bdims)
  {
  }

  lemma RanksInside(dims: Dims, bdims: Dims)
    requires ReadsInside(dims, bdims)
    ensures |bdims| <= |dims|
  {
  }

  /** The last index of a. */
  function LastIndex(dims: Dims): (ix: seq<int>)
    ensures |ix| == |dims|
  {
    seq(|dims|, i requires 0 <= i < |dims| => var d: int := dims[i]; d - 1)
  }

  /** The element of b that the last index meets lies inside, or there is none. */
  predicate LastInside(dims: Dims, bdims: Dims)
    requires |bdims| <= |dims|
  {
    Volume(dims) == 0 || Flatten(Project(LastIndex(dims), bdims), bdims) < Volume(bdims)
  }

  lemma LastInDims(dims: Dims)
    requires Volume(dims) > 0
    ensures InDims(LastIndex(dims), dims)
  {
    VolumePositive(dims);
  }

  /** All reads from b are in bounds exactly when the one at the last index is. */
  lemma ReadsInsideExactlyWhen(dims: Dims, bdims: Dims)
    requires |bdims| <= |dims|
    ensures ReadsInside(dims, bdims) <==> LastInside(dims, bdims)
  {
    hide Volume, Flatten, Unflatten;
    if Volume(dims) > 0 {
      var last := LastIndex(dims);
      LastInDims(dims);
      UnflattenFlatten(last, dims);
      if ReadsInside(dims, bdims) {
        ReadInside(Flatten(last, dims), dims, bdims);
      }
      forall q: nat | q < Volume(dims)
        ensures MetOffset(q, dims, bdims) <= Flatten(Project(last, bdims), bdims)
      {
        UnflattenInDims(q, dims);
        FlattenMonotone(Project(Unflatten(q, dims), bdims), Project(last, bdims), bdims);
      }
    }
  }

  /** Every element of a meets an index of b. */
  ghost predicate MeetsIndices(dims: Dims, bdims: Dims)
    requires |bdims| <= |dims|
  {
    forall q: nat :: q < Volume(dims) ==> InDims(Project(Unflatten(q, dims), bdims), bdims)
  }

  /** No dimension of b but 1 is shorter than that of a. */
  predicate NoneShorter(dims: Dims, bdims: Dims)
    requires |bdims| <= |dims|
  {
    forall i :: 0 <= i < |bdims| ==> bdims[i] == 1 || dims[|dims| - |bdims| + i] <= bdims[i]
  }

  lemma MeetsIndicesExactlyWhen(dims: Dims, bdims: Dims)
    requires |bdims| <= |dims| && Volume(dims) > 0
    ensures MeetsIndices(dims, bdims) <==> NoneShorter(dims, bdims)
  {
    hide Volume, Flatten, Unflatten, InDims, Project, NoneShorter;
    var last := LastIndex(dims);
    LastInDims(dims);
    UnflattenFlatten(last, dims);
    if MeetsIndices(dims, bdims) {
      assert InDims(Project(Unflatten(Flatten(last, dims), dims), bdims), bdims);
      LastMeets(dims, bdims);
    }
    if NoneShorter(dims, bdims) {
      forall q: nat | q < Volume(dims)
        ensures InDims(Project(Unflatten(q, dims), bdims), bdims)
      {
        UnflattenInDims(q, dims);
        MeetsIndex(Unflatten(q, dims), dims, bdims);
      }
    }
  }

  lemma LastMeets(dims: Dims, bdims: Dims)
    requires |bdims| <= |dims| && InDims(Project(LastIndex(dims), bdims), bdims)
    ensures NoneShorter(dims, bdims)
  {
    forall i | 0 <= i < |bdims| && bdims[i] != 1
      ensures dims[|dims| - |bdims| + i] <= bdims[i]
    {
      assert Project(LastIndex(dims), bdims)[i] == dims[|dims| - |bdims| + i] - 1;
    }
  }

  lemma MeetsIndex(ix: seq<int>, dims: Dims, bdims: Dims)
    requires |bdims| <= |dims| && InDims(ix, dims) && NoneShorter(dims, bdims)
    ensures InDims(Project(ix, bdims), bdims)
  {
    forall i | 0 <= i < |bdims|
      ensures 0 <= Project(ix, bdims)[i] < bdims[i]
    {
      assert 0 <= ix[|dims| - |bdims| + i] < dims[|dims| - |bdims| + i];
    }
  }

  /** Broadcastable shapes read inside b. */
  lemma BroadcastReadsInside(dims: Dims, bdims: Dims)
    requires Broadcastable(dims, bdims)
    ensures ReadsInside(dims, bdims)
  {
    hide Volume, Flatten, Unflatten, Broadcastable, Project;
    assert |bdims| <= |dims| by { Ranks(dims, bdims); }
    forall q: nat | q < Volume(dims)
      ensures MetOffset(q, dims, bdims) < Volume(bdims)
    {
      UnflattenInDims(q, dims);
      ProjectInDims(Unflatten(q, dims), dims, bdims);
      FlattenInRange(Project(Unflatten(q, dims), bdims), bdims);
    }
  }

  lemma Ranks(dims: Dims, bdims: Dims)
    requires Broadcastable(dims, bdims)
    ensures |bdims| <= |dims|
  {
  }

  /** Shapes [4] and [2] pass the CHECK, and element 3 meets offset 3 of the two elements of b. */
  lemma CheckIsNotEnough()
    ensures Volume([4]) >= Volume([2]) && Volume([4]) % Volume([2]) == 0
    ensures MetOffset(3, [4], [2]) == 3 && Volume([2]) == 2 && !ReadsInside([4], [2])
  {
    Single(4);
    Single(2);
    assert Unflatten(3, [4]) == [3];
    assert Project([3], [2]) == [3];
    assert Flatten([3], [2]) == 3;
  }

  lemma Single(d: nat)
    ensures Volume([d]) == d
  {
    assert [d][1..] == [];
  }

  function MetOffsets(dims: Dims, bdims: Dims): (r: seq<int>)
    requires ReadsInside(dims, bdims)
    ensures |r| == Volume(dims) && AllIn(r, Volume(bdims))
  {
    seq(Volume(dims), (q: nat) requires q < Volume(dims) => MetOffset(q, dims, bdims))
  }

  // ---------------------------------------------------------------- the offset loop

  /** What the loop adds up from dimension i on: padded dimensions of 1 contribute nothing. */
  function PaddedOffset(ix: seq<int>, padded: Dims, strides: seq<nat>): int
    requires |ix| == |padded| == |strides|
  {
    if ix == [] then 0
    else (if padded[0] == 1 then 0 else ix[0]) * strides[0] + PaddedOffset(ix[1..], padded[1..], strides[1..])
  }

  lemma {:induction false} AlignedIsFlat(ix: seq<int>, bdims: Dims)
    requires |ix| == |bdims|
    ensures PaddedOffset(ix, bdims, Strides(bdims)) == Flatten(Project(ix, bdims), bdims)
  {
    if ix != [] {
      AlignedIsFlat(ix[1..], bdims[1..]);
      assert Project(ix, bdims)[1..] == Project(ix[1..], bdims[1..]);
    }
  }

  lemma {:induction false} PaddedIsFlat(ix: seq<int>, bdims: Dims)
    requires |bdims| <= |ix|
    ensures var pad := |ix| - |bdims|;
            PaddedOffset(ix, seq(pad, _ => 1) + bdims, seq(pad, _ => 0) + Strides(bdims)) ==
              Flatten(Project(ix, bdims), bdims)
    decreases |ix|
  {
    var pad := |ix| - |bdims|;
    var padded, strides := seq(pad, _ => 1) + bdims, seq(pad, _ => 0) + Strides(bdims);
    if pad == 0 {
      assert padded == bdims && strides == Strides(bdims);
      AlignedIsFlat(ix, bdims);
    } else {
      assert padded[1..] == seq(pad - 1, _ => 1) + bdims && strides[1..] == seq(pad - 1, _ => 0) + Strides(bdims);
      PaddedIsFlat(ix[1..], bdims);
      assert Project(ix[1..], bdims) == Project(ix, bdims);
    }
  }

  method OffsetInB(q: nat, dims: Dims, outStrides: seq<nat>, padded: Dims, bStrides: seq<nat>) returns (offset: int)
    requires q < Volume(dims) && outStrides == Strides(dims) && |padded| == |bStrides| == |dims|
    ensures offset == PaddedOffset(Unflatten(q, dims), padded, bStrides)
  {
    hide PaddedOffset, Unflatten;
    var tmp := q;
    offset := 0;
    assert dims[0..] == dims && padded[0..] == padded && bStrides[0..] == bStrides;
    for i := 0 to |dims|
      invariant 0 <= tmp < Volume(dims[i..])
      invariant offset + PaddedOffset(Unflatten(tmp, dims[i..]), padded[i..], bStrides[i..]) ==
                PaddedOffset(Unflatten(q, dims), padded, bStrides)
    {
      StrideAt(dims, i);
      OffsetStep(tmp, dims, padded, bStrides, i);
      var index := tmp / outStrides[i];
      tmp := tmp % outStrides[i];
      offset := offset + (if padded[i] == 1 then 0 else index) * bStrides[i];
    }
    NothingLeft(tmp, dims, padded, bStrides);
  }

  lemma NothingLeft(tmp: nat, dims: Dims, padded: Dims, strides: seq<nat>)
    requires |padded| == |strides| == |dims| && tmp < Volume(dims[|dims|..])
    ensures PaddedOffset(Unflatten(tmp, dims[|dims|..]), padded[|dims|..], strides[|dims|..]) == 0
  {
  }

  lemma OffsetStep(tmp: nat, dims: Dims, padded: Dims, strides: seq<nat>, i: nat)
    requires |padded| == |strides| == |dims| && i < |dims| && tmp < Volume(dims[i..])
    ensures var s := Volume(dims[i + 1..]);
            && s > 0 && 0 <= tmp % s < s
            && PaddedOffset(Unflatten(tmp, dims[i..]), padded[i..], strides[i..]) ==
               (if padded[i] == 1 then 0 else tmp / s) * strides[i] +
               PaddedOffset(Unflatten(tmp % s, dims[i + 1..]), padded[i + 1..], strides[i + 1..])
  {
    var s := Volume(dims[i + 1..]);
    assert dims[i..][1..] == dims[i + 1..] && padded[i..][1..] == padded[i + 1..] &&
           strides[i..][1..] == strides[i + 1..];
    Encode(tmp, dims[i], s);
    var ix := Unflatten(tmp, dims[i..]);
    assert ix[1..] == Unflatten(tmp % s, dims[i + 1..]) && ix[0] == tmp / s;
  }

  /** The padded dimensions and strides of b, and where they send element q. */
  method PadB(dims: Dims, bdims: Dims) returns (padded: Dims, bStrides: seq<nat>)
    requires |bdims| <= |dims|
    ensures |padded| == |bStrides| == |dims|
    ensures padded == seq(|dims| - |bdims|, _ => 1) + bdims
    ensures bStrides == seq(|dims| - |bdims|, _ => 0) + Strides(bdims)
  {
    bStrides := ComputeStrides(bdims);
    padded := seq(|dims| - |bdims|, _ => 1) + bdims;
    bStrides := seq(|dims| - |bdims|, _ => 0) + bStrides;
  }

  lemma PaddedMeets(q: nat, dims: Dims, bdims: Dims)
    requires q < Volume(dims) && |bdims| <= |dims|
    ensures var pad := |dims| - |bdims|;
            PaddedOffset(Unflatten(q, dims), seq(pad, _ => 1) + bdims, seq(pad, _ => 0) + Strides(bdims)) ==
              MetOffset(q, dims, bdims)
  {
    PaddedIsFlat(Unflatten(q, dims), bdims);
  }

  method MetBy(q: nat, dims: Dims, bdims: Dims, outStrides: seq<nat>, padded: Dims, bStrides: seq<nat>)
    returns (offset: nat)
    requires q < Volume(dims) && ReadsInside(dims, bdims) && outStrides == Strides(dims)
    requires padded == seq(|dims| - |bdims|, _ => 1) + bdims
    requires bStrides == seq(|dims| - |bdims|, _ => 0) + Strides(bdims)
    ensures offset == MetOffset(q, dims, bdims) < Volume(bdims)
  {
    hide PaddedOffset, Unflatten, MetOffset;
    ReadInside(q, dims, bdims);
    PaddedMeets(q, dims, bdims);
    offset := OffsetInB(q, dims, outStrides, padded, bStrides);
  }

  // ---------------------------------------------------------------- BinaryForward

  /** Every element of a, at index ix, meets that of b whose index is ix from the right, 0 where b's dimension is 1. */
  ghost predicate CombinesAll(r: seq<real>, a: seq<real>, b: seq<real>, dims: Dims, bdims: Dims,
                              fn: (real, real) -> real)
    requires |r| == |a| == Volume(dims) && |bdims| <= |dims|
  {
    forall ix: seq<int> :: InDims(ix, dims) ==>
      (FlattenInRange(ix, dims);
       var q := Flatten(ix, dims);
       var bix := seq(|bdims|, i requires 0 <= i < |bdims| => if bdims[i] == 1 then 0 else ix[|ix| - |bdims| + i]);
       0 <= Flatten(bix, bdims) < |b| && r[q] == fn(a[q], b[Flatten(bix, bdims)]))
  }

  lemma CombinesEach(r: seq<real>, a: seq<real>, b: seq<real>, dims: Dims, bdims: Dims, fn: (real, real) -> real)
    requires |r| == |a| == Volume(dims) && |b| == Volume(bdims) && ReadsInside(dims, bdims)
    requires forall q: nat :: q < |a| ==>
             MetOffset(q, dims, bdims) < |b| && r[q] == fn(a[q], b[MetOffset(q, dims, bdims)])
    ensures |bdims| <= |dims| && CombinesAll(r, a, b, dims, bdims, fn)
  {
    hide Volume, Flatten, Unflatten;
    forall ix: seq<int> | InDims(ix, dims)
      ensures (FlattenInRange(ix, dims);
               var q := Flatten(ix, dims);
               var bix := seq(|bdims|, i requires 0 <= i < |bdims| => if bdims[i] == 1 then 0
                   else ix[|ix| - |bdims| + i]);
               0 <= Flatten(bix, bdims) < |b| && r[q] == fn(a[q], b[Flatten(bix, bdims)]))
    {
      FlattenInRange(ix, dims);
      UnflattenFlatten(ix, dims);
      MetBroadcast(ix, dims, bdims);
    }
  }

  lemma MetBroadcast(ix: seq<int>, dims: Dims, bdims: Dims)
    requires InDims(ix, dims) && |bdims| <= |dims|
    ensures 0 <= Flatten(ix, dims) < Volume(dims)
    ensures MetOffset(Flatten(ix, dims), dims, bdims) ==
            Flatten(seq(|bdims|, i requires 0 <= i < |bdims| => if bdims[i] == 1 then 0 else ix[|ix| - |bdims| + i]),
              bdims)
  {
    hide Volume, Flatten, Unflatten;
    UnflattenFlatten(ix, dims);
    assert Project(ix, bdims) ==
           seq(|bdims|, i requires 0 <= i < |bdims| => if bdims[i] == 1 then 0 else ix[|ix| - |bdims| + i]);
  }

  /**
   * Fails unless the number of elements of a is a multiple of that of b and a has at least the rank of b.
   * The caller answers for the offsets: the exact condition is LastInside.
   */
  method BinaryForward(a: array<real>, dims: Dims, b: array<real>, bdims: Dims, fn: (real, real) -> real)
    returns (r: Option<array<real>>)
    requires a.Length == Volume(dims) && b.Length == Volume(bdims) && b.Length > 0
    requires |bdims| <= |dims| ==> LastInside(dims, bdims)
    ensures r.Some? <==> a.Length >= b.Length && a.Length % b.Length == 0 && |bdims| <= |dims|
    ensures r.Some? ==> fresh(r.value) && r.value.Length == a.Length && ReadsInside(dims, bdims)
    ensures r.Some? ==> forall q: nat :: q < a.Length ==> r.value[q] == fn(a[q], b[MetOffset(q, dims, bdims)])
    ensures r.Some? ==> CombinesAll(r.value[..], a[..], b[..], dims, bdims, fn)
  {
    hide ReadsInside, LastInside, PaddedOffset, Unflatten, Volume, MetOffset, CombinesAll;
    if !(a.Length >= b.Length && a.Length % b.Length == 0) || |bdims| > |dims| {
      return None;
    }
    ReadsInsideExactlyWhen(dims, bdims);
    var output := new real[a.Length];
    var outStrides := ComputeStrides(dims);
    var padded, bStrides := PadB(dims, bdims);
    for idx := 0 to output.Length
      invariant forall q: nat :: q < idx ==>
                MetOffset(q, dims, bdims) < b.Length && output[q] == fn(a[q], b[MetOffset(q, dims, bdims)])
    {
      var bOffset := MetBy(idx, dims, bdims, outStrides, padded, bStrides);
      output[idx] := fn(a[idx], b[bOffset]);
    }
    CombinesEach(output[..], a[..], b[..], dims, bdims, fn);
    return Some(output);
  }

  /** The CHECK on the element counts passes for every broadcastable pair, unless a is empty. */
  lemma {:induction false} BroadcastDivides(dims: Dims, bdims: Dims)
    requires Broadcastable(dims, bdims)
    ensures exists k: nat :: Volume(dims) == k * Volume(bdims)
    decreases |dims|
  {
    if dims == [] {
      assert Volume(dims) == 1 * Volume(bdims);
    } else if |bdims| < |dims| {
      BroadcastDivides(dims[1..], bdims);
      var k: nat :| Volume(dims[1..]) == k * Volume(bdims);
      Multiple(dims[0], k, Volume(bdims));
    } else {
      assert Broadcastable(dims[1..], bdims[1..]);
      BroadcastDivides(dims[1..], bdims[1..]);
      var k: nat :| Volume(dims[1..]) == k * Volume(bdims[1..]);
      Multiple(dims[0], k, Volume(bdims[1..]));
      if bdims[0] == dims[0] {
        assert Volume(dims) == k * Volume(bdims);
      } else {
        assert Volume(dims) == (dims[0] * k) * Volume(bdims);
      }
    }
  }

  lemma Multiple(d: nat, k: nat, v: nat)
    ensures d * (k * v) == (d * k) * v == k * (d * v)
  {
  }

  // ---------------------------------------------------------------- BinaryBackward

  /** What element q sends back: its gradient times the partial derivative in b. */
  function SentToB(g: seq<real>, x: seq<real>, y: seq<real>, offs: seq<int>, fn: (real, real) -> real): (r: seq<real>)
    ensures |r| == |g|
  {
    seq(|g|, q requires 0 <= q < |g| => At(g, q) * fn(At(x, q), At(y, if q < |offs| then offs[q] else -1)))
  }

  function Values(a: array?<real>): seq<real>
    reads a
  {
    if a == null then [] else a[..]
  }

  /** grad_b at p: over the elements that met it, the sum of gradient times derivative in b, written out. */
  lemma GradBAt(g: seq<real>, x: seq<real>, y: seq<real>, dims: Dims, bdims: Dims, fn: (real, real) -> real, p: nat)
    requires ReadsInside(dims, bdims) && |g| == Volume(dims) && p < Volume(bdims)
    ensures var offs := MetOffsets(dims, bdims);
            Scatter(offs, SentToB(g, x, y, offs, fn), Volume(bdims))[p] ==
            Sum(|g|, (q: nat) =>
              if q < |g| && q < |offs| && offs[q] == p then g[q] * fn(At(x, q), At(y, p)) else 0.0)
  {
    var offs := MetOffsets(dims, bdims);
    var sent := SentToB(g, x, y, offs, fn);
    SumExt(|g|, Landing(offs, sent, p), (q: nat) =>
      if q < |g| && q < |offs| && offs[q] == p then g[q] * fn(At(x, q), At(y, p)) else 0.0);
  }

  /**
   * grad_a and grad_b. A missing operand reads as 0 everywhere. grad_b adds up, at each element of b,
   * what is sent back from exactly the elements that met it. None where a CHECK fails.
   */
  method BinaryBackward(g: array<real>, a: array?<real>, b: array?<real>, dims: Dims, bdims: Dims,
                        fnA: (real, real) -> real, fnB: (real, real) -> real)
    returns (r: Option<(array<real>, array<real>)>)
    requires |bdims| <= |dims| ==> LastInside(dims, bdims)
    ensures r.Some? <==>
              && |dims| >= |bdims| && Volume(dims) == g.Length
              && (a != null ==> Volume(dims) == a.Length) && (b != null ==> Volume(bdims) == b.Length)
    ensures r.Some? ==>
              var (gradA, gradB) := r.value;
              && fresh(gradA) && fresh(gradB) && gradA.Length == Volume(dims) && ReadsInside(dims, bdims)
              && (forall q: nat :: q < g.Length ==>
                    gradA[q] == g[q] * fnA(At(Values(a), q), At(Values(b), MetOffset(q, dims, bdims))))
              && gradB[..] ==
                Scatter(MetOffsets(dims, bdims), SentToB(g[..], Values(a), Values(b), MetOffsets(dims, bdims), fnB),
                  Volume(bdims))
  {
    hide ReadsInside, LastInside, Volume, MetOffset, MetOffsets, SentToB, Received, Scatter, At, GradAUpTo,
         ReceivedUpTo;
    if |dims| < |bdims| || Volume(dims) != g.Length || (a != null && Volume(dims) != a.Length) ||
      (b != null && Volume(bdims) != b.Length) {
      return None;
    }
    ReadsInsideExactlyWhen(dims, bdims);
    var gradA := new real[Volume(dims)](_ => 0.0);
    var gradB := new real[Volume(bdims)](_ => 0.0);
    ghost var gs, xs, ys, offs := g[..], Values(a), Values(b), MetOffsets(dims, bdims);
    ghost var sent := SentToB(gs, xs, ys, offs, fnB);
    NoneReceived(gradB[..], offs, sent);
    NoGradA(gradA[..], gs, xs, ys, dims, bdims, fnA);
    SendAllBack(g, a, b, dims, bdims, fnA, fnB, gradA, gradB);
    AllReceived(gradB[..], offs, sent);
    AllGradA(gradA[..], gs, xs, ys, dims, bdims, fnA);
    r := Some((gradA, gradB));
  }

  /** The loop of BinaryBackward. */
  method SendAllBack(g: array<real>, a: array?<real>, b: array?<real>, dims: Dims, bdims: Dims,
                     fnA: (real, real) -> real, fnB: (real, real) -> real, gradA: array<real>, gradB: array<real>)
    requires ReadsInside(dims, bdims) && g.Length == Volume(dims)
    requires (a != null ==> a.Length == Volume(dims)) && (b != null ==> b.Length == Volume(bdims))
    requires gradA != g && gradA != a && gradA != b && gradB != g && gradB != a && gradB != b && gradA != gradB
    requires gradA.Length == Volume(dims) && gradB.Length == Volume(bdims)
    requires GradAUpTo(gradA[..], g[..], Values(a), Values(b), dims, bdims, fnA, 0)
    requires var offs := MetOffsets(dims, bdims);
             ReceivedUpTo(gradB[..], offs, SentToB(g[..], Values(a), Values(b), offs, fnB), 0)
    modifies gradA, gradB
    ensures GradAUpTo(gradA[..], g[..], Values(a), Values(b), dims, bdims, fnA, g.Length)
    ensures var offs := MetOffsets(dims, bdims);
            ReceivedUpTo(gradB[..], offs, SentToB(g[..], Values(a), Values(b), offs, fnB), g.Length)
  {
    hide ReadsInside, PaddedOffset, Unflatten, Volume, MetOffset, MetOffsets, SentToB, Received, At, Strides, GradAUpTo,
         ReceivedUpTo;
    var outStrides := ComputeStrides(dims);
    assert |bdims| <= |dims| by { RanksInside(dims, bdims); }
    var padded, bStrides := PadB(dims, bdims);
    ghost var offs := MetOffsets(dims, bdims);
    ghost var sent := SentToB(g[..], Values(a), Values(b), offs, fnB);
    for idx := 0 to g.Length
      invariant GradAUpTo(gradA[..], g[..], Values(a), Values(b), dims, bdims, fnA, idx)
      invariant ReceivedUpTo(gradB[..], offs, sent, idx)
      invariant sent == SentToB(g[..], Values(a), Values(b), offs, fnB)
    {
      var bOffset := MetBy(idx, dims, bdims, outStrides, padded, bStrides);
      SendBack(g, a, b, dims, bdims, fnA, fnB, gradA, gradB, idx, bOffset);
    }
  }

  /** The first elements of grad_a. */
  ghost predicate GradAUpTo(r: seq<real>, g: seq<real>, x: seq<real>, y: seq<real>, dims: Dims, bdims: Dims,
                            fn: (real, real) -> real, count: nat)
    requires ReadsInside(dims, bdims)
  {
    count <= |g| == |r| == Volume(dims) &&
    forall q: nat :: q < count ==> r[q] == g[q] * fn(At(x, q), At(y, MetOffset(q, dims, bdims)))
  }

  lemma NoGradA(r: seq<real>, g: seq<real>, x: seq<real>, y: seq<real>, dims: Dims, bdims: Dims,
                fn: (real, real) -> real)
    requires ReadsInside(dims, bdims) && |g| == |r| == Volume(dims)
    ensures GradAUpTo(r, g, x, y, dims, bdims, fn, 0)
  {
  }

  lemma AllGradA(r: seq<real>, g: seq<real>, x: seq<real>, y: seq<real>, dims: Dims, bdims: Dims,
                 fn: (real, real) -> real)
    requires ReadsInside(dims, bdims) && GradAUpTo(r, g, x, y, dims, bdims, fn, |g|)
    ensures |g| == |r| == Volume(dims)
    ensures forall q: nat :: q < |g| ==> r[q] == g[q] * fn(At(x, q), At(y, MetOffset(q, dims, bdims)))
  {
  }

  method SetGradA(gradA: array<real>, ghost g: seq<real>, ghost x: seq<real>, ghost y: seq<real>, ghost dims: Dims,
                  ghost bdims: Dims,
                  ghost fn: (real, real) -> real, q: nat, value: real)
    requires ReadsInside(dims, bdims) && q < |g| && GradAUpTo(gradA[..], g, x, y, dims, bdims, fn, q)
    requires q < Volume(dims) && value == g[q] * fn(At(x, q), At(y, MetOffset(q, dims, bdims)))
    modifies gradA
    ensures GradAUpTo(gradA[..], g, x, y, dims, bdims, fn, q + 1)
  {
    hide MetOffset, At;
    gradA[q] := value;
  }

  method ReadOrZero(a: array?<real>, i: nat) returns (x: real)
    requires a != null ==> i < a.Length
    ensures x == At(Values(a), i)
  {
    x := if a != null then a[i] else 0.0;
  }

  lemma SentAt(g: seq<real>, x: seq<real>, y: seq<real>, dims: Dims, bdims: Dims, fn: (real, real) -> real, q: nat)
    requires ReadsInside(dims, bdims) && |g| == Volume(dims) && q < |g|
    ensures var offs := MetOffsets(dims, bdims);
            && offs[q] == MetOffset(q, dims, bdims)
            && At(SentToB(g, x, y, offs, fn), q) == g[q] * fn(At(x, q), At(y, MetOffset(q, dims, bdims)))
  {
    hide MetOffset;
  }

  /** One iteration of the loop of BinaryBackward. */
  method SendBack(g: array<real>, a: array?<real>, b: array?<real>, ghost dims: Dims, ghost bdims: Dims,
                  fnA: (real, real) -> real, fnB: (real, real) -> real,
                  gradA: array<real>, gradB: array<real>, idx: nat, bOffset: nat)
    requires ReadsInside(dims, bdims) && idx < g.Length == Volume(dims) && bOffset == MetOffset(idx, dims, bdims)
    requires (a != null ==> a.Length == Volume(dims)) && (b != null ==> b.Length == Volume(bdims))
    requires gradA != g && gradA != a && gradA != b && gradB != g && gradB != a && gradB != b && gradA != gradB
    requires gradA.Length == Volume(dims) && gradB.Length == Volume(bdims)
    requires GradAUpTo(gradA[..], g[..], Values(a), Values(b), dims, bdims, fnA, idx)
    requires var offs := MetOffsets(dims, bdims);
             ReceivedUpTo(gradB[..], offs, SentToB(g[..], Values(a), Values(b), offs, fnB), idx)
    modifies gradA, gradB
    ensures GradAUpTo(gradA[..], g[..], Values(a), Values(b), dims, bdims, fnA, idx + 1)
    ensures var offs := MetOffsets(dims, bdims);
            ReceivedUpTo(gradB[..], offs, SentToB(g[..], Values(a), Values(b), offs, fnB), idx + 1)
  {
    hide ReadsInside, MetOffset, MetOffsets, SentToB, GradAUpTo, ReceivedUpTo, At, Volume;
    ghost var gs, xs, ys, offs := g[..], Values(a), Values(b), MetOffsets(dims, bdims);
    SentAt(gs, xs, ys, dims, bdims, fnB, idx);
    var x := ReadOrZero(a, idx);
    var y := ReadOrZero(b, bOffset);
    var grad := g[idx];
    SetGradA(gradA, gs, xs, ys, dims, bdims, fnA, idx, grad * fnA(x, y));
    AddAt(gradB, offs, SentToB(gs, xs, ys, offs, fnB), idx, bOffset, grad * fnB(x, y));
  }

  /** For Add the derivative in b is 1 and grad_b has the total of grad_output. */
  lemma AddKeepsTotal(g: seq<real>, dims: Dims, bdims: Dims)
    requires ReadsInside(dims, bdims) && |g| == Volume(dims)
    ensures var offs := MetOffsets(dims, bdims);
            Total(Scatter(offs, SentToB(g, [], [], offs, (_, _) => 1.0), Volume(bdims))) == Total(g)
  {
    var offs := MetOffsets(dims, bdims);
    var sent := SentToB(g, [], [], offs, (_, _) => 1.0);
    assert sent == g;
    ScatterKeepsTotal(offs, sent, Volume(bdims));
  }
}
