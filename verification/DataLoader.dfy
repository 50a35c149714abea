/**
 * The distributed data loader: each rank starts at the batch with its own number and goes on in steps
 * of the number of ranks. Together the ranks visit every sample exactly once, and a resumed iterator
 * stands where the uninterrupted one stood.
 */
module DataLoader {
  import opened Wrappers
  import opened RealFacts

  function Min(a: nat, b: nat): nat {
    if a < b then a else b
  }

  /** lo, lo + 1, ..., hi - 1 */
  function Range(lo: nat, hi: nat): (s: seq<nat>)
    ensures forall i: nat :: i in s <==> lo <= i < hi
    ensures Increasing(s)
    decreases hi
  {
    if hi <= lo then []
    else
      var r := Range(lo, hi - 1);
      assert forall k :: 0 <= k < |r| ==> r[k] in r;
      r + [hi - 1]
  }

  predicate Increasing(s: seq<nat>) {
    forall k, l :: 0 <= k < l < |s| ==> s[k] < s[l]
  }

  /** The samples of batch b. */
  function Batch(b: nat, batchSize: nat, size: nat): seq<nat> {
    Range(b * batchSize, Min((b + 1) * batchSize, size))
  }

  /** How many batches there are, the last one possibly short. */
  function BatchCount(size: nat, batchSize: nat): nat
    requires batchSize > 0
  {
    QuotientNonnegative(size + batchSize - 1, batchSize);
    (size + batchSize - 1) / batchSize
  }

  lemma BatchCountCovers(size: nat, batchSize: nat, i: nat)
    requires batchSize > 0
    ensures i < size ==> 0 <= i / batchSize < BatchCount(size, batchSize)
    ensures BatchCount(size, batchSize) * batchSize < size + batchSize
  {
    var q, n := i / batchSize, BatchCount(size, batchSize);
    QuotientNonnegative(i, batchSize);
    assert i == q * batchSize + i % batchSize;
    assert size + batchSize - 1 == n * batchSize + (size + batchSize - 1) % batchSize;
    assert (q - n) * batchSize == q * batchSize - n * batchSize;
    assert q >= n ==> (q - n) * batchSize >= 0;
  }

  /** What the loop of a rank visits from batch b on. */
  function Visited(b: nat, max: nat, world: nat, batchSize: nat, size: nat): seq<nat>
    requires world > 0 && b <= max
    decreases max - b
  {
    if b == max then [] else Batch(b, batchSize, size) + Visited(Min(b + world, max), max, world, batchSize, size)
  }

  lemma InBatch(i: nat, b: nat, batchSize: nat)
    requires batchSize > 0
    ensures b * batchSize <= i < (b + 1) * batchSize <==> i / batchSize == b
  {
    var q := i / batchSize;
    assert i == q * batchSize + i % batchSize;
    assert (b + 1) * batchSize == b * batchSize + batchSize;
    if b * batchSize <= i < (b + 1) * batchSize {
      QuotientUnique(i, batchSize, b, i - b * batchSize);
    }
  }

  /** Batches b, b + world, b + 2 * world, ... below max. */
  predicate OnCourse(x: int, b: nat, max: nat, world: nat)
    requires world > 0
  {
    b <= x < max && (x - b) % world == 0
  }

  lemma CourseStep(x: int, b: nat, max: nat, world: nat)
    requires world > 0 && b < max
    ensures OnCourse(x, b, max, world) <==> x == b || OnCourse(x, Min(b + world, max), max, world)
  {
    if x >= b + world {
      var q := (x - b) / world;
      var r := (x - b) % world;
      assert x - b == q * world + r;
      assert x - (b + world) == (q - 1) * world + r;
      QuotientUnique(x - (b + world), world, q - 1, r);
    } else if b <= x {
      QuotientUnique(x - b, world, 0, x - b);
    }
  }

  /** A rank visits exactly the samples of its batches. */
  lemma {:induction false} VisitsItsBatches(b: nat, max: nat, world: nat, batchSize: nat, size: nat)
    requires world > 0 && batchSize > 0 && b <= max
    ensures forall i: nat :: i in Visited(b, max, world, batchSize, size) <==>
            i < size && OnCourse(i / batchSize, b, max, world)
    decreases max - b
  {
    hide OnCourse;
    if b < max {
      var b' := Min(b + world, max);
      VisitsItsBatches(b', max, world, batchSize, size);
      forall i: nat
        ensures i in Visited(b, max, world, batchSize, size) <==> i < size && OnCourse(i / batchSize, b, max, world)
      {
        InBatch(i, b, batchSize);
        CourseStep(i / batchSize, b, max, world);
      }
    } else {
      NoCourse(max, world);
    }
  }

  /** In increasing order: so no sample twice. */
  lemma {:induction false} VisitsInOrder(b: nat, max: nat, world: nat, batchSize: nat, size: nat)
    requires world > 0 && batchSize > 0 && b <= max
    ensures Increasing(Visited(b, max, world, batchSize, size))
    decreases max - b
  {
    if b < max {
      hide OnCourse, Visited;
      var b' := Min(b + world, max);
      VisitsInOrder(b', max, world, batchSize, size);
      VisitsItsBatches(b', max, world, batchSize, size);
      var first, rest := Batch(b, batchSize, size), Visited(b', max, world, batchSize, size);
      forall i | i in rest
        ensures i >= (b + 1) * batchSize
      {
        LaterBatch(i, b, b', max, world, batchSize);
      }
      Joined(first, rest, (b + 1) * batchSize);
      VisitedUnfolds(b, max, world, batchSize, size);
    } else {
      VisitedUnfolds(b, max, world, batchSize, size);
    }
  }

  lemma VisitedUnfolds(b: nat, max: nat, world: nat, batchSize: nat, size: nat)
    requires world > 0 && b <= max
    ensures Visited(b, max, world, batchSize, size) ==
            if b == max then []
              else Batch(b, batchSize, size) + Visited(Min(b + world, max), max, world, batchSize, size)
  {
  }

  lemma Joined(a: seq<nat>, b: seq<nat>, bound: nat)
    requires Increasing(a) && Increasing(b)
    requires (forall i :: i in a ==> i < bound) && (forall i :: i in b ==> i >= bound)
    ensures Increasing(a + b)
  {
    assert forall k :: 0 <= k < |a| ==> a[k] in a;
    assert forall k :: 0 <= k < |b| ==> b[k] in b;
    forall k, l | 0 <= k < l < |a + b|
      ensures (a + b)[k] < (a + b)[l]
    {
      assert (a + b)[k] == if k < |a| then a[k] else b[k - |a|];
      assert (a + b)[l] == if l < |a| then a[l] else b[l - |a|];
    }
  }

  lemma NoCourse(max: nat, world: nat)
    requires world > 0
    ensures forall x :: !OnCourse(x, max, max, world)
  {
  }

  lemma LaterBatch(i: nat, b: nat, b': nat, max: nat, world: nat, batchSize: nat)
    requires world > 0 && batchSize > 0 && b < b' && OnCourse(i / batchSize, b', max, world)
    ensures i >= (b + 1) * batchSize
  {
    var q := i / batchSize;
    assert i == q * batchSize + i % batchSize;
    assert (q - (b + 1)) * batchSize >= 0;
    assert (q - (b + 1)) * batchSize == q * batchSize - (b + 1) * batchSize;
  }

  // ---------------------------------------------------------------- the iterator

  /** dataset_->Size(), batch_size_, ddp_world_size_ are fixed; batch_idx_ moves. */
  class DataLoaderIterator {
    const size: nat
    const batchSize: nat
    const maxBatchIdx: nat
    const rank: nat
    const world: nat
    var batchIdx: nat

    constructor (size: nat, batchSize: nat, batchIdx: nat, maxBatchIdx: nat, rank: nat, world: nat)
      ensures this.size == size && this.batchSize == batchSize && this.maxBatchIdx == maxBatchIdx
      ensures this.rank == rank && this.world == world && this.batchIdx == batchIdx
    {
      this.size, this.batchSize, this.maxBatchIdx := size, batchSize, maxBatchIdx;
      this.rank, this.world, this.batchIdx := rank, world, batchIdx;
    }

    /** operator*: the indices of the samples that are stacked. */
    method Get() returns (s: seq<nat>)
      ensures s == Batch(batchIdx, batchSize, size)
    {
      s := [];
      var idx := batchIdx * batchSize;
      assert (batchIdx + 1) * batchSize == idx + batchSize;
      while idx < (batchIdx + 1) * batchSize && idx < size
        invariant batchIdx * batchSize <= idx
        invariant idx <= Min((batchIdx + 1) * batchSize, size) || s == []
        invariant s == Range(batchIdx * batchSize, idx)
        invariant idx > Min((batchIdx + 1) * batchSize, size) ==> idx == batchIdx * batchSize
      {
        s := s + [idx];
        idx := idx + 1;
      }
    }

    /** operator++ */
    method Next()
      modifies this`batchIdx
      ensures batchIdx == Min(old(batchIdx) + world, maxBatchIdx)
    {
      batchIdx := Min(batchIdx + world, maxBatchIdx);
    }
  }

  /** DistributedDataLoader::begin */
  method Begin(size: nat, batchSize: nat, rank: nat, world: nat) returns (it: DataLoaderIterator)
    requires batchSize > 0
    ensures fresh(it) && it.size == size && it.batchSize == batchSize && it.maxBatchIdx == BatchCount(size, batchSize)
    ensures it.rank == rank && it.world == world && it.batchIdx == rank
  {
    it := new DataLoaderIterator(size, batchSize, rank, BatchCount(size, batchSize), rank, world);
  }

  /** for (it = begin(); it != end(); ++it). None where a batch has no first sample for Stack to begin with. */
  method Epoch(size: nat, batchSize: nat, rank: nat, world: nat) returns (v: Option<seq<nat>>)
    requires batchSize > 0 && world > 0
    ensures v.Some? <==> rank <= BatchCount(size, batchSize)
    ensures v.Some? ==> v.value == Visited(rank, BatchCount(size, batchSize), world, batchSize, size)
  {
    hide Batch, BatchCount;
    var all: seq<nat> := [];
    var it := Begin(size, batchSize, rank, world);
    var end := BatchCount(size, batchSize);
    while it.batchIdx != end
      invariant fresh(it) && (it.batchIdx == rank || it.batchIdx <= end)
      invariant it.size == size && it.batchSize == batchSize && it.maxBatchIdx == end && it.world == world
      invariant rank <= end ==> it.batchIdx <= end
      invariant rank > end ==> it.batchIdx == rank
      invariant it.batchIdx <= end ==>
                  all + Visited(it.batchIdx, end, world, batchSize, size) == Visited(rank, end, world, batchSize, size)
      decreases end - it.batchIdx
    {
      var batch := it.Get();
      FirstBatchEmptyExactlyWhen(size, batchSize, it.batchIdx);
      if batch == [] {
        return None;
      }
      all := all + batch;
      it.Next();
    }
    v := Some(all);
  }

  // ---------------------------------------------------------------- all ranks together

  /**
   * Over all ranks every sample is visited exactly once: by one rank, which is not beyond the number of
   * batches and whose visits are in increasing order, and by no other.
   */
  lemma EverySampleOnce(size: nat, batchSize: nat, world: nat, i: nat)
    requires batchSize > 0 && world > 0
    ensures i < size ==> 0 <= i / batchSize % world <= BatchCount(size, batchSize)
    ensures forall rank: nat :: rank < world && rank <= BatchCount(size, batchSize) ==>
              && Increasing(Visited(rank, BatchCount(size, batchSize), world, batchSize, size))
              && (i in Visited(rank, BatchCount(size, batchSize), world, batchSize, size) <==>
                  i < size && rank == i / batchSize % world)
  {
    hide Visited, Increasing, OnCourse;
    var max := BatchCount(size, batchSize);
    BatchCountCovers(size, batchSize, i);
    QuotientNonnegative(i, batchSize);
    AtMostItself(i / batchSize, world);
    forall rank: nat | rank < world && rank <= max
      ensures Increasing(Visited(rank, max, world, batchSize, size))
      ensures i in Visited(rank, max, world, batchSize, size) <==> i < size && rank == i / batchSize % world
    {
      VisitsInOrder(rank, max, world, batchSize, size);
      VisitsItsBatches(rank, max, world, batchSize, size);
      CourseIsRank(i / batchSize, rank, max, world);
    }
  }

  lemma AtMostItself(x: nat, n: nat)
    requires n > 0
    ensures 0 <= x % n <= x
  {
    QuotientNonnegative(x, n);
    assert x == x / n * n + x % n;
    assert x / n * n >= 0;
  }

  /** A rank that is not at the end gets an empty first batch exactly if it is past the number of batches. */
  lemma FirstBatchEmptyExactlyWhen(size: nat, batchSize: nat, rank: nat)
    requires batchSize > 0 && rank != BatchCount(size, batchSize)
    ensures Batch(rank, batchSize, size) == [] <==> rank > BatchCount(size, batchSize)
  {
    BatchCountIs(size, batchSize);
    StartsBelow(rank, BatchCount(size, batchSize), batchSize, size);
    EmptyBatch(rank, batchSize, size);
    hide BatchCount, Batch;
  }

  /** One sample, one batch, and rank 2 of three: it starts beyond the one batch, with no sample. */
  lemma RankBeyondGetsNothing()
    ensures BatchCount(1, 1) == 1 && Batch(2, 1, 1) == []
  {
  }

  lemma BatchCountIs(size: nat, batchSize: nat)
    requires batchSize > 0
    ensures size <= BatchCount(size, batchSize) * batchSize < size + batchSize
  {
    var max := BatchCount(size, batchSize);
    assert size + batchSize - 1 == max * batchSize + (size + batchSize - 1) % batchSize;
  }

  lemma StartsBelow(b: nat, max: nat, batchSize: nat, size: nat)
    requires size <= max * batchSize < size + batchSize
    ensures b * batchSize < size <==> b < max
  {
    if b < max {
      assert (max - 1 - b) * batchSize >= 0;
      assert (max - 1 - b) * batchSize == max * batchSize - batchSize - b * batchSize;
    } else {
      assert (b - max) * batchSize >= 0;
      assert (b - max) * batchSize == b * batchSize - max * batchSize;
    }
  }

  lemma EmptyBatch(b: nat, batchSize: nat, size: nat)
    requires batchSize > 0
    ensures Batch(b, batchSize, size) == [] <==> b * batchSize >= size
  {
    var first := b * batchSize;
    assert (b + 1) * batchSize == first + batchSize;
    assert first in Batch(b, batchSize, size) <==> first < size;
  }

  lemma CourseIsRank(x: nat, rank: nat, max: nat, world: nat)
    requires rank < world
    ensures x < max ==> (OnCourse(x, rank, max, world) <==> rank == x % world)
  {
    var q, r := x / world, x % world;
    assert x == q * world + r;
    if x >= rank {
      var q', r' := (x - rank) / world, (x - rank) % world;
      assert x - rank == q' * world + r';
      if r' == 0 {
        QuotientUnique(x, world, q', rank);
      } else if r == rank {
        QuotientUnique(x - rank, world, q, 0);
      }
    } else {
      QuotientUnique(x, world, 0, x);
    }
  }

  // ---------------------------------------------------------------- resuming

  /** The batch index after n steps. */
  function After(b: nat, max: nat, world: nat, n: nat): nat {
    if n == 0 then b else Min(After(b, max, world, n - 1) + world, max)
  }

  /** After n steps a rank is n times the number of ranks further on, but not past the end. */
  lemma {:induction false} AfterIs(b: nat, max: nat, world: nat, n: nat)
    ensures n > 0 && b + n * world < max ==> After(b, max, world, n) == b + n * world
    ensures n > 0 && b + n * world >= max ==> After(b, max, world, n) == max
    ensures n == 0 ==> After(b, max, world, n) == b
  {
    if n > 0 {
      AfterIs(b, max, world, n - 1);
      assert (n - 1) * world == n * world - world;
      assert (n - 1) * world >= 0;
    }
  }

  const SIZE_MAX: nat := 0xffff_ffff_ffff_ffff

  /** None where a CHECK fails. */
  method DataLoaderBatchesToSkip(consumed: nat, localBatchSize: nat, world: nat) returns (skip: Option<nat>)
    ensures skip.None? <==>
            localBatchSize == 0 || world == 0 || localBatchSize * world > SIZE_MAX ||
              consumed % (localBatchSize * world) != 0
    ensures skip.Some? ==> skip.value * (localBatchSize * world) == consumed
  {
    if localBatchSize == 0 || world == 0 {
      return None;
    }
    FitsExactlyWhen(localBatchSize, world);
    if localBatchSize > SIZE_MAX / world {
      return None;
    }
    var global := localBatchSize * world;
    MulAtLeast(localBatchSize, world);
    if consumed % global != 0 {
      return None;
    }
    QuotientNonnegative(consumed, global);
    skip := Some(consumed / global);
  }

  /** The CHECK by division lets a product pass exactly when it fits. */
  lemma FitsExactlyWhen(a: nat, b: nat)
    requires b > 0
    ensures a <= SIZE_MAX / b <==> a * b <= SIZE_MAX
  {
    var q, r := SIZE_MAX / b, SIZE_MAX % b;
    assert SIZE_MAX == q * b + r;
    assert (q - a) * b == q * b - a * b;
    if a <= q {
      assert (q - a) * b >= 0;
    } else {
      MulAtLeast(a - q, b);
      assert (a - q) * b == a * b - q * b;
    }
  }

  /**
   * Run for n batches, counting the samples consumed by all ranks; then start afresh, skip what the
   * count asks for: both iterators stand at the same batch. Null where a CHECK fails.
   */
  method Resume(size: nat, batchSize: nat, rank: nat, world: nat, n: nat)
    returns (run: DataLoaderIterator, resumed: DataLoaderIterator?)
    requires batchSize > 0 && world > 0
    ensures run.batchIdx == After(rank, BatchCount(size, batchSize), world, n)
    ensures resumed != null <==> batchSize * world <= SIZE_MAX
    ensures resumed != null ==>
            resumed.batchIdx == run.batchIdx && resumed.rank == run.rank && resumed.world == run.world
  {
    var max := BatchCount(size, batchSize);
    run := Begin(size, batchSize, rank, world);
    var consumed := 0;
    for i := 0 to n
      invariant fresh(run) && run.maxBatchIdx == max && run.rank == rank && run.world == world
      invariant run.batchIdx == After(rank, max, world, i) && consumed == i * (batchSize * world)
    {
      run.Next();
      consumed := consumed + batchSize * world;
      assert (i + 1) * (batchSize * world) == i * (batchSize * world) + batchSize * world;
    }
    var skip := DataLoaderBatchesToSkip(consumed, batchSize, world);
    SkipIsCount(n, batchSize * world, batchSize, world, consumed);
    if skip.None? {
      return run, null;
    }
    resumed := Begin(size, batchSize, rank, world);
    for i := 0 to skip.value
      invariant fresh(resumed) && resumed != run && resumed.maxBatchIdx == max
      invariant resumed.rank == rank && resumed.world == world
      invariant resumed.batchIdx == After(rank, max, world, i)
      invariant run.batchIdx == After(rank, max, world, n)
    {
      resumed.Next();
    }
    SameCount(skip.value, n, batchSize * world);
  }

  lemma SkipIsCount(n: nat, global: nat, batchSize: nat, world: nat, consumed: nat)
    requires batchSize > 0 && world > 0 && global == batchSize * world && consumed == n * global
    ensures global > 0 && consumed % global == 0
  {
    MulAtLeast(batchSize, world);
    QuotientUnique(consumed, global, n, 0);
  }

  lemma SameCount(a: nat, b: nat, g: nat)
    requires g > 0 && a * g == b * g
    ensures a == b
  {
    QuotientUnique(a * g, g, a, 0);
    QuotientUnique(b * g, g, b, 0);
  }
}
