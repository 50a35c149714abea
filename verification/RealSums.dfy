/** Finite sums of reals, and the laws by which sums over flat buffers are regrouped and exchanged. */
module RealSums {
  import opened RealFacts

  function Sum(n: nat, f: nat -> real): real {
    if n == 0 then 0.0 else Sum(n - 1, f) + f(n - 1)
  }

  function Row(f: (nat, nat) -> real, i: nat): nat -> real {
    (j: nat) => f(i, j)
  }

  function Col(f: (nat, nat) -> real, j: nat): nat -> real {
    (i: nat) => f(i, j)
  }

  function RowSums(f: (nat, nat) -> real, n: nat): nat -> real {
    (i: nat) => Sum(n, Row(f, i))
  }

  function ColSums(f: (nat, nat) -> real, m: nat): nat -> real {
    (j: nat) => Sum(m, Col(f, j))
  }

  lemma SumNone(f: nat -> real)
    ensures Sum(0, f) == 0.0
  {
  }

  lemma SumNext(n: nat, f: nat -> real)
    ensures Sum(n + 1, f) == Sum(n, f) + f(n)
  {
  }

  lemma {:induction false} SumExt(n: nat, f: nat -> real, g: nat -> real)
    requires forall i: nat :: i < n ==> f(i) == g(i)
    ensures Sum(n, f) == Sum(n, g)
  {
    if n > 0 {
      SumExt(n - 1, f, g);
    }
  }

  lemma {:induction false} SumAdds(n: nat, f: nat -> real, g: nat -> real, h: nat -> real)
    requires forall i: nat :: i < n ==> h(i) == f(i) + g(i)
    ensures Sum(n, h) == Sum(n, f) + Sum(n, g)
  {
    if n > 0 {
      SumAdds(n - 1, f, g, h);
    }
  }

  lemma {:induction false} SumScales(n: nat, c: real, f: nat -> real, h: nat -> real)
    requires forall i: nat :: i < n ==> h(i) == c * f(i)
    ensures Sum(n, h) == c * Sum(n, f)
  {
    if n > 0 {
      SumScales(n - 1, c, f, h);
      assert c * Sum(n, f) == c * Sum(n - 1, f) + c * f(n - 1);
    }
  }

  lemma {:induction false} SumZero(n: nat, f: nat -> real)
    requires forall i: nat :: i < n ==> f(i) == 0.0
    ensures Sum(n, f) == 0.0
  {
    if n > 0 {
      SumZero(n - 1, f);
    }
  }

  /** Only one place contributes. */
  lemma {:induction false} SumSingle(n: nat, f: nat -> real, k: nat)
    requires k < n && forall i: nat :: i < n && i != k ==> f(i) == 0.0
    ensures Sum(n, f) == f(k)
  {
    if k == n - 1 {
      SumZero(n - 1, f);
    } else {
      SumSingle(n - 1, f, k);
    }
  }

  /** Sums may be exchanged. */
  lemma {:induction false} SumSwap(m: nat, n: nat, f: (nat, nat) -> real)
    ensures Sum(m, RowSums(f, n)) == Sum(n, ColSums(f, m))
  {
    if m == 0 {
      SumZero(n, ColSums(f, 0));
    } else {
      SumSwap(m - 1, n, f);
      SumAdds(n, ColSums(f, m - 1), Row(f, m - 1), ColSums(f, m));
    }
  }

  /** The first n1 + n2 terms: the first n1, then n2 more. */
  lemma {:induction false} SumSplit(n1: nat, n2: nat, f: nat -> real, g: nat -> real)
    requires forall i: nat :: i < n2 ==> g(i) == f(n1 + i)
    ensures Sum(n1 + n2, f) == Sum(n1, f) + Sum(n2, g)
  {
    if n2 > 0 {
      SumSplit(n1, n2 - 1, f, g);
      assert f(n1 + n2 - 1) == f(n1 + (n2 - 1));
    }
  }

  /** A flat sum over m * n places, row by row. */
  lemma {:induction false} SumFlat(m: nat, n: nat, f: nat -> real, g: (nat, nat) -> real)
    requires forall i: nat, j: nat :: i < m && j < n ==> g(i, j) == f(i * n + j)
    ensures Sum(m * n, f) == Sum(m, RowSums(g, n))
  {
    if m > 0 {
      SumFlat(m - 1, n, f, g);
      assert m * n == (m - 1) * n + n;
      SumSplit((m - 1) * n, n, f, Row(g, m - 1));
    }
  }

  /** A flat function read as rows of length n. */
  function Plane(f: nat -> real, n: nat): (nat, nat) -> real {
    (i: nat, j: nat) => f(i * n + j)
  }

  function WeighedBy(x: nat -> real, w: (nat, nat) -> real, j: nat): nat -> real {
    (p: nat) => x(p) * w(p, j)
  }

  function WeighedAlong(y: nat -> real, w: (nat, nat) -> real, p: nat): nat -> real {
    (j: nat) => y(j) * w(p, j)
  }

  function Triple(x: nat -> real, y: nat -> real, w: (nat, nat) -> real): (nat, nat) -> real {
    (p: nat, j: nat) => x(p) * w(p, j) * y(j)
  }

  /** The matrix w and its transpose are adjoint: (x w) . y is x . (w y). */
  lemma AdjointSwap(k: nat, n: nat, x: nat -> real, y: nat -> real, w: (nat, nat) -> real,
                    left: nat -> real, right: nat -> real)
    requires forall j: nat :: j < n ==> left(j) == Sum(k, WeighedBy(x, w, j)) * y(j)
    requires forall p: nat :: p < k ==> right(p) == x(p) * Sum(n, WeighedAlong(y, w, p))
    ensures Sum(n, left) == Sum(k, right)
  {
    hide Sum;
    var t := Triple(x, y, w);
    forall j: nat | j < n
      ensures left(j) == ColSums(t, k)(j)
    {
      SumScales(k, y(j), WeighedBy(x, w, j), Col(t, j));
    }
    forall p: nat | p < k
      ensures right(p) == RowSums(t, n)(p)
    {
      SumScales(n, x(p), WeighedAlong(y, w, p), Row(t, p));
    }
    SumExt(n, left, ColSums(t, k));
    SumExt(k, right, RowSums(t, n));
    SumSwap(k, n, t);
  }

  function At(s: seq<real>, i: int): real {
    if 0 <= i < |s| then s[i] else 0.0
  }

  function Times(a: seq<real>, b: seq<real>): nat -> real {
    (i: nat) => At(a, i) * At(b, i)
  }

  /** The inner product of two buffers. */
  function Dot(a: seq<real>, b: seq<real>): real
    requires |a| == |b|
  {
    Sum(|a|, Times(a, b))
  }

  // ---------------------------------------------------------------- scattering and gathering

  /** The values that land at place j when value q is sent to offs[q]. */
  function Landing(offs: seq<int>, f: seq<real>, j: int): nat -> real {
    (q: nat) => if q < |offs| && offs[q] == j then At(f, q) else 0.0
  }

  /** What place j has received from the first count values. */
  function Received(offs: seq<int>, f: seq<real>, j: int, count: nat): real {
    Sum(count, Landing(offs, f, j))
  }

  /** Every value added up at the place it is sent to. */
  function Scatter(offs: seq<int>, f: seq<real>, m: nat): (r: seq<real>)
    ensures |r| == m
  {
    seq(m, (j: nat) => Received(offs, f, j, |offs|))
  }

  /** Every value read from the place it is sent to. */
  function Pull(x: seq<real>, offs: seq<int>): (r: seq<real>)
    ensures |r| == |offs|
  {
    seq(|offs|, q requires 0 <= q < |offs| => At(x, offs[q]))
  }

  predicate AllIn(offs: seq<int>, m: nat) {
    forall q :: 0 <= q < |offs| ==> 0 <= offs[q] < m
  }

  function WeighedReceived(x: seq<real>, offs: seq<int>, f: seq<real>, count: nat): nat -> real {
    (j: nat) => At(x, j) * Received(offs, f, j, count)
  }

  function WeighedLanding(x: seq<real>, offs: seq<int>, f: seq<real>, q: nat): nat -> real {
    (j: nat) => At(x, j) * Landing(offs, f, j)(q)
  }

  lemma LandingAt(offs: seq<int>, f: seq<real>, j: int, q: nat)
    requires q < |offs|
    ensures Landing(offs, f, j)(q) == if offs[q] == j then At(f, q) else 0.0
  {
  }

  /** Scattering is the adjoint of pulling, for the first count values. */
  lemma {:induction false} ScatterAdjointUpTo(x: seq<real>, offs: seq<int>, f: seq<real>, m: nat, count: nat)
    requires AllIn(offs, m) && count <= |offs|
    ensures Sum(m, WeighedReceived(x, offs, f, count)) == Sum(count, Times(Pull(x, offs), f))
  {
    hide Sum, Landing;
    if count == 0 {
      SumNone(WeighedReceived(x, offs, f, 0));
      SumNone(Times(Pull(x, offs), f));
      forall j: nat | j < m
        ensures WeighedReceived(x, offs, f, 0)(j) == 0.0
      {
        SumNone(Landing(offs, f, j));
      }
      SumZero(m, WeighedReceived(x, offs, f, 0));
    } else {
      var q := count - 1;
      ScatterAdjointUpTo(x, offs, f, m, q);
      var last := WeighedLanding(x, offs, f, q);
      forall j: nat | j < m && j != offs[q]
        ensures last(j) == 0.0
      {
        LandingAt(offs, f, j, q);
      }
      SumSingle(m, last, offs[q]);
      LandingAt(offs, f, offs[q], q);
      SumNext(q, Times(Pull(x, offs), f));
      forall j: nat | j < m
        ensures WeighedReceived(x, offs, f, count)(j) == WeighedReceived(x, offs, f, q)(j) + last(j)
      {
        SumNext(q, Landing(offs, f, j));
        Distribute(At(x, j), Received(offs, f, j, q), Landing(offs, f, j)(q));
      }
      SumAdds(m, WeighedReceived(x, offs, f, q), last, WeighedReceived(x, offs, f, count));
    }
  }

  lemma Distribute(x: real, a: real, b: real)
    ensures x * (a + b) == x * a + x * b
  {
  }

  lemma ScatterIsAdjoint(x: seq<real>, offs: seq<int>, f: seq<real>)
    requires AllIn(offs, |x|) && |f| == |offs|
    ensures Dot(Pull(x, offs), f) == Dot(x, Scatter(offs, f, |x|))
  {
    hide Sum, Received;
    ScatterAdjointUpTo(x, offs, f, |x|, |offs|);
    SumExt(|x|, WeighedReceived(x, offs, f, |offs|), Times(x, Scatter(offs, f, |x|)));
  }

  /** What every place has received from the first values. */
  ghost predicate ReceivedUpTo(r: seq<real>, offs: seq<int>, f: seq<real>, count: nat) {
    forall j: nat :: j < |r| ==> r[j] == Received(offs, f, j, count)
  }

  lemma NoneReceived(r: seq<real>, offs: seq<int>, f: seq<real>)
    requires forall j: nat :: j < |r| ==> r[j] == 0.0
    ensures ReceivedUpTo(r, offs, f, 0)
  {
  }

  /** r[offset] += value */
  method AddAt(r: array<real>, ghost offs: seq<int>, ghost f: seq<real>, ghost q: nat, offset: nat, value: real)
    requires q < |offs| && offset == offs[q] && offset < r.Length && value == At(f, q)
    requires ReceivedUpTo(r[..], offs, f, q)
    modifies r
    ensures ReceivedUpTo(r[..], offs, f, q + 1)
  {
    hide Received;
    ReceivedNext(offs, f, q);
    r[offset] := r[offset] + value;
  }

  lemma AllReceived(r: seq<real>, offs: seq<int>, f: seq<real>)
    requires ReceivedUpTo(r, offs, f, |offs|)
    ensures r == Scatter(offs, f, |r|)
  {
    hide Received;
  }

  lemma ReceivedNext(offs: seq<int>, f: seq<real>, q: nat)
    requires q < |offs|
    ensures forall j: nat ::
            Received(offs, f, j, q + 1) == Received(offs, f, j, q) + (if offs[q] == j then At(f, q) else 0.0)
  {
  }

  function Total(s: seq<real>): real {
    Sum(|s|, (q: nat) => At(s, q))
  }

  /** Scattering loses nothing: the totals agree. */
  lemma ScatterKeepsTotal(offs: seq<int>, f: seq<real>, m: nat)
    requires AllIn(offs, m) && |f| == |offs|
    ensures Total(Scatter(offs, f, m)) == Total(f)
  {
    hide Sum, Received;
    var ones := seq(m, _ => 1.0);
    ScatterAdjointUpTo(ones, offs, f, m, |offs|);
    SumExt(m, WeighedReceived(ones, offs, f, |offs|), (q: nat) => At(Scatter(offs, f, m), q));
    SumExt(|f|, Times(Pull(ones, offs), f), (q: nat) => At(f, q));
  }

  // ---------------------------------------------------------------- flat indices

  lemma InRange(i: nat, m: nat, j: nat, n: nat)
    requires i < m && j < n
    ensures i * n + j < m * n && (i + 1) * n == i * n + n <= m * n
  {
    assert (m - 1 - i) * n >= 0;
    assert (m - 1 - i) * n == m * n - n - i * n;
  }

  lemma Decode(i: nat, n: nat, j: nat)
    requires j < n
    ensures (i * n + j) / n == i && (i * n + j) % n == j
  {
    QuotientUnique(i * n + j, n, i, j);
  }

  /** Every flat index is that of one row and column. */
  lemma Encode(q: nat, m: nat, n: nat)
    requires n > 0 && q < m * n
    ensures q / n >= 0 && q / n < m && q % n < n && q == q / n * n + q % n
  {
    QuotientNonnegative(q, n);
    var i := q / n;
    assert (i - m) * n == i * n - m * n;
    assert i >= m ==> (i - m) * n >= 0;
  }
}
