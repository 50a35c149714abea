/**
 * The batched matrix product over flat buffers and its two backward kernels. A buffer of dims
 * [bs, m, k] holds element (b, i, p) at b*m*k + i*k + p.
 */
module Matmul {
  import opened RealFacts
  import opened RealSums

  /** The terms of output element (b, i, j): input(b, i, p) * other(b, p, j). */
  function ForwardTerms(a: seq<real>, c: seq<real>, m: nat, k: nat, n: nat, b: nat, i: nat, j: nat): nat -> real {
    (p: nat) => At(a, (b * m + i) * k + p) * At(c, (b * k + p) * n + j)
  }

  /** The terms of grad_input(b, i, p): grad_output(b, i, j) * other(b, p, j). */
  function InputTerms(g: seq<real>, c: seq<real>, m: nat, k: nat, n: nat, b: nat, i: nat, p: nat): nat -> real {
    (j: nat) => At(g, (b * m + i) * n + j) * At(c, (b * k + p) * n + j)
  }

  /** The terms of grad_other(b, p, j): grad_output(b, i, j) * input(b, i, p). */
  function OtherTerms(g: seq<real>, a: seq<real>, m: nat, k: nat, n: nat, b: nat, p: nat, j: nat): nat -> real {
    (i: nat) => At(g, (b * m + i) * n + j) * At(a, (b * m + i) * k + p)
  }

  /** Element q of a product buffer. */
  function ForwardAt(a: seq<real>, c: seq<real>, m: nat, k: nat, n: nat, q: nat): real
    requires m > 0 && n > 0
  {
    Sum(k, ForwardTerms(a, c, m, k, n, Div(Div(q, n), m), Mod(Div(q, n), m), Mod(q, n)))
  }

  function InputAt(g: seq<real>, c: seq<real>, m: nat, k: nat, n: nat, q: nat, count: nat): real
    requires m > 0 && k > 0
  {
    Sum(count, InputTerms(g, c, m, k, n, Div(Div(q, k), m), Mod(Div(q, k), m), Mod(q, k)))
  }

  function OtherAt(g: seq<real>, a: seq<real>, m: nat, k: nat, n: nat, q: nat, count: nat): real
    requires k > 0 && n > 0
  {
    Sum(count, OtherTerms(g, a, m, k, n, Div(Div(q, n), k), Mod(Div(q, n), k), Mod(q, n)))
  }

  /** Quotient and remainder of an index, under a name. */
  function Div(q: nat, n: nat): nat
    requires n > 0
  {
    QuotientNonnegative(q, n);
    q / n
  }

  function Mod(q: nat, n: nat): (r: nat)
    requires n > 0
    ensures r < n
  {
    q % n
  }

  /** output[b, i, j] = sum over p of input[b, i, p] * other[b, p, j] */
  function Forward(a: seq<real>, c: seq<real>, bs: nat, m: nat, k: nat, n: nat): (o: seq<real>)
    ensures |o| == bs * m * n
  {
    seq(bs * m * n, (q: nat) requires m > 0 && n > 0 => ForwardAt(a, c, m, k, n, q))
  }

  /** grad_input[b, i, p] = sum over j of grad_output[b, i, j] * other[b, p, j] */
  function InputGrad(g: seq<real>, c: seq<real>, bs: nat, m: nat, k: nat, n: nat): (o: seq<real>)
    ensures |o| == bs * m * k
  {
    seq(bs * m * k, (q: nat) requires m > 0 && k > 0 => InputAt(g, c, m, k, n, q, n))
  }

  /** grad_other[b, p, j] = sum over i of grad_output[b, i, j] * input[b, i, p] */
  function OtherGrad(g: seq<real>, a: seq<real>, bs: nat, m: nat, k: nat, n: nat): (o: seq<real>)
    ensures |o| == bs * k * n
  {
    seq(bs * k * n, (q: nat) requires k > 0 && n > 0 => OtherAt(g, a, m, k, n, q, m))
  }

  /** Where element (b, i, j) lies, and that no other element lies there. */
  lemma Place(bs: nat, m: nat, n: nat, b: nat, i: nat, j: nat)
    requires b < bs && i < m && j < n
    ensures var q := (b * m + i) * n + j;
            && q == b * m * n + i * n + j && q < bs * m * n
            && Div(q, n) == b * m + i && Mod(q, n) == j
            && Div(b * m + i, m) == b && Mod(b * m + i, m) == i
  {
    var r := b * m + i;
    InRange(b, bs, i, m);
    InRange(r, bs * m, j, n);
    Decode(r, n, j);
    Decode(b, m, i);
    assert r * n == b * m * n + i * n;
  }

  method MatmulForward(a: array<real>, c: array<real>, bs: nat, m: nat, k: nat, n: nat) returns (o: array<real>)
    requires a.Length == bs * m * k && c.Length == bs * k * n
    ensures fresh(o) && o[..] == Forward(a[..], c[..], bs, m, k, n)
  {
    hide ForwardUpTo, ForwardTerms;
    o := new real[bs * m * n];
    ForwardBegins(o[..], a[..], c[..], m, k, n);
    for b := 0 to bs
      invariant ForwardUpTo(o[..], a[..], c[..], m, k, n, b * m * n)
    {
      Rows(b, m, n);
      for i := 0 to m
        invariant ForwardUpTo(o[..], a[..], c[..], m, k, n, (b * m + i) * n)
      {
        for j := 0 to n
          invariant ForwardUpTo(o[..], a[..], c[..], m, k, n, (b * m + i) * n + j)
        {
          Place(bs, m, n, b, i, j);
          var acc := ForwardElement(a, c, bs, m, k, n, b, i, j);
          WriteNext(o, a[..], c[..], m, k, n, b * m * n + i * n + j, acc);
        }
        NextRow(b * m + i, n);
      }
    }
    ForwardEnds(o[..], a[..], c[..], bs, m, k, n);
  }

  /** The first elements of the output are those of the product. */
  ghost predicate ForwardUpTo(o: seq<real>, a: seq<real>, c: seq<real>, m: nat, k: nat, n: nat, count: nat) {
    count <= |o| && (count > 0 ==> m > 0 && n > 0) &&
    forall q: nat :: q < count ==> o[q] == ForwardAt(a, c, m, k, n, q)
  }

  lemma ForwardBegins(o: seq<real>, a: seq<real>, c: seq<real>, m: nat, k: nat, n: nat)
    ensures ForwardUpTo(o, a, c, m, k, n, 0)
  {
  }

  lemma ForwardEnds(o: seq<real>, a: seq<real>, c: seq<real>, bs: nat, m: nat, k: nat, n: nat)
    requires |o| == bs * m * n && ForwardUpTo(o, a, c, m, k, n, |o|)
    ensures o == Forward(a, c, bs, m, k, n)
  {
    hide ForwardAt;
  }

  method WriteNext(o: array<real>, ghost a: seq<real>, ghost c: seq<real>, ghost m: nat, ghost k: nat, ghost n: nat,
                   q: nat, acc: real)
    requires q < o.Length && m > 0 && n > 0
    requires ForwardUpTo(o[..], a, c, m, k, n, q) && acc == ForwardAt(a, c, m, k, n, q)
    modifies o
    ensures ForwardUpTo(o[..], a, c, m, k, n, q + 1)
  {
    hide ForwardAt;
    o[q] := acc;
  }

  lemma Rows(b: nat, m: nat, n: nat)
    ensures (b * m + 0) * n == b * m * n && (b * m + m) * n == (b + 1) * m * n
  {
    assert b * m + m == (b + 1) * m;
  }

  lemma NextRow(r: nat, n: nat)
    ensures r * n + n == (r + 1) * n
  {
  }

  /** The inner loop: one element of the product. */
  method ForwardElement(a: array<real>, c: array<real>, bs: nat, m: nat, k: nat, n: nat, b: nat, i: nat, j: nat)
    returns (acc: real)
    requires a.Length == bs * m * k && c.Length == bs * k * n && b < bs && i < m && j < n
    ensures acc == Sum(k, ForwardTerms(a[..], c[..], m, k, n, b, i, j))
  {
    hide Div, Mod;
    acc := 0.0;
    for p := 0 to k
      invariant acc == Sum(p, ForwardTerms(a[..], c[..], m, k, n, b, i, j))
    {
      Place(bs, m, k, b, i, p);
      Place(bs, k, n, b, p, j);
      var inputIdx, otherIdx := b * m * k + i * k + p, b * k * n + p * n + j;
      acc := acc + a[inputIdx] * c[otherIdx];
    }
  }

  // ---------------------------------------------------------------- MatmulBackwardInput

  /** How many terms element q has received when row r has seen j columns, and p elements one more. */
  function InputCount(q: nat, k: nat, n: nat, r: nat, j: nat, p: nat): nat
    requires k > 0
  {
    if Div(q, k) < r then n
    else if Div(q, k) > r then 0
    else if Mod(q, k) < p then j + 1
    else j
  }

  ghost predicate InputProgress(o: seq<real>, g: seq<real>, c: seq<real>, m: nat, k: nat, n: nat, r: nat, j: nat,
                                p: nat) {
    (|o| > 0 ==> m > 0 && k > 0) &&
    forall q: nat :: q < |o| ==> o[q] == InputAt(g, c, m, k, n, q, InputCount(q, k, n, r, j, p))
  }

  lemma InputBegins(o: seq<real>, g: seq<real>, c: seq<real>, m: nat, k: nat, n: nat)
    requires (|o| > 0 ==> m > 0 && k > 0) && forall q: nat :: q < |o| ==> o[q] == 0.0
    ensures InputProgress(o, g, c, m, k, n, 0, 0, 0)
  {
  }

  lemma InputTurn(o: seq<real>, g: seq<real>, c: seq<real>, m: nat, k: nat, n: nat, r: nat, j: nat)
    ensures InputProgress(o, g, c, m, k, n, r, j, k) ==> InputProgress(o, g, c, m, k, n, r, j + 1, 0)
    ensures InputProgress(o, g, c, m, k, n, r, n, 0) ==> InputProgress(o, g, c, m, k, n, r + 1, 0, 0)
  {
    hide InputAt, Div, Mod;
  }

  lemma InputEnds(o: seq<real>, g: seq<real>, c: seq<real>, bs: nat, m: nat, k: nat, n: nat)
    requires |o| == bs * m * k && InputProgress(o, g, c, m, k, n, bs * m, 0, 0)
    ensures o == InputGrad(g, c, bs, m, k, n)
  {
    hide InputAt, Div, Mod;
    forall q: nat | q < |o|
      ensures m > 0 && k > 0 && o[q] == InputAt(g, c, m, k, n, q, n)
    {
      RowInRange(q, bs * m, k);
    }
  }

  lemma RowInRange(q: nat, m: nat, n: nat)
    requires n > 0 && q < m * n
    ensures Div(q, n) < m
  {
    Encode(q, m, n);
  }

  lemma SamePlace(q: nat, n: nat)
    requires n > 0
    ensures q == Div(q, n) * n + Mod(q, n)
  {
  }

  method AddInputTerm(o: array<real>, ghost g: seq<real>, ghost c: seq<real>, ghost m: nat, ghost k: nat, ghost n: nat,
                      ghost b: nat, ghost i: nat, ghost j: nat, ghost p: nat, q: nat, term: real)
    requires q < o.Length && i < m && p < k && q == (b * m + i) * k + p
    requires Div(q, k) == b * m + i && Mod(q, k) == p && Div(b * m + i, m) == b && Mod(b * m + i, m) == i
    requires term == InputTerms(g, c, m, k, n, b, i, p)(j)
    requires InputProgress(o[..], g, c, m, k, n, b * m + i, j, p)
    modifies o
    ensures InputProgress(o[..], g, c, m, k, n, b * m + i, j, p + 1)
  {
    hide Div, Mod, InputTerms;
    ghost var r := b * m + i;
    ghost var before := o[..];
    assert before[q] == InputAt(g, c, m, k, n, q, j);
    o[q] := o[q] + term;
    forall q': nat | q' < o.Length
      ensures o[q'] == InputAt(g, c, m, k, n, q', InputCount(q', k, n, r, j, p + 1))
    {
      if q' != q {
        SamePlace(q', k);
        assert o[q'] == before[q'];
        assert InputCount(q', k, n, r, j, p + 1) == InputCount(q', k, n, r, j, p);
      }
    }
  }

  /** The inner loop of MatmulBackwardInput. */
  method AddInputRow(o: array<real>, c: array<real>, g: array<real>, bs: nat, m: nat, k: nat, n: nat, b: nat, i: nat,
                     j: nat)
    requires c.Length == bs * k * n && g.Length == bs * m * n && o.Length == bs * m * k && o != c && o != g
    requires b < bs && i < m && j < n
    requires InputProgress(o[..], g[..], c[..], m, k, n, b * m + i, j, 0)
    modifies o
    ensures InputProgress(o[..], g[..], c[..], m, k, n, b * m + i, j, k)
  {
    hide InputProgress, Div, Mod;
    Place(bs, m, n, b, i, j);
    var grad := g[b * m * n + i * n + j];
    for p := 0 to k
      invariant InputProgress(o[..], g[..], c[..], m, k, n, b * m + i, j, p)
    {
      Place(bs, k, n, b, p, j);
      Place(bs, m, k, b, i, p);
      var otherIdx, q := b * k * n + p * n + j, b * m * k + i * k + p;
      AddInputTerm(o, g[..], c[..], m, k, n, b, i, j, p, q, grad * c[otherIdx]);
    }
  }

  method MatmulBackwardInput(c: array<real>, g: array<real>, bs: nat, m: nat, k: nat, n: nat) returns (o: array<real>)
    requires c.Length == bs * k * n && g.Length == bs * m * n
    ensures fresh(o) && o[..] == InputGrad(g[..], c[..], bs, m, k, n)
  {
    hide InputProgress;
    o := new real[bs * m * k](_ => 0.0);
    InputBegins(o[..], g[..], c[..], m, k, n);
    for b := 0 to bs
      invariant InputProgress(o[..], g[..], c[..], m, k, n, b * m, 0, 0)
    {
      Rows(b, m, 1);
      for i := 0 to m
        invariant InputProgress(o[..], g[..], c[..], m, k, n, b * m + i, 0, 0)
      {
        for j := 0 to n
          invariant InputProgress(o[..], g[..], c[..], m, k, n, b * m + i, j, 0)
        {
          AddInputRow(o, c, g, bs, m, k, n, b, i, j);
          InputTurn(o[..], g[..], c[..], m, k, n, b * m + i, j);
        }
        InputTurn(o[..], g[..], c[..], m, k, n, b * m + i, 0);
      }
    }
    InputEnds(o[..], g[..], c[..], bs, m, k, n);
  }

  // ---------------------------------------------------------------- MatmulBackwardOther

  /** How many terms element q has received when batch b has seen i rows, and some elements one more. */
  function OtherCount(q: nat, m: nat, k: nat, n: nat, b: nat, i: nat, j: nat, p: nat): nat
    requires k > 0 && n > 0
  {
    if Div(Div(q, n), k) < b then m
    else if Div(Div(q, n), k) > b then 0
    else if Mod(q, n) < j || (Mod(q, n) == j && Mod(Div(q, n), k) < p) then i + 1
    else i
  }

  ghost predicate OtherProgress(o: seq<real>, g: seq<real>, a: seq<real>, m: nat, k: nat, n: nat, b: nat, i: nat,
                                j: nat, p: nat) {
    (|o| > 0 ==> k > 0 && n > 0) &&
    forall q: nat :: q < |o| ==> o[q] == OtherAt(g, a, m, k, n, q, OtherCount(q, m, k, n, b, i, j, p))
  }

  lemma OtherBegins(o: seq<real>, g: seq<real>, a: seq<real>, m: nat, k: nat, n: nat)
    requires (|o| > 0 ==> k > 0 && n > 0) && forall q: nat :: q < |o| ==> o[q] == 0.0
    ensures OtherProgress(o, g, a, m, k, n, 0, 0, 0, 0)
  {
  }

  lemma OtherTurn(o: seq<real>, g: seq<real>, a: seq<real>, m: nat, k: nat, n: nat, b: nat, i: nat, j: nat)
    ensures OtherProgress(o, g, a, m, k, n, b, i, j, k) ==> OtherProgress(o, g, a, m, k, n, b, i, j + 1, 0)
    ensures OtherProgress(o, g, a, m, k, n, b, i, n, 0) ==> OtherProgress(o, g, a, m, k, n, b, i + 1, 0, 0)
    ensures OtherProgress(o, g, a, m, k, n, b, m, 0, 0) ==> OtherProgress(o, g, a, m, k, n, b + 1, 0, 0, 0)
  {
    hide OtherAt, Div, Mod;
  }

  lemma OtherEnds(o: seq<real>, g: seq<real>, a: seq<real>, bs: nat, m: nat, k: nat, n: nat)
    requires |o| == bs * k * n && OtherProgress(o, g, a, m, k, n, bs, 0, 0, 0)
    ensures o == OtherGrad(g, a, bs, m, k, n)
  {
    hide OtherAt, Div, Mod;
    forall q: nat | q < |o|
      ensures k > 0 && n > 0 && o[q] == OtherAt(g, a, m, k, n, q, m)
    {
      RowInRange(q, bs * k, n);
      RowInRange(Div(q, n), bs, k);
    }
  }

  method AddOtherTerm(o: array<real>, ghost g: seq<real>, ghost a: seq<real>, ghost m: nat, ghost k: nat, ghost n: nat,
                      ghost b: nat, ghost i: nat, ghost j: nat, ghost p: nat, q: nat, term: real)
    requires q < o.Length && p < k && j < n && q == (b * k + p) * n + j
    requires Div(q, n) == b * k + p && Mod(q, n) == j && Div(b * k + p, k) == b && Mod(b * k + p, k) == p
    requires term == OtherTerms(g, a, m, k, n, b, p, j)(i)
    requires OtherProgress(o[..], g, a, m, k, n, b, i, j, p)
    modifies o
    ensures OtherProgress(o[..], g, a, m, k, n, b, i, j, p + 1)
  {
    hide Div, Mod, OtherTerms;
    ghost var before := o[..];
    assert before[q] == OtherAt(g, a, m, k, n, q, i);
    o[q] := o[q] + term;
    forall q': nat | q' < o.Length
      ensures o[q'] == OtherAt(g, a, m, k, n, q', OtherCount(q', m, k, n, b, i, j, p + 1))
    {
      if q' != q {
        SamePlace(q', n);
        SamePlace(Div(q', n), k);
        assert o[q'] == before[q'];
        assert OtherCount(q', m, k, n, b, i, j, p + 1) == OtherCount(q', m, k, n, b, i, j, p);
      }
    }
  }

  /** The inner loop of MatmulBackwardOther. */
  method AddOtherColumn(o: array<real>, a: array<real>, g: array<real>, bs: nat, m: nat, k: nat, n: nat, b: nat, i: nat,
                        j: nat)
    requires a.Length == bs * m * k && g.Length == bs * m * n && o.Length == bs * k * n && o != a && o != g
    requires b < bs && i < m && j < n
    requires OtherProgress(o[..], g[..], a[..], m, k, n, b, i, j, 0)
    modifies o
    ensures OtherProgress(o[..], g[..], a[..], m, k, n, b, i, j, k)
  {
    hide OtherProgress, Div, Mod;
    Place(bs, m, n, b, i, j);
    var grad := g[b * m * n + i * n + j];
    for p := 0 to k
      invariant OtherProgress(o[..], g[..], a[..], m, k, n, b, i, j, p)
    {
      Place(bs, m, k, b, i, p);
      Place(bs, k, n, b, p, j);
      var inputIdx, q := b * m * k + i * k + p, b * k * n + p * n + j;
      AddOtherTerm(o, g[..], a[..], m, k, n, b, i, j, p, q, grad * a[inputIdx]);
    }
  }

  method MatmulBackwardOther(a: array<real>, g: array<real>, bs: nat, m: nat, k: nat, n: nat) returns (o: array<real>)
    requires a.Length == bs * m * k && g.Length == bs * m * n
    ensures fresh(o) && o[..] == OtherGrad(g[..], a[..], bs, m, k, n)
  {
    hide OtherProgress;
    o := new real[bs * k * n](_ => 0.0);
    OtherBegins(o[..], g[..], a[..], m, k, n);
    for b := 0 to bs
      invariant OtherProgress(o[..], g[..], a[..], m, k, n, b, 0, 0, 0)
    {
      for i := 0 to m
        invariant OtherProgress(o[..], g[..], a[..], m, k, n, b, i, 0, 0)
      {
        for j := 0 to n
          invariant OtherProgress(o[..], g[..], a[..], m, k, n, b, i, j, 0)
        {
          AddOtherColumn(o, a, g, bs, m, k, n, b, i, j);
          OtherTurn(o[..], g[..], a[..], m, k, n, b, i, j);
        }
        OtherTurn(o[..], g[..], a[..], m, k, n, b, i, 0);
      }
      OtherTurn(o[..], g[..], a[..], m, k, n, b, 0, 0);
    }
    OtherEnds(o[..], g[..], a[..], bs, m, k, n);
  }

  // ---------------------------------------------------------------- the backward kernels are adjoint

  lemma ForwardElementAt(a: seq<real>, c: seq<real>, bs: nat, m: nat, k: nat, n: nat, b: nat, i: nat, j: nat)
    requires b < bs && i < m && j < n
    ensures At(Forward(a, c, bs, m, k, n), (b * m + i) * n + j) == Sum(k, ForwardTerms(a, c, m, k, n, b, i, j))
  {
    hide Div, Mod, ForwardTerms, Sum;
    Place(bs, m, n, b, i, j);
  }

  lemma InputElementAt(g: seq<real>, c: seq<real>, bs: nat, m: nat, k: nat, n: nat, b: nat, i: nat, p: nat)
    requires b < bs && i < m && p < k
    ensures At(InputGrad(g, c, bs, m, k, n), (b * m + i) * k + p) == Sum(n, InputTerms(g, c, m, k, n, b, i, p))
  {
    hide Div, Mod, InputTerms, Sum;
    Place(bs, m, k, b, i, p);
  }

  lemma OtherElementAt(g: seq<real>, a: seq<real>, bs: nat, m: nat, k: nat, n: nat, b: nat, p: nat, j: nat)
    requires b < bs && p < k && j < n
    ensures At(OtherGrad(g, a, bs, m, k, n), (b * k + p) * n + j) == Sum(m, OtherTerms(g, a, m, k, n, b, p, j))
  {
    hide Div, Mod, OtherTerms, Sum;
    Place(bs, k, n, b, p, j);
  }

  function RowOf(a: seq<real>, k: nat, r: nat): nat -> real {
    (p: nat) => At(a, r * k + p)
  }

  function ColumnOf(a: seq<real>, m: nat, n: nat, b: nat, j: nat): nat -> real {
    (i: nat) => At(a, (b * m + i) * n + j)
  }

  /** Batch b as a matrix of k rows, and its transpose. */
  function BatchOf(c: seq<real>, k: nat, n: nat, b: nat): (nat, nat) -> real {
    (p: nat, j: nat) => At(c, (b * k + p) * n + j)
  }

  function TransposedBatch(a: seq<real>, m: nat, k: nat, b: nat): (nat, nat) -> real {
    (p: nat, i: nat) => At(a, (b * m + i) * k + p)
  }

  lemma ForwardByRow(a: seq<real>, c: seq<real>, bs: nat, m: nat, k: nat, n: nat, b: nat, i: nat, j: nat)
    requires b < bs && i < m && j < n
    ensures At(Forward(a, c, bs, m, k, n), (b * m + i) * n + j) ==
            Sum(k, WeighedBy(RowOf(a, k, b * m + i), BatchOf(c, k, n, b), j))
  {
    hide Sum, At, Forward;
    ForwardElementAt(a, c, bs, m, k, n, b, i, j);
    SumExt(k, ForwardTerms(a, c, m, k, n, b, i, j), WeighedBy(RowOf(a, k, b * m + i), BatchOf(c, k, n, b), j));
  }

  /** Element (b, i, j) of the product, written out; the backward kernels are fixed by it through the two adjoints. */
  lemma ProductElement(a: seq<real>, c: seq<real>, bs: nat, m: nat, k: nat, n: nat, b: nat, i: nat, j: nat)
    requires b < bs && i < m && j < n
    ensures (b * m + i) * n + j < bs * m * n
    ensures Forward(a, c, bs, m, k, n)[(b * m + i) * n + j] ==
            Sum(k, (p: nat) => At(a, (b * m + i) * k + p) * At(c, (b * k + p) * n + j))
  {
    Place(bs, m, n, b, i, j);
    ForwardElementAt(a, c, bs, m, k, n, b, i, j);
    hide Sum, Forward;
    SumExt(k, ForwardTerms(a, c, m, k, n, b, i, j),
      (p: nat) => At(a, (b * m + i) * k + p) * At(c, (b * k + p) * n + j));
  }

  lemma InputByRow(g: seq<real>, c: seq<real>, bs: nat, m: nat, k: nat, n: nat, b: nat, i: nat, p: nat)
    requires b < bs && i < m && p < k
    ensures At(InputGrad(g, c, bs, m, k, n), (b * m + i) * k + p) ==
            Sum(n, WeighedAlong(RowOf(g, n, b * m + i), BatchOf(c, k, n, b), p))
  {
    hide Sum, At, InputGrad;
    InputElementAt(g, c, bs, m, k, n, b, i, p);
    SumExt(n, InputTerms(g, c, m, k, n, b, i, p), WeighedAlong(RowOf(g, n, b * m + i), BatchOf(c, k, n, b), p));
  }

  lemma TimesAt(a: seq<real>, b: seq<real>, r: nat, n: nat, j: nat)
    ensures Row(Plane(Times(a, b), n), r)(j) == RowOf(a, n, r)(j) * RowOf(b, n, r)(j)
  {
    hide At;
  }

  /** Row i of batch b: the input's row against the gradient's row. */
  lemma InputAdjointRow(a: seq<real>, c: seq<real>, g: seq<real>, bs: nat, m: nat, k: nat, n: nat, b: nat, i: nat)
    requires b < bs && i < m
    ensures var r := b * m + i;
            Sum(n, Row(Plane(Times(Forward(a, c, bs, m, k, n), g), n), r)) ==
            Sum(k, Row(Plane(Times(a, InputGrad(g, c, bs, m, k, n)), k), r))
  {
    hide Sum, Row, Plane, Times, Forward, InputGrad, BatchOf, WeighedBy, WeighedAlong, At;
    var r := b * m + i;
    var o, gi, x, y, w :=
        Forward(a, c, bs, m, k, n), InputGrad(g, c, bs, m, k, n), RowOf(a, k, r), RowOf(g, n, r), BatchOf(c, k, n, b);
    var left, right := Row(Plane(Times(o, g), n), r), Row(Plane(Times(a, gi), k), r);
    forall j: nat | j < n
      ensures left(j) == Sum(k, WeighedBy(x, w, j)) * y(j)
    {
      TimesAt(o, g, r, n, j);
      ForwardByRow(a, c, bs, m, k, n, b, i, j);
    }
    forall p: nat | p < k
      ensures right(p) == x(p) * Sum(n, WeighedAlong(y, w, p))
    {
      TimesAt(a, gi, r, k, p);
      InputByRow(g, c, bs, m, k, n, b, i, p);
    }
    AdjointSwap(k, n, x, y, w, left, right);
  }

  /** MatmulBackwardInput is the adjoint of MatmulForward in its first argument. */
  lemma InputAdjoint(a: seq<real>, c: seq<real>, g: seq<real>, bs: nat, m: nat, k: nat, n: nat)
    requires |a| == bs * m * k && |g| == bs * m * n
    ensures Dot(Forward(a, c, bs, m, k, n), g) == Dot(a, InputGrad(g, c, bs, m, k, n))
  {
    hide Sum, Times, Forward, InputGrad;
    var fl, fr := Times(Forward(a, c, bs, m, k, n), g), Times(a, InputGrad(g, c, bs, m, k, n));
    SumFlat(bs * m, n, fl, Plane(fl, n));
    SumFlat(bs * m, k, fr, Plane(fr, k));
    var left, right := RowSums(Plane(fl, n), n), RowSums(Plane(fr, k), k);
    forall r: nat | r < bs * m
      ensures left(r) == right(r)
    {
      Encode(r, bs, m);
      InputAdjointRow(a, c, g, bs, m, k, n, r / m, r % m);
    }
    SumExt(bs * m, left, right);
  }

  lemma ForwardByColumn(a: seq<real>, c: seq<real>, bs: nat, m: nat, k: nat, n: nat, b: nat, i: nat, j: nat)
    requires b < bs && i < m && j < n
    ensures ColumnOf(Forward(a, c, bs, m, k, n), m, n, b, j)(i) ==
            Sum(k, WeighedBy(ColumnOf(c, k, n, b, j), TransposedBatch(a, m, k, b), i))
  {
    hide Sum, At, Forward;
    ForwardElementAt(a, c, bs, m, k, n, b, i, j);
    SumExt(k, ForwardTerms(a, c, m, k, n, b, i, j), WeighedBy(ColumnOf(c, k, n, b, j), TransposedBatch(a, m, k, b), i));
  }

  lemma OtherByColumn(g: seq<real>, a: seq<real>, bs: nat, m: nat, k: nat, n: nat, b: nat, p: nat, j: nat)
    requires b < bs && p < k && j < n
    ensures ColumnOf(OtherGrad(g, a, bs, m, k, n), k, n, b, j)(p) ==
            Sum(m, WeighedAlong(ColumnOf(g, m, n, b, j), TransposedBatch(a, m, k, b), p))
  {
    hide Sum, At, OtherGrad;
    OtherElementAt(g, a, bs, m, k, n, b, p, j);
    SumExt(m, OtherTerms(g, a, m, k, n, b, p, j),
      WeighedAlong(ColumnOf(g, m, n, b, j), TransposedBatch(a, m, k, b), p));
  }

  lemma TimesInColumn(a: seq<real>, c: seq<real>, m: nat, n: nat, b: nat, j: nat, i: nat)
    ensures Row(Plane(Col(Plane(Times(a, c), n), j), m), b)(i) ==
            ColumnOf(a, m, n, b, j)(i) * ColumnOf(c, m, n, b, j)(i)
  {
    hide At;
  }

  /** Column j of batch b: the other operand's column against the gradient's column. */
  lemma OtherAdjointColumn(a: seq<real>, c: seq<real>, g: seq<real>, bs: nat, m: nat, k: nat, n: nat, b: nat, j: nat)
    requires b < bs && j < n
    ensures var fl, fr := Times(Forward(a, c, bs, m, k, n), g), Times(c, OtherGrad(g, a, bs, m, k, n));
            Sum(m, Row(Plane(Col(Plane(fl, n), j), m), b)) == Sum(k, Row(Plane(Col(Plane(fr, n), j), k), b))
  {
    hide Sum, Row, Col, Plane, Times, Forward, OtherGrad, TransposedBatch, WeighedBy, WeighedAlong, ColumnOf, At;
    var o, go, x, y, w :=
        Forward(a, c, bs, m, k, n), OtherGrad(g, a, bs, m, k, n), ColumnOf(c, k, n, b, j), ColumnOf(g, m, n, b, j),
          TransposedBatch(a, m, k, b);
    var left, right :=
        Row(Plane(Col(Plane(Times(o, g), n), j), m), b), Row(Plane(Col(Plane(Times(c, go), n), j), k), b);
    forall i: nat | i < m
      ensures left(i) == Sum(k, WeighedBy(x, w, i)) * y(i)
    {
      TimesInColumn(o, g, m, n, b, j, i);
      ForwardByColumn(a, c, bs, m, k, n, b, i, j);
    }
    forall p: nat | p < k
      ensures right(p) == x(p) * Sum(m, WeighedAlong(y, w, p))
    {
      TimesInColumn(c, go, k, n, b, j, p);
      OtherByColumn(g, a, bs, m, k, n, b, p, j);
    }
    AdjointSwap(k, m, x, y, w, left, right);
  }

  /** A flat sum over rows of length n, column by column, each column batch by batch. */
  lemma ByColumn(bs: nat, m: nat, n: nat, f: nat -> real, j: nat)
    ensures Sum(bs * m, Col(Plane(f, n), j)) == Sum(bs, RowSums(Plane(Col(Plane(f, n), j), m), m))
  {
    hide Sum;
    SumFlat(bs, m, Col(Plane(f, n), j), Plane(Col(Plane(f, n), j), m));
  }

  /** MatmulBackwardOther is the adjoint of MatmulForward in its second argument. */
  lemma OtherAdjoint(a: seq<real>, c: seq<real>, g: seq<real>, bs: nat, m: nat, k: nat, n: nat)
    requires |c| == bs * k * n && |g| == bs * m * n
    ensures Dot(Forward(a, c, bs, m, k, n), g) == Dot(c, OtherGrad(g, a, bs, m, k, n))
  {
    hide Sum, Times, Forward, OtherGrad;
    var fl, fr := Times(Forward(a, c, bs, m, k, n), g), Times(c, OtherGrad(g, a, bs, m, k, n));
    SumFlat(bs * m, n, fl, Plane(fl, n));
    SumFlat(bs * k, n, fr, Plane(fr, n));
    SumSwap(bs * m, n, Plane(fl, n));
    SumSwap(bs * k, n, Plane(fr, n));
    forall j: nat | j < n
      ensures ColSums(Plane(fl, n), bs * m)(j) == ColSums(Plane(fr, n), bs * k)(j)
    {
      ByColumn(bs, m, n, fl, j);
      ByColumn(bs, k, n, fr, j);
      var left, right := RowSums(Plane(Col(Plane(fl, n), j), m), m), RowSums(Plane(Col(Plane(fr, n), j), k), k);
      forall b: nat | b < bs
        ensures left(b) == right(b)
      {
        OtherAdjointColumn(a, c, g, bs, m, k, n, b, j);
      }
      SumExt(bs, left, right);
    }
    SumExt(n, ColSums(Plane(fl, n), bs * m), ColSums(Plane(fr, n), bs * k));
  }
}
