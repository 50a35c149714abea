/** Facts of integer and real arithmetic that the solver does not find by itself. */
module RealFacts {

  /** Multiplication under a name, so that proofs can treat products as opaque terms. */
  function Mul(x: real, y: real): real {
    x * y
  }

  lemma MulAtLeast(a: int, n: int)
    requires a >= 1 && n > 0
    ensures a * n >= n
  {
  }

  lemma QuotientUnique(t: int, n: int, q: int, r: int)
    requires n > 0 && t == q * n + r && 0 <= r < n
    ensures t / n == q && t % n == r
  {
    var q', r' := t / n, t % n;
    assert t == q' * n + r';
    assert (q - q') * n == q * n - q' * n && (q' - q) * n == q' * n - q * n;
    if q > q' {
      MulAtLeast(q - q', n);
    } else if q < q' {
      MulAtLeast(q' - q, n);
    }
  }

  lemma QuotientNonnegative(t: int, n: int)
    requires n > 0 && t >= 0
    ensures t / n >= 0
  {
    var q := t / n;
    assert t == q * n + t % n && (-q) * n == -(q * n);
    if q < 0 {
      MulAtLeast(-q, n);
    }
  }

  lemma QuotientSame(t: int, n: int)
    requires n > 0 && t > 0 && t % n != 0
    ensures (t - 1) / n == t / n
  {
    QuotientUnique(t - 1, n, t / n, t % n - 1);
  }

  lemma QuotientNext(t: int, n: int)
    requires n > 0 && t > 0 && t % n == 0
    ensures t / n == (t - 1) / n + 1
  {
    var q := t / n;
    assert t == q * n;
    assert (q - 1) * n == q * n - n;
    QuotientUnique(t - 1, n, q - 1, n - 1);
  }

  lemma ZeroProduct(x: real, d: real)
    requires x * d == 0.0 && d != 0.0
    ensures x == 0.0
  {
  }

  /** u is the quotient x / d when u * d is x. */
  lemma IsQuotient(u: real, x: real, d: real)
    requires d != 0.0 && u * d == x
    ensures u == x / d
  {
    assert (x / d) * d == x;
    assert (u - x / d) * d == u * d - (x / d) * d;
    ZeroProduct(u - x / d, d);
  }

  lemma QuotientPositive(x: real, y: real)
    requires x > 0.0 && y > 0.0
    ensures x / y > 0.0
  {
    assert (x / y) * y == x;
  }

  lemma AddQuotients(a: real, b: real, d: real)
    requires d != 0.0
    ensures a / d + b / d == (a + b) / d
  {
    assert (a / d) * d == a && (b / d) * d == b;
    assert (a / d + b / d) * d == (a / d) * d + (b / d) * d;
    IsQuotient(a / d + b / d, a + b, d);
  }

  lemma MulQuotient(x: real, y: real, d: real)
    requires d != 0.0
    ensures x * (y / d) == x * y / d
  {
    assert (y / d) * d == y;
    assert (x * (y / d)) * d == x * ((y / d) * d);
    IsQuotient(x * (y / d), x * y, d);
  }

  lemma Cancel(d: real, x: real, n: real)
    requires d != 0.0 && n != 0.0
    ensures (d / n) * (x / d) == x / n
  {
    MulQuotient(d / n, x, d);
    MulQuotient(x, d, n);
    assert (d / n) * x == x * (d / n) == x * d / n;
    var u := x / n;
    assert u * n == x;
    assert (u * d) * n == (u * n) * d;
    IsQuotient(u * d, x * d, n);
    IsQuotient(u, u * d, d);
  }

  lemma ScaledDiffers(x: real, f: real)
    requires x != 0.0 && f != 1.0
    ensures x * f != x
  {
    assert x * f - x == x * (f - 1.0);
  }

  /** base * f1, scaled by r, is base * f when f1 * r is f. */
  lemma ScaleOn(base: real, f1: real, r: real, f: real)
    requires f1 * r == f
    ensures (base * f1) * r == base * f
  {
  }

  lemma MulAssociates(x: real, y: real, z: real)
    ensures (x * y) * z == x * (y * z)
  {
  }

  /** x * (f1 * p), scaled by r, is (x * f) * p when f1 * r is f. */
  lemma ScaleFirst(x: real, f1: real, p: real, r: real, f: real, whole: real, lr: real)
    requires f1 * r == f && whole == f1 * p && lr == x * whole
    ensures lr * r == (x * f) * p
  {
    assert lr == x * (f1 * p);
    assert (x * (f1 * p)) * r == x * (f1 * r) * p;
  }

  lemma SwapFactors(a: real, b: real, p: real)
    ensures a * (b * p) == b * (a * p)
  {
  }

  lemma ProductStep(x: real, f: real, p: real, x1: real)
    requires x1 == x * f
    ensures x1 * p == x * (f * p)
  {
  }

  /** Of two sequences with the same elements, the first element of one can be taken out of the other. */
  lemma PickOut<T>(a: seq<T>, b: seq<T>) returns (i: nat)
    requires multiset(a) == multiset(b) && a != []
    ensures i < |b| && b[i] == a[0] && multiset(b[..i] + b[i + 1..]) == multiset(a[1..])
  {
    assert a[0] in multiset(a);
    assert a[0] in b;
    i :| 0 <= i < |b| && b[i] == a[0];
    assert a == [a[0]] + a[1..];
    assert b == b[..i] + ([b[i]] + b[i + 1..]);
    assert multiset(a) == multiset{a[0]} + multiset(a[1..]);
    assert multiset(b) == multiset{a[0]} + multiset(b[..i] + b[i + 1..]);
    SameRest(multiset{a[0]}, multiset(a[1..]), multiset(b[..i] + b[i + 1..]));
  }

  lemma SameRest<T>(x: multiset<T>, y: multiset<T>, z: multiset<T>)
    requires x + y == x + z
    ensures y == z
  {
    assert y == (x + y) - x && z == (x + z) - x;
  }
}
