/**
 * Binary floating-point magnitudes as integers, and rounding to nearest with ties to even as
 * section 4.3.1 of IEEE 754-2008 defines it, over any increasing grid of representable magnitudes.
 */
module Rounding {
  import opened RealFacts

  function Pow2(n: nat): (p: nat)
    ensures p > 0
  {
    if n == 0 then 1 else 2 * Pow2(n - 1)
  }

  lemma {:induction false} PowAdds(m: nat, n: nat)
    ensures Pow2(m + n) == Pow2(m) * Pow2(n)
  {
    if m > 0 {
      PowAdds(m - 1, n);
    }
  }

  lemma {:induction false} PowMonotone(m: nat, n: nat)
    requires m <= n
    ensures Pow2(m) <= Pow2(n)
  {
    if m < n {
      PowMonotone(m, n - 1);
    }
  }

  lemma PowValues()
    ensures Pow2(10) == 0x400 && Pow2(13) == 0x2000 && Pow2(14) == 0x4000 && Pow2(23) == 0x80_0000 &&
            Pow2(24) == 0x100_0000
  {
    assert Pow2(5) == 32;
    hide Pow2;
    PowAdds(5, 5);
    PowNext(11);
    PowNext(12);
    PowNext(13);
    PowNext(14);
    PowAdds(10, 13);
    PowNext(24);
  }

  // ---------------------------------------------------------------- magnitudes

  /** The magnitude with bits y, where p is the first exponent step: in units of the least subnormal. */
  function Magnitude(p: nat, y: nat): (v: nat)
    requires p > 0
  {
    if y / p == 0 then y % p else (p + y % p) * Pow2(y / p - 1)
  }

  /** The distance to the next magnitude. */
  function Ulp(p: nat, y: nat): (u: nat)
    requires p > 0
    ensures u > 0
  {
    if y / p == 0 then 1 else Pow2(y / p - 1)
  }

  /** Up to the end of its exponent the magnitude is linear in the bits. */
  lemma MagnitudeIsLinear(p: nat, y: nat, r: nat)
    requires p > 0 && y % p + r <= p
    ensures Magnitude(p, y + r) == Magnitude(p, y) + r * Ulp(p, y)
  {
    hide Pow2;
    var e, m, u := y / p, y % p, Ulp(p, y);
    assert y == e * p + m;
    QuotientNonnegative(y, p);
    Distributes(p, m, r, u);
    if m + r < p {
      QuotientUnique(y + r, p, e, m + r);
    } else {
      assert (e + 1) * p == e * p + p;
      QuotientUnique(y + r, p, e + 1, 0);
      if e > 0 {
        PowNext(e);
        assert p * (2 * u) == (p + p) * u;
      } else {
        PowZero();
      }
    }
  }

  lemma Distributes(p: nat, m: nat, r: nat, u: nat)
    ensures (p + m + r) * u == (p + m) * u + r * u
  {
  }

  lemma PowNext(e: nat)
    requires e > 0
    ensures Pow2(e) == 2 * Pow2(e - 1)
  {
  }

  lemma PowZero()
    ensures Pow2(0) == 1
  {
  }

  lemma MagnitudeSteps(p: nat, y: nat)
    requires p > 0
    ensures Magnitude(p, y + 1) == Magnitude(p, y) + Ulp(p, y)
  {
    MagnitudeIsLinear(p, y, 1);
  }

  // ---------------------------------------------------------------- rounding on a grid

  function Distance(v: int, w: int): nat {
    if v <= w then w - v else v - w
  }

  /** grid(x) is nearest to v among grid(0..top), and x is even if another is as near. */
  ghost predicate NearestEven(grid: nat -> nat, top: nat, v: nat, x: nat) {
    && x <= top
    && forall y: nat :: y <= top && y != x ==>
         Distance(v, grid(x)) < Distance(v, grid(y)) || (Distance(v, grid(x)) == Distance(v, grid(y)) && x % 2 == 0)
  }

  ghost predicate Increasing(grid: nat -> nat, top: nat) {
    forall x: nat, y: nat :: x < y <= top ==> grid(x) < grid(y)
  }

  lemma {:induction false} StepsIncrease(grid: nat -> nat, top: nat)
    requires forall x: nat :: x < top ==> grid(x) < grid(x + 1)
    ensures Increasing(grid, top)
  {
    forall x: nat, y: nat | x < y <= top
      ensures grid(x) < grid(y)
    {
      StepsIncreaseTo(grid, top, x, y);
    }
  }

  lemma {:induction false} StepsIncreaseTo(grid: nat -> nat, top: nat, x: nat, y: nat)
    requires forall x: nat :: x < top ==> grid(x) < grid(x + 1)
    requires x < y <= top
    ensures grid(x) < grid(y)
  {
    if x + 1 < y {
      StepsIncreaseTo(grid, top, x, y - 1);
    }
    assert grid(y - 1) < grid(y - 1 + 1);
  }

  /**
   * Truncate, then add one if the remainder is above half the step, or is half of it and the result
   * so far is odd: the nearest, ties to even.
   */
  lemma RoundUpOrDown(grid: nat -> nat, top: nat, v: nat, x0: nat, r: nat, half: nat, unit: nat)
    requires Increasing(grid, top) && x0 < top
    requires unit > 0 && half > 0 && r < 2 * half
    requires v == grid(x0) + r * unit
    requires grid(x0 + 1) == grid(x0) + 2 * half * unit
    ensures NearestEven(grid, top, v, if r > half || (r == half && x0 % 2 == 1) then x0 + 1 else x0)
  {
    var x := if r > half || (r == half && x0 % 2 == 1) then x0 + 1 else x0;
    var below, above := r * unit, (2 * half - r) * unit;
    assert above == 2 * half * unit - below;
    Scaled(r, half, unit);
    forall y: nat | y <= top && y != x
      ensures Distance(v, grid(x)) < Distance(v, grid(y)) ||
              (Distance(v, grid(x)) == Distance(v, grid(y)) && x % 2 == 0)
    {
      if y < x0 {
        assert grid(y) < grid(x0);
      } else if y > x0 + 1 {
        assert grid(x0 + 1) < grid(y);
      }
    }
  }

  lemma Scaled(r: nat, half: nat, unit: nat)
    requires unit > 0 && r < 2 * half
    ensures (2 * half - r) * unit > 0
    ensures r < half ==> r * unit < (2 * half - r) * unit
    ensures r > half ==> (2 * half - r) * unit < r * unit
    ensures r == half ==> r * unit == (2 * half - r) * unit
  {
  }

  /** Above the whole grid the nearest is the top. */
  lemma AboveTheTop(grid: nat -> nat, top: nat, v: nat)
    requires Increasing(grid, top) && grid(top) <= v
    ensures NearestEven(grid, top, v, top)
  {
    forall y: nat | y <= top && y != top
      ensures Distance(v, grid(top)) < Distance(v, grid(y))
    {
      assert grid(y) < grid(top);
    }
  }

  /** Below half the first step the nearest is the bottom. */
  lemma BelowTheFirst(grid: nat -> nat, top: nat, v: nat)
    requires Increasing(grid, top) && top > 0 && grid(0) <= v && 2 * (v - grid(0)) < grid(1) - grid(0)
    ensures NearestEven(grid, top, v, 0)
  {
    forall y: nat | y <= top && y != 0
      ensures Distance(v, grid(0)) < Distance(v, grid(y))
    {
      assert y > 1 ==> grid(1) < grid(y);
    }
  }

  /** A grid point is its own nearest. */
  lemma OnTheGrid(grid: nat -> nat, top: nat, x: nat)
    requires Increasing(grid, top) && x <= top
    ensures NearestEven(grid, top, grid(x), x)
  {
    forall y: nat | y <= top && y != x
      ensures Distance(grid(x), grid(x)) < Distance(grid(x), grid(y))
    {
      assert grid(x) < grid(y) || grid(y) < grid(x);
    }
  }

  /** Rounding is monotone. In particular the nearest is unique. */
  lemma NearestIsMonotone(grid: nat -> nat, top: nat, v: nat, x: nat, v': nat, x': nat)
    requires Increasing(grid, top)
    requires NearestEven(grid, top, v, x) && NearestEven(grid, top, v', x') && v <= v'
    ensures x <= x'
  {
    var next: nat := x' + 1;
    assert x' < x ==> grid(x') < grid(x);
    assert next < x ==> grid(x') < grid(next) < grid(x);
  }

  lemma NearestIsUnique(grid: nat -> nat, top: nat, v: nat, x: nat, x': nat)
    requires Increasing(grid, top)
    requires NearestEven(grid, top, v, x) && NearestEven(grid, top, v, x')
    ensures x == x'
  {
    NearestIsMonotone(grid, top, v, x, v, x');
    NearestIsMonotone(grid, top, v, x', v, x);
  }
}
