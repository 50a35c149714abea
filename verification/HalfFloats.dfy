/**
 * The software conversions between float32 bits and half-precision bits (FP16 and BF16). Bits are
 * natural numbers: a shift to the right is a division, a mask a remainder, and the "or" of disjoint
 * fields a sum.
 */
module HalfFloats {
  import opened RealFacts
  import opened Rounding

  type FloatBits = u: nat | u < 0x1_0000_0000
  type HalfBits = h: nat | h < 0x1_0000

  const FLOAT_STEP: nat := 0x80_0000
  const HALF_STEP: nat := 0x400

  function SignOf(u: FloatBits): nat { u / 0x8000_0000 }

  function HalfSignOf(h: HalfBits): nat { h / 0x8000 }

  predicate FloatNaN(u: FloatBits) { u % 0x8000_0000 > 0x7f80_0000 }

  predicate HalfNaN(h: HalfBits) { h % 0x8000 > 0x7c00 }

  predicate Bf16NaN(h: HalfBits) { h % 0x8000 > 0x7f80 }

  /**
   * The magnitude of a float32 in units of 2^-149. Infinity gets the next value the format would
   * have after the largest finite one, as the rounding rule of IEEE 754 has it.
   */
  function FloatValue(u: FloatBits): nat
  {
    Magnitude(FLOAT_STEP, u % 0x8000_0000)
  }

  /** The magnitudes of the FP16 format, in the same units. */
  function HalfGrid(x: nat): nat {
    Magnitude(HALF_STEP, x) * Pow2(125)
  }

  /** The magnitudes of the BF16 format: those of float32 with sixteen zero bits. */
  function Bf16Grid(x: nat): nat {
    Magnitude(FLOAT_STEP, x * 0x1_0000)
  }

  const HALF_TOP: nat := 0x7c00
  const BF16_TOP: nat := 0x7f80

  /** h is u rounded to FP16: same sign, nearest magnitude with ties to even, and NaN from NaN. */
  ghost predicate IsHalfOf(u: FloatBits, h: HalfBits) {
    && HalfSignOf(h) == SignOf(u)
    && if FloatNaN(u) then HalfNaN(h) else NearestEven(HalfGrid, HALF_TOP, FloatValue(u), h % 0x8000)
  }

  // ---------------------------------------------------------------- the FP16 grid

  lemma HalfGridStep(x: nat)
    ensures HalfGrid(x + 1) == HalfGrid(x) + Ulp(HALF_STEP, x) * Pow2(125)
  {
    hide Pow2;
    MagnitudeSteps(HALF_STEP, x);
    assert (Magnitude(HALF_STEP, x) + Ulp(HALF_STEP, x)) * Pow2(125) ==
           Magnitude(HALF_STEP, x) * Pow2(125) + Ulp(HALF_STEP, x) * Pow2(125);
  }

  lemma HalfGridIncreases()
    ensures Increasing(HalfGrid, HALF_TOP)
  {
    forall x: nat
      ensures HalfGrid(x) < HalfGrid(x + 1)
    {
      hide Pow2, Ulp, HalfGrid;
      HalfGridStep(x);
      assert Ulp(HALF_STEP, x) * Pow2(125) > 0;
    }
    StepsIncrease(HalfGrid, HALF_TOP);
  }

  /** A normal result: exponent e of the half, its field hm, and r the thirteen bits cut off. */
  lemma NormalRounds(e: nat, hm: nat, r: nat, v: nat)
    requires 1 <= e <= 30 && hm < 0x400 && r < 0x2000
    requires v == (FLOAT_STEP + hm * 0x2000 + r) * Pow2(e + 111)
    ensures var x0 := e * 0x400 + hm;
            NearestEven(HalfGrid, HALF_TOP, v, if r > 0x1000 || (r == 0x1000 && hm % 2 == 1) then x0 + 1 else x0)
  {
    hide Pow2, NearestEven, Increasing, HalfGrid;
    var x0 := e * 0x400 + hm;
    var unit := Pow2(e + 111);
    QuotientUnique(x0, HALF_STEP, e, hm);
    NormalGrid(e, hm, unit);
    HalfGridIncreases();
    assert x0 % 2 == hm % 2;
    RoundUpOrDown(HalfGrid, HALF_TOP, v, x0, r, 0x1000, unit);
  }

  lemma NormalGrid(e: nat, hm: nat, unit: nat)
    requires 1 <= e <= 30 && hm < 0x400 && unit == Pow2(e + 111)
    ensures var x0 := e * 0x400 + hm;
            && HalfGrid(x0) == (FLOAT_STEP + hm * 0x2000) * unit
            && HalfGrid(x0 + 1) == HalfGrid(x0) + 2 * 0x1000 * unit
  {
    var x0 := e * 0x400 + hm;
    QuotientUnique(x0, HALF_STEP, e, hm);
    HalfGridStep(x0);
    hide Pow2;
    HalfScale(e);
    RegroupNormal(hm, Pow2(e - 1), Pow2(125), unit);
  }

  lemma HalfScale(e: nat)
    requires e >= 1
    ensures Pow2(e - 1) * Pow2(125) == 0x2000 * Pow2(e + 111)
  {
    PowValues();
    hide Pow2;
    PowAdds(e - 1, 125);
    PowAdds(13, e + 111);
  }

  lemma RegroupNormal(hm: nat, p: nat, q: nat, unit: nat)
    requires p * q == 0x2000 * unit
    ensures ((0x400 + hm) * p) * q == (FLOAT_STEP + hm * 0x2000) * unit
  {
    assert ((0x400 + hm) * p) * q == (0x400 + hm) * (p * q);
  }

  /** A subnormal result: a significand of 24 bits shifted down by 14 to 24 places. */
  lemma SubnormalRounds(full: nat, shift: nat, d: nat, half: nat, x0: nat, r: nat, v: nat)
    requires 0x80_0000 <= full < 0x100_0000 && 14 <= shift <= 24
    requires v == full * Pow2(125 - shift) && d == Pow2(shift) && half == Pow2(shift - 1)
    requires x0 == full / d && r == full % d
    ensures x0 < 0x400
    ensures NearestEven(HalfGrid, HALF_TOP, v, if r > half || (r == half && x0 % 2 == 1) then x0 + 1 else x0)
  {
    hide Pow2, NearestEven, Increasing, HalfGrid;
    var unit := Pow2(125 - shift);
    PowNext(shift);
    PowAdds(shift, 125 - shift);
    ShiftedIsSmall(full, shift);
    SubnormalGrid(x0);
    SubnormalGrid(x0 + 1);
    assert full == x0 * d + r;
    RegroupSubnormal(x0, d, r, unit);
    HalfGridIncreases();
    RoundUpOrDown(HalfGrid, HALF_TOP, v, x0, r, half, unit);
  }

  lemma RegroupSubnormal(x0: nat, d: nat, r: nat, unit: nat)
    ensures (x0 * d + r) * unit == x0 * (d * unit) + r * unit
  {
    assert (x0 * d) * unit == x0 * (d * unit);
  }

  lemma ShiftedIsSmall(full: nat, shift: nat)
    requires full < 0x100_0000 && shift >= 14
    ensures full / Pow2(shift) < 0x400
  {
    PowValues();
    PowMonotone(14, shift);
    hide Pow2;
    var d := Pow2(shift);
    var q, r := full / d, full % d;
    assert full == q * d + r;
    assert q >= 0x400 ==> q * d >= 0x400 * d;
  }

  lemma SubnormalGrid(x: nat)
    requires x <= 0x400
    ensures HalfGrid(x) == x * Pow2(125)
  {
    assert Pow2(0) == 1;
    hide Pow2;
    if x < 0x400 {
      QuotientUnique(x, HALF_STEP, 0, x);
    } else {
      QuotientUnique(x, HALF_STEP, 1, 0);
    }
  }

  /** Too small: below half the least subnormal. */
  lemma TinyRounds(v: nat)
    requires v < Pow2(124)
    ensures NearestEven(HalfGrid, HALF_TOP, v, 0)
  {
    PowNext(125);
    hide Pow2, NearestEven, Increasing, HalfGrid;
    SubnormalGrid(0);
    SubnormalGrid(1);
    HalfGridIncreases();
    BelowTheFirst(HalfGrid, HALF_TOP, v);
  }

  /** Too large: at least the value after the largest finite half. */
  lemma HugeRounds(v: nat)
    requires v >= Pow2(165)
    ensures NearestEven(HalfGrid, HALF_TOP, v, HALF_TOP)
  {
    hide Pow2, NearestEven, Increasing, HalfGrid;
    HalfGridIncreases();
    TopValue();
    AboveTheTop(HalfGrid, HALF_TOP, v);
  }

  lemma TopValue()
    ensures HalfGrid(HALF_TOP) == Pow2(165)
  {
    PowValues();
    hide Pow2;
    PowAdds(10, 30);
    PowAdds(40, 125);
    QuotientUnique(HALF_TOP, HALF_STEP, 31, 0);
  }

  // ---------------------------------------------------------------- float32 fields

  /** Sign, exponent and mantissa of a float32. */
  lemma Fields(u: FloatBits)
    ensures var e, m := u / 0x80_0000 % 256, u % 0x80_0000;
            && u % 0x8000_0000 == e * FLOAT_STEP + m
            && u / 0x1_0000 / 0x8000 % 2 == SignOf(u)
            && FloatValue(u) == if e == 0 then m else (FLOAT_STEP + m) * Pow2(e - 1)
  {
    hide Pow2;
    var e, m := u / 0x80_0000 % 256, u % 0x80_0000;
    QuotientUnique(u % 0x8000_0000, FLOAT_STEP, e, m);
  }

  /** Sign and magnitude put together. */
  lemma Assembled(u: FloatBits, sign: nat, x: nat)
    requires !FloatNaN(u) && sign == SignOf(u) * 0x8000
    requires NearestEven(HalfGrid, HALF_TOP, FloatValue(u), x)
    ensures x <= HALF_TOP && sign + x < 0x1_0000 && IsHalfOf(u, sign + x)
  {
    QuotientUnique(sign + x, 0x8000, SignOf(u), x);
  }

  lemma AssembledNaN(u: FloatBits, sign: nat)
    requires FloatNaN(u) && sign == SignOf(u) * 0x8000
    ensures sign + 0x7e00 < 0x1_0000 && IsHalfOf(u, sign + 0x7e00)
  {
    QuotientUnique(sign + 0x7e00, 0x8000, SignOf(u), 0x7e00);
  }

  /**
   * FloatToFp16Bits. The three roundings (subnormal, normal, and the carry into the next exponent
   * and into infinity) all give the nearest half.
   */
  method FloatToFp16Bits(bits: FloatBits) returns (h: HalfBits)
    ensures IsHalfOf(bits, h)
  {
    hide NearestEven, Pow2, HalfGrid, IsHalfOf, FloatValue;
    Fields(bits);
    var sign := bits / 0x1_0000 / 0x8000 % 2 * 0x8000;
    var mantissa := bits % 0x80_0000;
    var exp := bits / 0x80_0000 % 256;
    if exp == 0xff {
      if mantissa == 0 {
        InfinityRounds(bits);
        Assembled(bits, sign, 0x7c00);
        return sign + 0x7c00;
      }
      AssembledNaN(bits, sign);
      return sign + 0x7e00;
    }
    assert !FloatNaN(bits);
    if exp == 0 {
      ZeroRounds(mantissa);
      Assembled(bits, sign, 0);
      return sign;
    }
    exp := exp - 127 + 15;
    if exp >= 0x1f {
      OverflowRounds(exp, mantissa);
      Assembled(bits, sign, 0x7c00);
      return sign + 0x7c00;
    }
    if exp <= 0 {
      if exp < -10 {
        UnderflowRounds(exp, mantissa);
        Assembled(bits, sign, 0);
        return sign;
      }
      var x := ToSubnormal(exp, mantissa);
      Assembled(bits, sign, x);
      return sign + x;
    }
    var x := ToNormal(exp, mantissa);
    Assembled(bits, sign, x);
    return sign + x;
  }

  /** The subnormal branch of FloatToFp16Bits. */
  method ToSubnormal(exp: int, m: nat) returns (x: nat)
    requires -10 <= exp <= 0 && m < FLOAT_STEP
    ensures NearestEven(HalfGrid, HALF_TOP, (FLOAT_STEP + m) * Pow2(exp + 111), x)
  {
    hide NearestEven, Pow2, HalfGrid;
    var mantissa := m + 0x80_0000;
    var shift := 14 - exp;
    var halfMant := mantissa / Pow2(shift);
    QuotientNonnegative(mantissa, Pow2(shift));
    var remainder := mantissa % Pow2(shift);
    var halfway := Pow2(shift - 1);
    SubnormalRounds(mantissa, shift, Pow2(shift), halfway, halfMant, remainder, (FLOAT_STEP + m) * Pow2(exp + 111));
    if remainder > halfway || (remainder == halfway && halfMant % 2 == 1) {
      halfMant := halfMant + 1;
    }
    x := halfMant;
  }

  /** The normal branch: a carry out of the mantissa moves on to the next exponent, the last one being infinity. */
  method ToNormal(exp: int, mantissa: nat) returns (x: nat)
    requires 1 <= exp <= 30 && mantissa < FLOAT_STEP
    ensures NearestEven(HalfGrid, HALF_TOP, (FLOAT_STEP + mantissa) * Pow2(exp + 111), x)
  {
    hide NearestEven, Pow2, HalfGrid;
    var halfExp := exp * 0x400;
    var halfMant := mantissa / 0x2000;
    var roundBits := mantissa % 0x2000;
    NormalRounds(exp, halfMant, roundBits, (FLOAT_STEP + mantissa) * Pow2(exp + 111));
    if roundBits > 0x1000 || (roundBits == 0x1000 && halfMant % 2 == 1) {
      halfMant := halfMant + 1;
      if halfMant == 0x400 {
        halfMant := 0;
        halfExp := halfExp + 0x400;
        if halfExp >= 0x7c00 {
          return 0x7c00;
        }
      }
    }
    x := halfExp + halfMant;
  }

  lemma ZeroRounds(m: nat)
    requires m < FLOAT_STEP
    ensures NearestEven(HalfGrid, HALF_TOP, m, 0)
  {
    PowValues();
    hide Pow2;
    PowMonotone(23, 124);
    TinyRounds(m);
  }

  lemma UnderflowRounds(exp: int, m: nat)
    requires -112 < exp < -10 && m < FLOAT_STEP
    ensures NearestEven(HalfGrid, HALF_TOP, (FLOAT_STEP + m) * Pow2(exp + 111), 0)
  {
    PowValues();
    hide Pow2, NearestEven;
    PowAdds(24, exp + 111);
    PowMonotone(24 + (exp + 111), 124);
    assert (FLOAT_STEP + m) * Pow2(exp + 111) < 2 * FLOAT_STEP * Pow2(exp + 111);
    TinyRounds((FLOAT_STEP + m) * Pow2(exp + 111));
  }

  lemma OverflowRounds(exp: int, m: nat)
    requires 31 <= exp
    ensures NearestEven(HalfGrid, HALF_TOP, (FLOAT_STEP + m) * Pow2(exp + 111), HALF_TOP)
  {
    PowValues();
    hide Pow2, NearestEven;
    PowAdds(23, exp + 111);
    PowMonotone(165, 23 + (exp + 111));
    assert (FLOAT_STEP + m) * Pow2(exp + 111) >= FLOAT_STEP * Pow2(exp + 111);
    HugeRounds((FLOAT_STEP + m) * Pow2(exp + 111));
  }

  lemma InfinityRounds(u: FloatBits)
    requires u % 0x8000_0000 == 0x7f80_0000
    ensures NearestEven(HalfGrid, HALF_TOP, FloatValue(u), HALF_TOP)
  {
    hide Pow2, NearestEven;
    Fields(u);
    OverflowRounds(143, 0);
  }

  // ---------------------------------------------------------------- the bits

  /**
   * The half of a float whose exponent is in the normal range, in bits: exponent less 112, the ten upper bits
   * of the mantissa, and one more if the thirteen cut off are above half, or at half and the mantissa odd.
   */
  lemma NormalHalfBits(u: FloatBits, h: HalfBits, e: nat, hm: nat, r: nat)
    requires IsHalfOf(u, h) && 1 <= e <= 30 && hm < 0x400 && r < 0x2000
    requires u % 0x8000_0000 == (e + 112) * 0x80_0000 + hm * 0x2000 + r
    ensures h == (if u >= 0x8000_0000 then 0x8000 else 0) + e * 0x400 + hm +
                 (if r > 0x1000 || (r == 0x1000 && hm % 2 == 1) then 1 else 0)
  {
    hide Pow2, NearestEven, HalfGrid, FloatValue;
    Fields(u);
    var m := hm * 0x2000 + r;
    QuotientUnique(u, 0x80_0000, SignOf(u) * 256 + e + 112, m);
    QuotientUnique(SignOf(u) * 256 + e + 112, 256, SignOf(u), e + 112);
    NormalRounds(e, hm, r, FloatValue(u));
    HalfGridIncreases();
    var x := e * 0x400 + hm + if r > 0x1000 || (r == 0x1000 && hm % 2 == 1) then 1 else 0;
    NearestIsUnique(HalfGrid, HALF_TOP, FloatValue(u), h % 0x8000, x);
  }

  /** Below the normal range: the significand, 2^23 and the mantissa, shifted down with the same rounding. */
  lemma SubnormalHalfBits(u: FloatBits, h: HalfBits, e: nat, m: nat, shift: nat)
    requires IsHalfOf(u, h) && 102 <= e <= 112 && shift == 126 - e && m < 0x80_0000
    requires u % 0x8000_0000 == e * 0x80_0000 + m
    ensures var x, r, half := (0x80_0000 + m) / Pow2(shift), (0x80_0000 + m) % Pow2(shift), Pow2(shift - 1);
            h == (if u >= 0x8000_0000 then 0x8000 else 0) + x + (if r > half || (r == half && x % 2 == 1) then 1 else 0)
  {
    hide Pow2, NearestEven, HalfGrid, FloatValue;
    Fields(u);
    QuotientUnique(u, 0x80_0000, SignOf(u) * 256 + e, m);
    QuotientUnique(SignOf(u) * 256 + e, 256, SignOf(u), e);
    var d, half := Pow2(shift), Pow2(shift - 1);
    var full := 0x80_0000 + m;
    var x0, r := full / d, full % d;
    SubnormalRounds(full, shift, d, half, x0, r, FloatValue(u));
    HalfGridIncreases();
    var x := if r > half || (r == half && x0 % 2 == 1) then x0 + 1 else x0;
    NearestIsUnique(HalfGrid, HALF_TOP, FloatValue(u), h % 0x8000, x);
  }

  /** Up to 2^-25 the half is zero; from 2^16 on it is infinity. */
  lemma ExtremeHalfBits(u: FloatBits, h: HalfBits)
    requires IsHalfOf(u, h) && !FloatNaN(u)
    ensures u % 0x8000_0000 < 0x3300_0000 ==> h % 0x8000 == 0
    ensures u % 0x8000_0000 >= 0x4780_0000 ==> h % 0x8000 == 0x7c00
  {
    hide Pow2, NearestEven, HalfGrid, FloatValue;
    Fields(u);
    var e, m := u / 0x80_0000 % 256, u % 0x80_0000;
    HalfGridIncreases();
    if e == 0 {
      ZeroRounds(m);
      NearestIsUnique(HalfGrid, HALF_TOP, FloatValue(u), h % 0x8000, 0);
    } else if e < 102 {
      UnderflowRounds(e - 112, m);
      NearestIsUnique(HalfGrid, HALF_TOP, FloatValue(u), h % 0x8000, 0);
    } else if e >= 143 {
      OverflowRounds(e - 112, m);
      NearestIsUnique(HalfGrid, HALF_TOP, FloatValue(u), h % 0x8000, HALF_TOP);
    }
  }

  // ---------------------------------------------------------------- FP16 to float32

  /** u is h widened: same sign and value, infinity from infinity, and a NaN keeps its payload. */
  ghost predicate IsFloatOf(h: HalfBits, u: FloatBits) {
    var x := h % 0x8000;
    && SignOf(u) == HalfSignOf(h)
    && (x < HALF_TOP ==> FloatValue(u) == HalfGrid(x) && u % 0x8000_0000 < 0x7f80_0000)
    && (x >= HALF_TOP ==> u % 0x8000_0000 == 0x7f80_0000 + (x - HALF_TOP) * 0x2000)
  }

  /** Fp16BitsToFloat. The loop shifts a subnormal mantissa up until its leading one is in place. */
  method Fp16BitsToFloat(bits: HalfBits) returns (out: FloatBits)
    ensures IsFloatOf(bits, out)
  {
    hide Pow2, HalfGrid, IsFloatOf, FloatValue;
    var sign := bits / 0x8000 * 0x8000_0000;
    var exp := bits / 0x400 % 0x20;
    var mant := bits % 0x400;
    HalfFields(bits);
    if exp == 0 {
      if mant == 0 {
        WidenedZero(bits, sign);
        out := sign;
      } else {
        var mantissa, e := Normalized(mant);
        WidenedSubnormal(bits, sign, mantissa, e);
        var exp32 := (e + 127) * 0x80_0000;
        var mant32 := mantissa % 0x400 * 0x2000;
        out := sign + exp32 + mant32;
      }
    } else if exp == 0x1f {
      WidenedSpecial(bits, sign);
      out := sign + 0x7f80_0000 + mant * 0x2000;
    } else {
      WidenedNormal(bits, sign, exp, mant);
      var exp32 := (exp - 15 + 127) * 0x80_0000;
      var mant32 := mant * 0x2000;
      out := sign + exp32 + mant32;
    }
  }

  method Normalized(mant: nat) returns (mantissa: nat, e: int)
    requires 0 < mant < 0x400
    ensures -24 <= e <= -14 && mantissa == mant * Pow2(-14 - e) && 0x400 <= mantissa < 0x800
  {
    PowValues();
    PowZero();
    hide Pow2;
    mantissa, e := mant, -14;
    while mantissa / 0x400 % 2 == 0
      invariant -24 <= e <= -14 && mantissa == mant * Pow2(-14 - e)
      invariant Pow2(-14 - e) <= mantissa < 0x800
      decreases 0x800 - mantissa
    {
      PowNext(-14 - e + 1);
      mantissa := mantissa * 2;
      e := e - 1;
    }
  }

  lemma HalfFields(h: HalfBits)
    ensures h % 0x8000 == h / 0x400 % 0x20 * 0x400 + h % 0x400
  {
    QuotientUnique(h % 0x8000, 0x400, h / 0x400 % 0x20, h % 0x400);
  }

  /** The fields of a float32 put together. */
  lemma Joined(sign: nat, s: nat, e: nat, m: nat) returns (u: FloatBits)
    requires s < 2 && sign == s * 0x8000_0000 && e < 256 && m < FLOAT_STEP
    ensures u == sign + e * 0x80_0000 + m && SignOf(u) == s && u % 0x8000_0000 == e * FLOAT_STEP + m
    ensures FloatValue(u) == if e == 0 then m else (FLOAT_STEP + m) * Pow2(e - 1)
  {
    hide Pow2;
    u := sign + e * 0x80_0000 + m;
    QuotientUnique(u, 0x8000_0000, s, e * FLOAT_STEP + m);
    QuotientUnique(e * FLOAT_STEP + m, FLOAT_STEP, e, m);
  }

  lemma WidenedZero(h: HalfBits, sign: nat)
    requires h % 0x8000 == 0 && sign == h / 0x8000 * 0x8000_0000
    ensures sign < 0x1_0000_0000 && IsFloatOf(h, sign)
  {
    hide Pow2;
    var u := Joined(sign, HalfSignOf(h), 0, 0);
    SubnormalGrid(0);
  }

  lemma WidenedSpecial(h: HalfBits, sign: nat)
    requires h % 0x8000 >= HALF_TOP && sign == h / 0x8000 * 0x8000_0000
    ensures var u := sign + 0x7f80_0000 + h % 0x400 * 0x2000; u < 0x1_0000_0000 && IsFloatOf(h, u)
  {
    hide Pow2;
    HalfFields(h);
    var u := Joined(sign, HalfSignOf(h), 255, h % 0x400 * 0x2000);
  }

  lemma WidenedNormal(h: HalfBits, sign: nat, e: nat, m: nat)
    requires 1 <= e <= 30 && m < 0x400 && h % 0x8000 == e * 0x400 + m && sign == h / 0x8000 * 0x8000_0000
    ensures var u := sign + (e + 112) * 0x80_0000 + m * 0x2000; u < 0x1_0000_0000 && IsFloatOf(h, u)
  {
    hide Pow2, HalfGrid;
    var u := Joined(sign, HalfSignOf(h), e + 112, m * 0x2000);
    NormalGrid(e, m, Pow2(e + 111));
  }

  lemma WidenedSubnormal(h: HalfBits, sign: nat, mantissa: nat, e: int)
    requires 0 < h % 0x8000 < 0x400 && sign == h / 0x8000 * 0x8000_0000
    requires -24 <= e <= -14 && mantissa == h % 0x400 * Pow2(-14 - e) && 0x400 <= mantissa < 0x800
    ensures var u := sign + (e + 127) * 0x80_0000 + mantissa % 0x400 * 0x2000; u < 0x1_0000_0000 && IsFloatOf(h, u)
  {
    PowValues();
    hide Pow2, HalfGrid;
    var x := h % 0x8000;
    var u := Joined(sign, HalfSignOf(h), e + 127, mantissa % 0x400 * 0x2000);
    SubnormalGrid(x);
    PowAdds(-14 - e, e + 139);
    PowAdds(13, e + 126);
    RegroupWidened(x, Pow2(-14 - e), Pow2(e + 139), Pow2(e + 126), mantissa);
  }

  lemma RegroupWidened(x: nat, p: nat, q: nat, r: nat, mantissa: nat)
    requires mantissa == x * p && q == 0x2000 * r && 0x400 <= mantissa < 0x800
    ensures (FLOAT_STEP + mantissa % 0x400 * 0x2000) * r == x * (p * q)
  {
    assert mantissa % 0x400 == mantissa - 0x400;
    assert mantissa * q == (mantissa * 0x2000) * r;
    assert (x * p) * q == x * (p * q);
  }

  // ---------------------------------------------------------------- what follows for the pair

  /** Narrowing undoes widening on every half that is not a NaN. */
  lemma NarrowingUndoesWidening(h: HalfBits, u: FloatBits, h': HalfBits)
    requires !HalfNaN(h) && IsFloatOf(h, u) && IsHalfOf(u, h')
    ensures h' == h
  {
    hide Pow2, NearestEven, HalfGrid, FloatValue;
    var x := h % 0x8000;
    HalfGridIncreases();
    if x == HALF_TOP {
      InfinityRounds(u);
    } else {
      OnTheGrid(HalfGrid, HALF_TOP, x);
    }
    NearestIsUnique(HalfGrid, HALF_TOP, FloatValue(u), x, h' % 0x8000);
  }

  function Signed(sign: nat, v: nat): int {
    if sign == 0 then v as int else -(v as int)
  }

  /** Narrowing is monotone on all floats that are not NaN. */
  lemma NarrowingIsMonotone(u: FloatBits, h: HalfBits, u': FloatBits, h': HalfBits)
    requires !FloatNaN(u) && !FloatNaN(u') && IsHalfOf(u, h) && IsHalfOf(u', h')
    requires Signed(SignOf(u), FloatValue(u)) <= Signed(SignOf(u'), FloatValue(u'))
    ensures Signed(HalfSignOf(h), HalfGrid(h % 0x8000)) <= Signed(HalfSignOf(h'), HalfGrid(h' % 0x8000))
  {
    hide Pow2, NearestEven, HalfGrid, FloatValue;
    var v, v', x, x' := FloatValue(u), FloatValue(u'), h % 0x8000, h' % 0x8000;
    HalfGridIncreases();
    NearestIsInGrid(v, x);
    NearestIsInGrid(v', x');
    if SignOf(u) == 0 && SignOf(u') == 0 {
      NearestIsMonotone(HalfGrid, HALF_TOP, v, x, v', x');
    } else if SignOf(u) != 0 && SignOf(u') != 0 {
      NearestIsMonotone(HalfGrid, HALF_TOP, v', x', v, x);
    } else if SignOf(u) == 0 {
      assert v == 0 && v' == 0;
      SubnormalGrid(0);
      OnTheGrid(HalfGrid, HALF_TOP, 0);
      NearestIsUnique(HalfGrid, HALF_TOP, 0, 0, x);
      NearestIsUnique(HalfGrid, HALF_TOP, 0, 0, x');
    }
  }

  lemma NearestIsInGrid(v: nat, x: nat)
    requires NearestEven(HalfGrid, HALF_TOP, v, x)
    ensures x <= HALF_TOP
  {
  }

  // ---------------------------------------------------------------- BF16

  function FloatToBf16Bits(bits: FloatBits): HalfBits {
    var lsb := bits / 0x1_0000 % 2;
    var roundingBias := 0x7fff + lsb;
    (bits + roundingBias) % 0x1_0000_0000 / 0x1_0000
  }

  function Bf16BitsToFloat(bits: HalfBits): FloatBits {
    bits * 0x1_0000
  }

  lemma Bf16BlockIsLinear(x: nat, r: nat)
    requires r <= 0x1_0000
    ensures Magnitude(FLOAT_STEP, x * 0x1_0000 + r) == Bf16Grid(x) + r * Ulp(FLOAT_STEP, x * 0x1_0000)
  {
    hide Pow2, Magnitude, Ulp;
    var y := x * 0x1_0000;
    QuotientUnique(y, FLOAT_STEP, x / 0x80, x % 0x80 * 0x1_0000);
    MagnitudeIsLinear(FLOAT_STEP, y, r);
  }

  lemma Bf16GridIncreases()
    ensures Increasing(Bf16Grid, BF16_TOP)
  {
    forall x: nat
      ensures Bf16Grid(x) < Bf16Grid(x + 1)
    {
      hide Magnitude, Ulp;
      Bf16BlockIsLinear(x, 0x1_0000);
      assert (x + 1) * 0x1_0000 == x * 0x1_0000 + 0x1_0000;
    }
    StepsIncrease(Bf16Grid, BF16_TOP);
  }

  /** Adding the bias and cutting off sixteen bits: what it does to sign and magnitude. */
  lemma Bf16Adds(u: FloatBits, x0: nat, r: nat)
    requires u % 0x8000_0000 == x0 * 0x1_0000 + r && r < 0x1_0000
    ensures var x := if r > 0x8000 || (r == 0x8000 && x0 % 2 == 1) then x0 + 1 else x0;
            FloatToBf16Bits(u) == (SignOf(u) * 0x8000 + x) % 0x1_0000
  {
    var x := if r > 0x8000 || (r == 0x8000 && x0 % 2 == 1) then x0 + 1 else x0;
    assert u == (SignOf(u) * 0x8000 + x0) * 0x1_0000 + r;
    QuotientUnique(u, 0x1_0000, SignOf(u) * 0x8000 + x0, r);
    var lsb := u / 0x1_0000 % 2;
    assert lsb == x0 % 2;
    var t := SignOf(u) * 0x8000 + x;
    var r' := u + 0x7fff + lsb - t * 0x1_0000;
    assert 0 <= r' < 0x1_0000;
    QuotientUnique(t * 0x1_0000 + r', 0x1_0000_0000, t / 0x1_0000, t % 0x1_0000 * 0x1_0000 + r');
    QuotientUnique(t % 0x1_0000 * 0x1_0000 + r', 0x1_0000, t % 0x1_0000, r');
  }

  /** FloatToBf16Bits rounds every float that is not a NaN to the nearest, ties to even. */
  lemma Bf16IsNearest(u: FloatBits)
    requires !FloatNaN(u)
    ensures var h := FloatToBf16Bits(u);
            && HalfSignOf(h) == SignOf(u)
            && NearestEven(Bf16Grid, BF16_TOP, FloatValue(u), h % 0x8000)
  {
    hide NearestEven, Increasing, FloatValue;
    var y := u % 0x8000_0000;
    var x0, r := y / 0x1_0000, y % 0x1_0000;
    Bf16Adds(u, x0, r);
    Bf16MagnitudeRounds(u, x0, r);
    var x := if r > 0x8000 || (r == 0x8000 && x0 % 2 == 1) then x0 + 1 else x0;
    assert x < 0x8000;
    QuotientUnique(SignOf(u) * 0x8000 + x, 0x8000, SignOf(u), x);
  }

  lemma Bf16MagnitudeRounds(u: FloatBits, x0: nat, r: nat)
    requires !FloatNaN(u) && u % 0x8000_0000 == x0 * 0x1_0000 + r && r < 0x1_0000
    ensures NearestEven(Bf16Grid, BF16_TOP, FloatValue(u), if r > 0x8000 || (r == 0x8000 && x0 % 2 == 1) then x0 + 1
            else x0)
  {
    hide NearestEven, Increasing, Magnitude, Ulp;
    Bf16GridIncreases();
    if x0 == BF16_TOP {
      OnTheGrid(Bf16Grid, BF16_TOP, x0);
    } else {
      Bf16BlockIsLinear(x0, r);
      Bf16BlockIsLinear(x0, 0x1_0000);
      RoundUpOrDown(Bf16Grid, BF16_TOP, FloatValue(u), x0, r, 0x8000, Ulp(FLOAT_STEP, x0 * 0x1_0000));
    }
  }

  /** Narrowing undoes widening on all sixteen-bit patterns, NaN included. */
  lemma Bf16NarrowingUndoesWidening(h: HalfBits)
    ensures FloatToBf16Bits(Bf16BitsToFloat(h)) == h
  {
    var u := Bf16BitsToFloat(h);
    QuotientUnique(u, 0x8000_0000, h / 0x8000, h % 0x8000 * 0x1_0000);
    Bf16Adds(u, h % 0x8000, 0);
  }

  /**
   * Of a NaN, FloatToBf16Bits makes a NaN exactly if the mantissa is above 0x8000 and below
   * 0x7f8000: below, the rounding cuts it down to infinity; above, it carries into the sign.
   */
  lemma Bf16NaNExactlyWhen(u: FloatBits)
    requires FloatNaN(u)
    ensures Bf16NaN(FloatToBf16Bits(u)) <==> 0x8000 < u % 0x80_0000 < 0x7f_8000
  {
    var y := u % 0x8000_0000;
    var m := u % 0x80_0000;
    assert y == 0x7f80_0000 + m;
    var x0, r := y / 0x1_0000, y % 0x1_0000;
    assert x0 == 0x7f80 + m / 0x1_0000 && r == m % 0x1_0000;
    Bf16Adds(u, x0, r);
    hide FloatToBf16Bits;
    var x := if r > 0x8000 || (r == 0x8000 && x0 % 2 == 1) then x0 + 1 else x0;
    if x < 0x8000 {
      QuotientUnique(SignOf(u) * 0x8000 + x, 0x8000, SignOf(u), x);
    } else {
      assert x == 0x8000;
    }
  }

  /** Two NaNs that are lost: one becomes infinity, the other minus zero. */
  lemma Bf16LosesNaN()
    ensures FloatNaN(0x7f80_0001) && FloatToBf16Bits(0x7f80_0001) == 0x7f80
    ensures FloatNaN(0x7fff_ffff) && FloatToBf16Bits(0x7fff_ffff) == 0x8000
  {
  }

  /** Widening, in bits: 1 + m / 1024 times 2^(e - 15) has exponent e + 112 and the mantissa with thirteen zeros. */
  lemma NormalFloatBits(h: HalfBits, u: FloatBits, e: nat, m: nat)
    requires IsFloatOf(h, u) && 1 <= e <= 30 && m < 0x400 && h % 0x8000 == e * 0x400 + m
    ensures u == (if h >= 0x8000 then 0x8000_0000 else 0) + (e + 112) * 0x80_0000 + m * 0x2000
  {
    hide Pow2, HalfGrid;
    var sign: nat := h / 0x8000 * 0x8000_0000;
    WidenedNormal(h, sign, e, m);
    SameFloat(h, u, sign + (e + 112) * 0x80_0000 + m * 0x2000);
  }

  /** A half has only one float: the value of a float, with its sign, determines it. */
  lemma SameFloat(h: HalfBits, u: FloatBits, u': FloatBits)
    requires IsFloatOf(h, u) && IsFloatOf(h, u')
    ensures u == u'
  {
    hide Pow2, HalfGrid, Magnitude;
    var y, y' := u % 0x8000_0000, u' % 0x8000_0000;
    if h % 0x8000 < HALF_TOP && y != y' {
      FloatsIncrease(y, y');
      FloatsIncrease(y', y);
    }
  }

  lemma FloatsIncrease(y: nat, y': nat)
    ensures y < y' ==> Magnitude(FLOAT_STEP, y) < Magnitude(FLOAT_STEP, y')
  {
    hide Magnitude, Ulp;
    if y < y' {
      forall x: nat
        ensures FloatGrid(x) < FloatGrid(x + 1)
      {
        MagnitudeSteps(FLOAT_STEP, x);
      }
      StepsIncrease(FloatGrid, y');
      assert FloatGrid(y) < FloatGrid(y');
    }
  }

  function FloatGrid(x: nat): nat {
    Magnitude(FLOAT_STEP, x)
  }

  /** One, the largest and the smallest half, in units of 2^-149: 2^149, 65504 times that, and 2^125. */
  lemma KnownValues()
    ensures FloatValue(0x3f80_0000) == Pow2(149) == HalfGrid(0x3c00)
    ensures HalfGrid(0x7bff) == 65504 * Pow2(149) && HalfGrid(1) == Pow2(125)
  {
    PowValues();
    hide Pow2;
    Fields(0x3f80_0000);
    PowAdds(23, 126);
    NormalGrid(15, 0, Pow2(126));
    NormalGrid(30, 0x3ff, Pow2(141));
    PowAdds(8, 141);
    PowAdds(13, 141);
    SubnormalGrid(1);
    EightBits();
  }

  lemma EightBits()
    ensures Pow2(8) == 256
  {
    assert Pow2(4) == 16;
  }
}
