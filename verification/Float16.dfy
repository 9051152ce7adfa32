/**
  The half-precision types of onnxruntime_float16.h: conversions from and to
  float32 and the comparisons on raw bits.

  Bits are natural numbers.  x >> k is x / 2^k, x & (2^k - 1) is x % 2^k, and
  u32 arithmetic is taken modulo 2^32 wherever the source can wrap.
 */
module Float16 {
  import opened Arithmetic
  import opened Kernel
  import opened Rounding

  type U16 = x: nat | x < 0x1_0000

  /** p fraction bits; unit of the smallest subnormal, in units of 2^-149; infinity and sign patterns. */
  datatype Format = Format(p: nat, unit: nat, inf: nat, sign: nat) {
    predicate Valid() {
      unit > 0 && 0 < inf < sign && inf % 2 == 0
    }
  }

  ghost const FLOAT32 := Format(23, 1, 0x7F80_0000, 0x8000_0000)
  ghost const HALF := Format(10, Pow2(125), 0x7C00, 0x8000)
  ghost const BFLOAT16 := Format(7, 0x1_0000, 0x7F80, 0x8000)

  /** Pattern b without its sign bit. */
  function Mag(f: Format, b: nat): nat {
    if b >= f.sign then b - f.sign else b
  }

  predicate NaN(f: Format, b: nat) {
    Mag(f, b) > f.inf
  }

  /** Extended reals; finite values are counted in units of 2^-149. */
  datatype Ext = NegInf | Finite(v: int) | PosInf

  predicate Lt(a: Ext, b: Ext) {
    match (a, b)
    case (Finite(x), Finite(y)) => x < y
    case (NegInf, NegInf) => false
    case (NegInf, _) => true
    case (PosInf, _) => false
    case (Finite(_), PosInf) => true
    case (Finite(_), NegInf) => false
  }

  /** The number a non-NaN pattern stands for (section 3.4 of IEEE 754-2019). */
  ghost function Value(f: Format, b: nat): Ext
    requires f.Valid() && !NaN(f, b)
  {
    var m, negative := Mag(f, b), b >= f.sign;
    if m == f.inf then (if negative then NegInf else PosInf)
    else
      var v := MagVal(f.p, m) * f.unit;
      Finite(if negative then -v else v)
  }

  /** Sign and magnitude read as one signed integer. */
  function SignedMag(f: Format, b: nat): int {
    if b >= f.sign then 0 - Mag(f, b) else Mag(f, b)
  }

  /** Numeric order is the order of the signed magnitude patterns. */
  lemma ValueOrder(f: Format, a: nat, b: nat)
    requires f.Valid() && !NaN(f, a) && !NaN(f, b)
    ensures Lt(Value(f, a), Value(f, b)) <==> SignedMag(f, a) < SignedMag(f, b)
    ensures Value(f, a) == Value(f, b) <==> SignedMag(f, a) == SignedMag(f, b)
  {
    hide MagVal, Pow2;
    MagSmall(f.p, 0);
    var m, n := Mag(f, a), Mag(f, b);
    ScaledMono(f.p, f.unit, if m <= n then m else n, if m <= n then n else m);
    ScaledMono(f.p, f.unit, 0, m);
    ScaledMono(f.p, f.unit, 0, n);
  }

  // ---------------------------------------------------------------- comparisons

  predicate IsNegative(b: U16) {
    b >= 0x8000
  }

  /** Or-ing two patterns and stripping the sign leaves 0 exactly when both magnitudes are 0. */
  predicate AreZero(a: U16, b: U16) {
    a % 0x8000 == 0 && b % 0x8000 == 0
  }

  predicate OpEqual(inf: nat, a: U16, b: U16) {
    if a % 0x8000 > inf || b % 0x8000 > inf then false else a == b
  }

  predicate OpLess(inf: nat, a: U16, b: U16) {
    if a % 0x8000 > inf || b % 0x8000 > inf then false
    else if IsNegative(a) != IsNegative(b) then IsNegative(a) && !AreZero(a, b)
    else a != b && ((a < b) != IsNegative(a))
  }

  ghost predicate IsHalfFormat(f: Format) {
    f.Valid() && f.sign == 0x8000
  }

  lemma OpLessIsNumericOrder(f: Format, a: U16, b: U16)
    requires IsHalfFormat(f)
    ensures OpLess(f.inf, a, b) <==>
              !NaN(f, a) && !NaN(f, b) && Lt(Value(f, a), Value(f, b))
  {
    hide MagVal, Pow2, Value, Lt;
    if !NaN(f, a) && !NaN(f, b) {
      ValueOrder(f, a, b);
    }
  }

  /** Equality is IEEE equality of values except that +0 and -0 are told apart. */
  lemma OpEqualIsNumericEqualityButForZeros(f: Format, a: U16, b: U16)
    requires IsHalfFormat(f)
    ensures OpEqual(f.inf, a, b) <==>
              !NaN(f, a) && !NaN(f, b) && Value(f, a) == Value(f, b) && !(AreZero(a, b) && a != b)
  {
    hide MagVal, Pow2, Value, Lt;
    if !NaN(f, a) && !NaN(f, b) {
      ValueOrder(f, a, b);
    }
  }

  /** The same for the two operators of BFloat16_t. */
  lemma BFloatComparisons(a: U16, b: U16)
    ensures OpLess(BFLOAT16.inf, a, b) <==>
              !NaN(BFLOAT16, a) && !NaN(BFLOAT16, b) && Lt(Value(BFLOAT16, a), Value(BFLOAT16, b))
    ensures OpEqual(BFLOAT16.inf, a, b) <==>
              !NaN(BFLOAT16, a) && !NaN(BFLOAT16, b) && Value(BFLOAT16, a) == Value(BFLOAT16, b)
              && !(AreZero(a, b) && a != b)
  {
    hide MagVal, Pow2, Value, Lt, OpLess, OpEqual;
    OpLessIsNumericOrder(BFLOAT16, a, b);
    OpEqualIsNumericEqualityButForZeros(BFLOAT16, a, b);
  }

  /** The pair that tells them apart: +0 and -0 are the same number and not equal. */
  lemma ZerosNotEqual(f: Format)
    requires IsHalfFormat(f)
    ensures !NaN(f, 0) && !NaN(f, 0x8000)
    ensures Value(f, 0) == Value(f, 0x8000) == Finite(0) && !OpEqual(f.inf, 0, 0x8000)
  {
    hide Pow2;
    MagSmall(f.p, 0);
  }

  /** The order is a strict weak order on the non-NaN patterns, and its ties are equality and the two zeros. */
  lemma OpLessStrictWeakOrder(f: Format, a: U16, b: U16, c: U16)
    requires IsHalfFormat(f) && !NaN(f, a) && !NaN(f, b) && !NaN(f, c)
    ensures OpLess(f.inf, a, b) ==> !OpLess(f.inf, b, a)
    ensures OpLess(f.inf, a, b) && OpLess(f.inf, b, c) ==> OpLess(f.inf, a, c)
    ensures OpLess(f.inf, a, c) ==> OpLess(f.inf, a, b) || OpLess(f.inf, b, c)
    ensures !OpLess(f.inf, a, b) && !OpLess(f.inf, b, a) <==> OpEqual(f.inf, a, b) || AreZero(a, b)
  {
    hide MagVal, Pow2, Value, OpLess, OpEqual;
    OpLessIsNumericOrder(f, a, b);
    OpLessIsNumericOrder(f, b, a);
    OpLessIsNumericOrder(f, b, c);
    OpLessIsNumericOrder(f, a, c);
    OpEqualIsNumericEqualityButForZeros(f, a, b);
    ValueOrder(f, a, b);
    ValueOrder(f, b, a);
  }

  // ---------------------------------------------------------------- narrowing, as the standard has it

  /** Formats between which narrowing is defined: values of w in the common unit, infinity to infinity. */
  ghost predicate Narrows(w: Format, f: Format) {
    && w.Valid() && f.Valid() && w.unit == 1
    && RoundBits(f.p, f.unit, MagVal(w.p, w.inf)) >= f.inf
  }

  /** The sign kept, the magnitude rounded to nearest even with overflow to infinity. */
  ghost function Narrow(w: Format, f: Format, u: nat): nat
    requires f.unit > 0
  {
    (if u >= w.sign then f.sign else 0) + RoundedMag(f.p, f.unit, f.inf, MagVal(w.p, Mag(w, u)))
  }

  /** Narrow meets section 4.3.1. */
  lemma NarrowRounds(w: Format, f: Format, u: nat)
    requires f.Valid()
    ensures Mag(f, Narrow(w, f, u)) <= f.inf && (Narrow(w, f, u) >= f.sign <==> u >= w.sign)
    ensures RoundsTo(f.p, f.unit, f.inf, MagVal(w.p, Mag(w, u)), Mag(f, Narrow(w, f, u)))
  {
    hide MagVal, Ulp, RoundBits, RoundedMag, Pow2;
    RoundedMagCorrect(f.p, f.unit, f.inf, MagVal(w.p, Mag(w, u)));
  }

  lemma RoundedMagMono(p: nat, f: Format, m: nat, n: nat)
    requires f.unit > 0 && m <= n
    ensures RoundedMag(f.p, f.unit, f.inf, MagVal(p, m)) <= RoundedMag(f.p, f.unit, f.inf, MagVal(p, n))
  {
    hide MagVal, Ulp, RoundBits, Pow2;
    MagMono(p, m, n);
    RoundBitsMono(f.p, f.unit, MagVal(p, m), MagVal(p, n));
  }

  /** Narrowing keeps the order of any two non-NaN values. */
  lemma NarrowMonotone(w: Format, f: Format, u: nat, v: nat)
    requires Narrows(w, f) && !NaN(w, u) && !NaN(w, v)
    requires !Lt(Value(w, v), Value(w, u))
    ensures !NaN(f, Narrow(w, f, u)) && !NaN(f, Narrow(w, f, v))
    ensures !Lt(Value(f, Narrow(w, f, v)), Value(f, Narrow(w, f, u)))
  {
    hide MagVal, Ulp, RoundBits, Pow2, Lt, Value;
    NarrowRounds(w, f, u);
    NarrowRounds(w, f, v);
    ValueOrder(w, v, u);
    ValueOrder(f, Narrow(w, f, v), Narrow(w, f, u));
    var m, n := Mag(w, u), Mag(w, v);
    MagSmall(w.p, 0);
    MagSmall(f.p, 0);
    RoundBitsExact(f.p, f.unit, 0);
    if m <= n {
      RoundedMagMono(w.p, f, m, n);
    }
    if n <= m {
      RoundedMagMono(w.p, f, n, m);
    }
  }

  /** u has the sign and the exact value of the narrow pattern h. */
  ghost predicate Widens(w: Format, f: Format, h: nat, u: nat)
    requires w.Valid() && f.Valid() && !NaN(f, h)
  {
    !NaN(w, u) && Value(w, u) == Value(f, h) && (u >= w.sign <==> h >= f.sign)
  }

  /** Narrowing is the left inverse of every exact widening. */
  lemma NarrowInvertsWiden(w: Format, f: Format, h: nat, u: nat)
    requires Narrows(w, f) && !NaN(f, h) && Widens(w, f, h, u)
    ensures Narrow(w, f, u) == h
  {
    hide MagVal, Ulp, RoundBits, Pow2;
    RoundBitsExact(f.p, f.unit, Mag(f, h));
    ScaledMono(f.p, f.unit, 0, Mag(f, h));
  }

  // ---------------------------------------------------------------- binary16

  /** One float32 addition of non-negative finite numbers: the exact sum, rounded to nearest even. */
  function AddF32(a: nat, b: nat): nat {
    RoundedMag(23, 1, 0x7F80_0000, MagVal(23, a) + MagVal(23, b))
  }

  /** One float32 subtraction with a non-negative result. */
  function SubF32(a: nat, b: nat): nat
    requires MagVal(23, b) <= MagVal(23, a)
  {
    RoundedMag(23, 1, 0x7F80_0000, MagVal(23, a) - MagVal(23, b))
  }

  lemma Powers()
    ensures Pow2(7) == 0x80 && Pow2(10) == 0x400 && Pow2(13) == 0x2000 && Pow2(16) == 0x1_0000 && Pow2(23) == 0x80_0000
    ensures Pow2(17) == 0x2_0000 && Pow2(24) == 0x100_0000
  {
    Pow2Add(10, 13);
  }

  /** The float32 with exponent j + 1 and fraction t. */
  lemma FloatScale(t: nat, j: nat)
    requires t < 0x80_0000
    ensures MagVal(23, (j + 1) * 0x80_0000 + t) == (0x80_0000 + t) * Pow2(j)
    ensures Ulp(23, (j + 1) * 0x80_0000 + t) == Pow2(j)
  {
    hide MagVal, Ulp, Pow2;
    Powers();
    MagScale(23, 0x80_0000 + t, j);
    MagSmall(23, 0x80_0000 + t);
  }

  /** The largest finite pattern is 65504, and the infinity pattern stands at 65536, in units of 2^-24. */
  lemma LargestHalves()
    ensures MagVal(10, HALF.inf - 1) == 65504 * 0x100_0000 && MagVal(10, HALF.inf) == 65536 * 0x100_0000
  {
    hide MagVal, Ulp, Pow2;
    Powers();
    MagScale(10, 0x400, 30);
    MagScale(10, 0x7FF, 29);
    MagSmall(10, 0x400);
    MagSmall(10, 0x7FF);
    Pow2Add(13, 16);
    Pow2Add(13, 17);
  }

  // The path lemmas hold for any exponent rebias j; the source has j = 127 - 15 = 112.

  /** From 2^16 on, every magnitude rounds to infinity. */
  lemma OverflowPath(m: nat, j: nat)
    requires (j + 31) * 0x80_0000 <= m
    ensures RoundBits(10, Pow2(j + 13), MagVal(23, m)) >= HALF.inf
  {
    hide MagVal, Ulp, RoundBits, Pow2;
    var t := (j + 31) * 0x80_0000;
    FloatScale(0, j + 30);
    LargestHalves();
    Powers();
    Pow2Add(17, j + 13);
    assert MagVal(23, t) == MagVal(10, HALF.inf) * Pow2(j + 13);
    RoundBitsExact(10, Pow2(j + 13), HALF.inf);
    MagMono(23, t, m);
    RoundBitsMono(10, Pow2(j + 13), MagVal(23, t), MagVal(23, m));
  }

  lemma FloatNarrowsToHalf()
    ensures Narrows(FLOAT32, HALF)
  {
    hide MagVal, Ulp, RoundBits, Pow2;
    OverflowPath(FLOAT32.inf, 112);
  }

  lemma NormalValue(q: nat, r: nat, j: nat)
    requires q >= 0x400 && r < 0x2000
    ensures MagVal(23, (q + j * 0x400) * 0x2000 + r) == MagVal(10, q) * Pow2(j + 13) + r * (Pow2(j) * Ulp(10, q))
    ensures Ulp(10, q) * Pow2(j + 13) == 0x2000 * (Pow2(j) * Ulp(10, q)) && Pow2(j) * Ulp(10, q) > 0
  {
    hide MagVal, Ulp, RoundBits, Pow2;
    Powers();
    TruncateMag(10, 13, q + j * 0x400, r);
    MagScale(10, q, j);
    Pow2Add(j, 13);
    var h, a, u := Pow2(j), MagVal(10, q), Ulp(10, q);
    MulAssoc(h, a, 0x2000);
    MulAssoc(a, h, 0x2000);
    MulAssoc(u, h, 0x2000);
    MulLt(0, h, u);
  }

  /** The rebias and rounding-bias additions round a normal result correctly. */
  lemma NormalPath(m: nat, j: nat)
    requires (j + 1) * 0x80_0000 <= m
    ensures RoundBits(10, Pow2(j + 13), MagVal(23, m)) == (m - j * 0x80_0000 + 0xfff + m / 0x2000 % 2) / 0x2000
  {
    hide MagVal, Ulp, RoundBits, Pow2;
    var q, r := m / 0x2000 - j * 0x400, m % 0x2000;
    NormalValue(q, r, j);
    RoundBitsAt(10, Pow2(j + 13), MagVal(23, m), q, r, 0x2000, Pow2(j) * Ulp(10, q));
  }

  lemma SubnormalQuotient(m: nat, j: nat)
    requires m < (j + 1) * 0x80_0000
    ensures 0 <= MagVal(23, m) / Pow2(j + 13) < 0x400
  {
    hide MagVal, Pow2;
    MagMono(23, m, (j + 1) * 0x80_0000);
    FloatScale(0, j);
    Powers();
    Pow2Add(13, j);
    MulAssoc(0x400, 0x2000, Pow2(j));
    DivBetween(MagVal(23, m), Pow2(j + 13), 0, 0x400);
  }

  lemma AlignedSum(v: nat, q: nat, r: nat, j: nat)
    requires q < 0x400 && r < Pow2(j + 13) && v == q * Pow2(j + 13) + r
    ensures RoundBits(23, 1, v + MagVal(23, (j + 14) * 0x80_0000))
            == (j + 14) * 0x80_0000 + q + if 2 * r < Pow2(j + 13) || (2 * r == Pow2(j + 13) && q % 2 == 0) then 0 else 1
  {
    hide MagVal, Ulp, RoundBits, Pow2;
    var s, b := Pow2(j + 13), (j + 14) * 0x80_0000 + q;
    FloatScale(0, j + 13);
    FloatScale(q, j + 13);
    MulPlus(0x80_0000, q, s);
    assert b % 2 == q % 2;
    RoundBitsAt(23, 1, MagVal(23, b) + r, b, r, s, 1);
  }

  /** Adding 0.5 makes the float adder round a subnormal result at the right place. */
  lemma SubnormalPath(m: nat, j: nat)
    requires m < (j + 1) * 0x80_0000
    ensures RoundBits(23, 1, MagVal(23, m) + MagVal(23, (j + 14) * 0x80_0000))
            == (j + 14) * 0x80_0000 + RoundBits(10, Pow2(j + 13), MagVal(23, m))
    ensures RoundBits(10, Pow2(j + 13), MagVal(23, m)) <= 0x400
  {
    hide MagVal, Ulp, RoundBits, Pow2;
    var s, v := Pow2(j + 13), MagVal(23, m);
    var q, r := v / s, v % s;
    DivBounds(v, s);
    SubnormalQuotient(m, j);
    Powers();
    MagSmall(10, q);
    RoundBitsAt(10, s, v, q, r, s, 1);
    AlignedSum(v, q, r, j);
  }

  /** What each of the three branches has to produce. */
  lemma HalfMagnitude(m: nat)
    ensures var r := RoundedMag(10, Pow2(125), 0x7C00, MagVal(23, m));
            if m >= 143 * 0x80_0000 then r == 0x7C00
            else if m < 113 * 0x80_0000 then
              AddF32(m, 126 * 0x80_0000) == 126 * 0x80_0000 + r && r <= 0x400
            else r == (m - 112 * 0x80_0000 + 0xfff + m / 0x2000 % 2) / 0x2000 <= 0x7C00
  {
    hide MagVal, Ulp, RoundBits, Pow2;
    if m >= 143 * 0x80_0000 {
      OverflowPath(m, 112);
    } else if m < 113 * 0x80_0000 {
      SubnormalPath(m, 112);
    } else {
      NormalPath(m, 112);
    }
  }

  /** Adding 0xC8000FFF modulo 2^32 subtracts the exponent bias and adds the rounding bias. */
  lemma RebiasWraps(m: nat, odd: nat)
    requires odd <= 1
    ensures 113 * 0x80_0000 <= m < 143 * 0x80_0000 ==>
              ((m + 0xC800_0FFF) % 0x1_0000_0000 + odd) % 0x1_0000_0000 / 0x2000 % 0x1_0000
              == (m - 112 * 0x80_0000 + 0xfff + odd) / 0x2000
  {
  }

  /** Float16Impl::ToUint16Impl */
  method HalfToUint16(u: U32) returns (val: U16)
    ensures NaN(FLOAT32, u) ==> val == 0x7E00 + (if u >= 0x8000_0000 then 0x8000 else 0)
    ensures !NaN(FLOAT32, u) ==> val == Narrow(FLOAT32, HALF, u)
  {
    hide MagVal, Ulp, RoundBits, Pow2, AddF32, RoundedMag;
    var sign := u / 0x8000_0000 * 0x8000_0000;
    var f: U32 := u - sign;
    HalfMagnitude(f);
    RebiasWraps(f, f / 0x2000 % 2);
    assert f == Mag(FLOAT32, u);
    if f >= (127 + 16) * 0x80_0000 {
      val := if f > 255 * 0x80_0000 then 0x7E00 else 0x7C00;
    } else if f < 113 * 0x80_0000 {
      f := AddF32(f, 126 * 0x80_0000);
      val := (f - 126 * 0x80_0000) % 0x1_0000_0000 % 0x1_0000;
    } else {
      var mantOdd := f / 0x2000 % 2;
      f := (f + 0xC800_0FFF) % 0x1_0000_0000;
      f := (f + mantOdd) % 0x1_0000_0000;
      val := f / 0x2000 % 0x1_0000;
    }
    val := val + sign / 0x1_0000;
  }

  /** In the value's own terms: infinity exactly from 65520 on. */
  lemma HalfOverflowsAt65520(u: U32)
    requires !NaN(FLOAT32, u)
    ensures Mag(HALF, Narrow(FLOAT32, HALF, u)) == HALF.inf <==> MagVal(23, Mag(FLOAT32, u)) >= 65520 * Pow2(149)
  {
    hide MagVal, Pow2, RoundedMag;
    NarrowRounds(FLOAT32, HALF, u);
    LargestHalves();
    Pow2Add(24, 125);
    Powers();
    MulAssoc(65504 + 65536, Pow2(24), Pow2(125));
  }

  /** A magnitude with the right value, put under the sign of val, widens val and narrows back to it. */
  lemma HalfWidens(val: U16, m: nat)
    requires !NaN(HALF, val)
    requires if Mag(HALF, val) == HALF.inf then m == FLOAT32.inf
             else m < FLOAT32.inf && MagVal(23, m) == MagVal(10, Mag(HALF, val)) * Pow2(125)
    ensures var o := m + (if val >= 0x8000 then 0x8000_0000 else 0);
            Widens(FLOAT32, HALF, val, o) && Narrow(FLOAT32, HALF, o) == val
  {
    hide MagVal, Pow2, Narrow, RoundBits;
    FloatNarrowsToHalf();
    NarrowInvertsWiden(FLOAT32, HALF, val, m + (if val >= 0x8000 then 0x8000_0000 else 0));
  }

  lemma ExponentOf(h: nat)
    requires h < 0x8000
    ensures h * 0x2000 / 0x80_0000 * 0x80_0000 == 0x7C00 * 0x2000 <==> h >= 0x7C00
    ensures h * 0x2000 / 0x80_0000 == 0 <==> h < 0x400
  {
  }

  lemma SignOf(val: U16)
    ensures val % 0x8000 == Mag(HALF, val)
    ensures val / 0x8000 == if val >= 0x8000 then 1 else 0
  {
    hide Pow2;
  }

  /** Negation of a float flips its sign bit. */
  function NegateF32(u: U32): U32 {
    (u + 0x8000_0000) % 0x1_0000_0000
  }

  lemma WidenNormal(h: nat, j: nat)
    requires 0x400 <= h
    ensures MagVal(23, h * 0x2000 + j * 0x80_0000) == MagVal(10, h) * Pow2(j + 13)
  {
    hide MagVal, Ulp, Pow2;
    Powers();
    TruncateMag(10, 13, h, 0);
    MagScale(23, h * 0x2000, j);
    Pow2Add(13, j);
    MulAssoc(MagVal(10, h), Pow2(13), Pow2(j));
  }

  lemma HiddenBitDifference(h: nat, j: nat)
    requires h < 0x400
    ensures MagVal(23, h * 0x2000 + (j + 1) * 0x80_0000) - MagVal(23, (j + 1) * 0x80_0000) == h * Pow2(j + 13)
  {
    hide MagVal, Pow2;
    FloatScale(0, j);
    FloatScale(h * 0x2000, j);
    Pow2Add(13, j);
    Powers();
    MulPlus(0x80_0000, h * 0x2000, Pow2(j));
    MulAssoc(h, 0x2000, Pow2(j));
  }

  /** With the hidden bit in place, subtracting it again leaves the subnormal's exact value. */
  lemma WidenSubnormal(h: nat, j: nat)
    requires h < 0x400 && j <= 200
    ensures var a, b := h * 0x2000 + (j + 1) * 0x80_0000, (j + 1) * 0x80_0000;
            MagVal(23, b) <= MagVal(23, a)
            && MagVal(23, SubF32(a, b)) == MagVal(10, h) * Pow2(j + 13) && SubF32(a, b) < FLOAT32.inf
  {
    hide MagVal, Ulp, RoundBits, Pow2;
    var a, b := h * 0x2000 + (j + 1) * 0x80_0000, (j + 1) * 0x80_0000;
    HiddenBitDifference(h, j);
    Powers();
    MagSmall(10, h);
    var d := Representable(23, h, j + 13);
    RoundBitsExact(23, 1, d);
    MagMono(23, b, a);
    if d > a {
      MagMono(23, a, d);
    }
  }

  /** Float16Impl::ToFloatImpl; msvcArm selects the branch that negates instead of setting the sign bit. A NaN
      keeps its sign and its payload in the upper fraction bits. */
  method HalfToFloat(val: U16, msvcArm: bool) returns (o: U32)
    ensures NaN(HALF, val) ==>
              NaN(FLOAT32, o) && Mag(FLOAT32, o) == FLOAT32.inf + (Mag(HALF, val) - HALF.inf) * 0x2000
              && (o >= FLOAT32.sign <==> val >= HALF.sign)
    ensures !NaN(HALF, val) ==> Widens(FLOAT32, HALF, val, o) && Narrow(FLOAT32, HALF, o) == val
  {
    hide MagVal, Ulp, RoundBits, Pow2, SubF32, RoundedMag, Widens, Narrow, Value;
    o := val % 0x8000 * 0x2000;
    var exp := o / 0x80_0000 * 0x80_0000;
    ExponentOf(val % 0x8000);
    SignOf(val);
    o := o + (127 - 15) * 0x80_0000;
    if exp == 0x7C00 * 0x2000 {
      o := o + (128 - 16) * 0x80_0000;
    } else if exp == 0 {
      o := o + 0x80_0000;
      WidenSubnormal(val % 0x8000, 112);
      o := SubF32(o, 113 * 0x80_0000);
    } else {
      WidenNormal(val % 0x8000, 112);
    }
    if !NaN(HALF, val) {
      HalfWidens(val, o);
    }
    if msvcArm {
      if IsNegative(val) {
        return NegateF32(o);
      }
    } else {
      o := o + val / 0x8000 * 0x8000_0000;
    }
  }

  // ---------------------------------------------------------------- bfloat16

  lemma DropLow16(m: nat)
    ensures RoundBits(7, 0x1_0000, MagVal(23, m)) == (m + m / 0x1_0000 % 2 + 0x7FFF) / 0x1_0000
  {
    hide MagVal, Ulp, RoundBits, Pow2;
    Powers();
    var q, r := m / 0x1_0000, m % 0x1_0000;
    TruncateMag(7, 16, q, r);
    RoundBitsAt(7, 0x1_0000, MagVal(23, m), q, r, 0x1_0000, Ulp(7, q));
  }

  lemma FloatNarrowsToBFloat()
    ensures Narrows(FLOAT32, BFLOAT16)
  {
    hide MagVal, Ulp, RoundBits, Pow2;
    DropLow16(FLOAT32.inf);
  }

  /** BFloat16Impl::ToUint16Impl; get_msb_half is the division by 2^16. */
  method BFloatToUint16(u: U32) returns (result: U16)
    ensures NaN(FLOAT32, u) ==> result == 0x7FC1
    ensures !NaN(FLOAT32, u) ==> result == Narrow(FLOAT32, BFLOAT16, u)
  {
    hide MagVal, Ulp, RoundBits, Pow2;
    ghost var m, sign := u % 0x8000_0000, u - u % 0x8000_0000;
    assert m == Mag(FLOAT32, u) && (sign == 0 || sign == 0x8000_0000);
    if u % 0x8000_0000 > 0x7F80_0000 {
      result := 0x7FC1;
    } else {
      var upperBits := u / 0x1_0000;
      var bits: U32 := (u + upperBits % 2 + 0x7FFF) % 0x1_0000_0000;
      result := bits / 0x1_0000;
      assert u / 0x1_0000 == m / 0x1_0000 + sign / 0x1_0000;
      assert bits == sign + (m + m / 0x1_0000 % 2 + 0x7FFF);
      assert result == sign / 0x1_0000 + (m + m / 0x1_0000 % 2 + 0x7FFF) / 0x1_0000;
      DropLow16(m);
    }
  }

  /** BFloat16Impl::ToFloatImpl */
  method BFloatToFloat(val: U16) returns (result: U32)
    ensures NaN(BFLOAT16, val) ==> result == 0x7FC0_0000
    ensures !NaN(BFLOAT16, val) ==> Widens(FLOAT32, BFLOAT16, val, result) && Narrow(FLOAT32, BFLOAT16, result) == val
  {
    hide MagVal, Ulp, RoundBits, Pow2;
    if val % 0x8000 > 0x7F80 {
      result := 0x7FC0_0000;
    } else {
      result := val * 0x1_0000;
      Powers();
      TruncateMag(7, 16, val % 0x8000, 0);
      FloatNarrowsToBFloat();
      NarrowInvertsWiden(FLOAT32, BFLOAT16, val, result);
    }
  }
}
