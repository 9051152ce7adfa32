/**
  Magnitudes of IEEE 754 binary formats as exact integers (section 3.4), and
  correct rounding to them with ties to even (section 4.3.1).

  A magnitude pattern b of a format with p fraction bits is the bit pattern
  without its sign.  Its value is counted in units of the format's smallest
  subnormal, so every value is a natural number.  The pattern after the largest
  finite one is the infinity; by the same formula it gets the value that an
  unbounded exponent range would give it, which is what section 4.3.1 rounds
  against.
 */
module Rounding {
  import opened Arithmetic

  function Pow2(k: nat): (r: nat)
    ensures r > 0
  {
    if k == 0 then 1 else 2 * Pow2(k - 1)
  }

  lemma {:induction false} Pow2Add(j: nat, k: nat)
    ensures Pow2(j + k) == Pow2(j) * Pow2(k)
  {
    if j == 0 {
    } else {
      Pow2Add(j - 1, k);
      assert Pow2(j + k) == 2 * Pow2(j - 1 + k);
      assert 2 * (Pow2(j - 1) * Pow2(k)) == (2 * Pow2(j - 1)) * Pow2(k);
    }
  }

  lemma {:induction false} Pow2Mono(j: nat, k: nat)
    requires j <= k
    ensures Pow2(j) <= Pow2(k)
  {
    if j < k {
      Pow2Mono(j, k - 1);
    }
  }

  /** Value of pattern b.  Patterns with biased exponent 0 or 1 count single units; raising
      the exponent by one, which adds 2^p to the pattern, doubles the value. */
  function MagVal(p: nat, b: nat): nat {
    if b < 2 * Pow2(p) then b else 2 * MagVal(p, b - Pow2(p))
  }

  /** Spacing of the format above pattern b. */
  function Ulp(p: nat, b: nat): (u: nat)
    ensures u > 0
  {
    if b < 2 * Pow2(p) then 1 else 2 * Ulp(p, b - Pow2(p))
  }

  /** The value as section 3.4 gives it: biased exponent e, trailing significand t, and the
      hidden bit exactly when e is not 0. */
  lemma {:induction false} MagFormula(p: nat, e: nat, t: nat)
    requires t < Pow2(p)
    ensures MagVal(p, e * Pow2(p) + t) == if e == 0 then t else (Pow2(p) + t) * Pow2(e - 1)
  {
    if e >= 2 {
      MulPlus(e - 1, 1, Pow2(p));
      MagFormula(p, e - 1, t);
      MulLe(1, e - 1, Pow2(p));
      MulAssoc(Pow2(p) + t, Pow2(e - 2), 2);
    }
  }

  lemma MagSmall(p: nat, b: nat)
    requires b < 2 * Pow2(p)
    ensures MagVal(p, b) == b && Ulp(p, b) == 1
  {
  }

  lemma {:induction false} MagNext(p: nat, b: nat)
    ensures MagVal(p, b + 1) == MagVal(p, b) + Ulp(p, b)
  {
    if b >= 2 * Pow2(p) {
      MagNext(p, b - Pow2(p));
    }
  }

  lemma {:induction false} MagMono(p: nat, b: nat, c: nat)
    requires b <= c
    ensures MagVal(p, b) + (c - b) <= MagVal(p, c)
    decreases c - b
  {
    if b < c {
      MagMono(p, b, c - 1);
      MagNext(p, c - 1);
    }
  }

  /** Raising the biased exponent by j multiplies a normal value by 2^j. */
  lemma {:induction false} MagScale(p: nat, b: nat, j: nat)
    requires b >= Pow2(p)
    ensures MagVal(p, b + j * Pow2(p)) == Pow2(j) * MagVal(p, b)
    ensures Ulp(p, b + j * Pow2(p)) == Pow2(j) * Ulp(p, b)
  {
    if j > 0 {
      MagScale(p, b, j - 1);
      MulPlus(j - 1, 1, Pow2(p));
      MulAssoc(2, Pow2(j - 1), MagVal(p, b));
      MulAssoc(2, Pow2(j - 1), Ulp(p, b));
    }
  }

  lemma FloorBitsStep(p: nat, n: nat, h: nat)
    requires n >= 2 * Pow2(p)
    requires MagVal(p, h) <= n / 2 < MagVal(p, h + 1)
    ensures MagVal(p, h + Pow2(p)) <= n < MagVal(p, h + Pow2(p) + 1)
  {
    MagMono(p, if h < Pow2(p) then h + 1 else Pow2(p), Pow2(p));
  }

  /** The largest pattern whose value is at most n. */
  function FloorBits(p: nat, n: nat): (b: nat)
    ensures MagVal(p, b) <= n < MagVal(p, b + 1)
  {
    var P := Pow2(p);
    if n < 2 * P then
      MagNext(p, n);
      n
    else
      var h := FloorBits(p, n / 2);
      FloorBitsStep(p, n, h);
      h + P
  }

  lemma FloorUnique(p: nat, n: nat, b: nat)
    requires MagVal(p, b) <= n < MagVal(p, b + 1)
    ensures FloorBits(p, n) == b
  {
    hide MagVal, Pow2;
    var f := FloorBits(p, n);
    if f < b {
      MagMono(p, f + 1, b);
    } else if b < f {
      MagMono(p, b + 1, f);
    }
  }

  /** Round v to the format whose unit is s: nearest pattern, ties to the even pattern. */
  function RoundBits(p: nat, s: nat, v: nat): nat
    requires s > 0
  {
    var lo := FloorBits(p, v / s);
    var rem := v - MagVal(p, lo) * s;
    var gap := Ulp(p, lo) * s;
    if 2 * rem < gap || (2 * rem == gap && lo % 2 == 0) then lo else lo + 1
  }

  function Dist(x: int, y: int): nat {
    if x < y then y - x else x - y
  }

  /** Pattern c is not nearer to v than b, and if it is equally near then b is even. */
  ghost predicate Beats(p: nat, s: nat, v: nat, b: nat, c: nat) {
    var db, dc := Dist(v, MagVal(p, b) * s), Dist(v, MagVal(p, c) * s);
    db < dc || (db == dc && (c == b || b % 2 == 0))
  }

  /** Pattern b is nearest to v among all patterns, and is even if another is equally near. */
  ghost predicate IsNearestEven(p: nat, s: nat, v: nat, b: nat) {
    forall c: nat :: Beats(p, s, v, b, c)
  }

  lemma ScaleInterval(n: nat, s: nat, v: nat, a: nat, u: nat)
    requires n * s <= v < n * s + s && a <= n < a + u
    ensures a * s <= v < a * s + u * s
  {
    MulLe(a, n, s);
    MulLe(n + 1, a + u, s);
    MulPlus(n, 1, s);
    MulPlus(a, u, s);
  }

  lemma FloorBounds(p: nat, s: nat, v: nat)
    requires s > 0
    ensures var lo := FloorBits(p, v / s);
            MagVal(p, lo) * s <= v < MagVal(p, lo + 1) * s
            && MagVal(p, lo + 1) * s == MagVal(p, lo) * s + Ulp(p, lo) * s
  {
    hide MagVal, Ulp, Pow2, FloorBits;
    DivBounds(v, s);
    var n := v / s;
    var lo := FloorBits(p, n);
    MagNext(p, lo);
    ScaleInterval(n, s, v, MagVal(p, lo), Ulp(p, lo));
    MulPlus(MagVal(p, lo), Ulp(p, lo), s);
  }

  lemma ScaledMono(p: nat, s: nat, b: nat, c: nat)
    requires b <= c
    ensures MagVal(p, b) * s <= MagVal(p, c) * s
    ensures b < c && s > 0 ==> MagVal(p, b) * s < MagVal(p, c) * s
  {
    hide MagVal, Pow2;
    MagMono(p, b, c);
    MulLe(MagVal(p, b), MagVal(p, c), s);
    if b < c && s > 0 {
      MulLt(MagVal(p, b), MagVal(p, c), s);
    }
  }

  lemma RoundBitsIsNearestEven(p: nat, s: nat, v: nat)
    requires s > 0
    ensures IsNearestEven(p, s, v, RoundBits(p, s, v))
  {
    hide MagVal, Pow2, Ulp, FloorBits;
    var b, lo := RoundBits(p, s, v), FloorBits(p, v / s);
    FloorBounds(p, s, v);
    forall c: nat
      ensures Beats(p, s, v, b, c)
    {
      if c < lo {
        ScaledMono(p, s, c, lo);
      } else if c > lo + 1 {
        ScaledMono(p, s, lo + 1, c);
      }
    }
  }

  /** Two equally near patterns bracket v, and if both are even the pattern between them is nearer. */
  lemma BracketUnique(p: nat, s: nat, v: nat, lo: nat, hi: nat)
    requires s > 0 && lo <= hi
    requires Beats(p, s, v, lo, hi) && Beats(p, s, v, hi, lo)
    requires Beats(p, s, v, lo, lo + 1) && Beats(p, s, v, hi, lo + 1)
    ensures lo == hi
  {
    hide MagVal, Pow2, Ulp;
    ScaledMono(p, s, lo, lo + 1);
    if lo + 1 < hi {
      ScaledMono(p, s, lo + 1, hi);
    }
  }

  lemma NearestEvenUnique(p: nat, s: nat, v: nat, b: nat, c: nat)
    requires s > 0
    requires IsNearestEven(p, s, v, b) && IsNearestEven(p, s, v, c)
    ensures b == c
  {
    hide Beats;
    BracketUnique(p, s, v, if b < c then b else c, if b < c then c else b);
  }

  lemma RoundBitsMono(p: nat, s: nat, v: nat, w: nat)
    requires s > 0 && v <= w
    ensures RoundBits(p, s, v) <= RoundBits(p, s, w)
  {
    hide MagVal, Pow2, Ulp, FloorBits;
    FloorBounds(p, s, v);
    FloorBounds(p, s, w);
    var lv, lw := FloorBits(p, v / s), FloorBits(p, w / s);
    if lw < lv {
      ScaledMono(p, s, lw + 1, lv);
    }
  }

  lemma CompareHalves(a: nat, b: nat, unit: nat)
    requires unit > 0
    ensures a * unit < b * unit <==> a < b
    ensures a * unit == b * unit <==> a == b
  {
    if a < b {
      MulLt(a, b, unit);
    } else if b < a {
      MulLt(b, a, unit);
    }
  }

  /** A value r/k of the way from pattern q to q + 1 rounds by comparing r with k/2. */
  lemma RoundBitsAt(p: nat, s: nat, v: nat, q: nat, r: nat, k: nat, unit: nat)
    requires s > 0 && unit > 0 && r < k
    requires v == MagVal(p, q) * s + r * unit
    requires Ulp(p, q) * s == k * unit
    ensures RoundBits(p, s, v) == if 2 * r < k || (2 * r == k && q % 2 == 0) then q else q + 1
  {
    hide MagVal, Ulp, Pow2, FloorBits;
    MagNext(p, q);
    MulPlus(MagVal(p, q), Ulp(p, q), s);
    MulLt(r, k, unit);
    DivBetween(v, s, MagVal(p, q), MagVal(p, q + 1));
    FloorUnique(p, v / s, q);
    MulAssoc(2, r, unit);
    CompareHalves(2 * r, k, unit);
  }

  lemma RoundBitsExact(p: nat, s: nat, b: nat)
    requires s > 0
    ensures RoundBits(p, s, MagVal(p, b) * s) == b
  {
    hide MagVal, Ulp, Pow2, RoundBits;
    RoundBitsAt(p, s, MagVal(p, b) * s, b, 0, Ulp(p, b), s);
  }

  lemma DoubledPattern(p: nat, c: nat) returns (b: nat)
    ensures MagVal(p, b) == 2 * MagVal(p, c)
  {
    b := if c < Pow2(p) then 2 * c else c + Pow2(p);
  }

  /** Every n of at most p + 1 bits, times any power of two, is the value of some pattern. */
  lemma {:induction false} Representable(p: nat, n: nat, k: nat) returns (b: nat)
    requires n < 2 * Pow2(p)
    ensures MagVal(p, b) == n * Pow2(k)
  {
    if k == 0 {
      b := n;
    } else {
      var c := Representable(p, n, k - 1);
      MulAssoc(2, n, Pow2(k - 1));
      MulAssoc(n, 2, Pow2(k - 1));
      b := DoubledPattern(p, c);
    }
  }

  lemma DoubleSum(a: nat, k: nat, r: nat, u: nat)
    ensures 2 * (a * k + r * u) == (2 * a) * k + r * (2 * u)
  {
    MulAssoc(2, a, k);
    MulAssoc(r, 2, u);
    MulAssoc(2, r, u);
  }

  /** Dropping the low k of p + k fraction bits leaves a remainder measured in the wide format's spacing. */
  lemma {:induction false} TruncateMag(p: nat, k: nat, q: nat, r: nat)
    requires r < Pow2(k)
    ensures MagVal(p + k, q * Pow2(k) + r) == MagVal(p, q) * Pow2(k) + r * Ulp(p, q)
  {
    var P, K := Pow2(p), Pow2(k);
    Pow2Add(p, k);
    MulAssoc(2, P, K);
    if q < 2 * P {
      MulLe(q + 1, 2 * P, K);
      MulPlus(q, 1, K);
    } else {
      TruncateMag(p, k, q - P, r);
      MulPlus(q - P, P, K);
      MulLe(2 * P, q, K);
      DoubleSum(MagVal(p, q - P), K, r, Ulp(p, q - P));
    }
  }

  /** Section 4.3.1 for a format whose infinity pattern is inf: overflow exactly from half a
      spacing above the largest finite value, and otherwise the nearest finite pattern, ties to even. */
  ghost predicate RoundsTo(p: nat, s: nat, inf: nat, v: nat, b: nat)
    requires inf > 0
  {
    && b <= inf
    && (b == inf <==> 2 * v >= (MagVal(p, inf - 1) + MagVal(p, inf)) * s)
    && (b < inf ==> forall c: nat | c < inf :: Beats(p, s, v, b, c))
  }

  /** Rounding with the overflow to infinity. */
  function RoundedMag(p: nat, s: nat, inf: nat, v: nat): nat
    requires s > 0
  {
    var b := RoundBits(p, s, v);
    if b < inf then b else inf
  }

  lemma OverflowThreshold(p: nat, s: nat, inf: nat, v: nat, b: nat)
    requires s > 0 && inf > 0 && inf % 2 == 0
    requires IsNearestEven(p, s, v, b)
    ensures b >= inf <==> 2 * v >= MagVal(p, inf - 1) * s + MagVal(p, inf) * s
  {
    hide MagVal, Pow2, Ulp;
    var x, y := MagVal(p, inf - 1) * s, MagVal(p, inf) * s;
    ScaledMono(p, s, inf - 1, inf);
    assert Beats(p, s, v, b, inf - 1) && Beats(p, s, v, b, inf);
    if b >= inf {
      ScaledMono(p, s, inf, b);
    } else {
      ScaledMono(p, s, b, inf - 1);
    }
  }

  lemma RoundedMagCorrect(p: nat, s: nat, inf: nat, v: nat)
    requires s > 0 && inf > 0 && inf % 2 == 0
    ensures RoundsTo(p, s, inf, v, RoundedMag(p, s, inf, v))
  {
    hide MagVal, Ulp, Pow2, RoundBits;
    var b := RoundBits(p, s, v);
    RoundBitsIsNearestEven(p, s, v);
    MulPlus(MagVal(p, inf - 1), MagVal(p, inf), s);
    OverflowThreshold(p, s, inf, v, b);
  }

  lemma RoundsToUnique(p: nat, s: nat, inf: nat, v: nat, b: nat, c: nat)
    requires s > 0 && inf > 0
    requires RoundsTo(p, s, inf, v, b) && RoundsTo(p, s, inf, v, c)
    ensures b == c
  {
    hide Beats;
    if b < inf && c < inf && b != c {
      BracketUnique(p, s, v, if b < c then b else c, if b < c then c else b);
    }
  }
}
