/** Products and quotients of variables, one fact at a time. */
module Arithmetic {
  lemma MulLe(a: nat, b: nat, k: nat)
    requires a <= b
    ensures a * k <= b * k
  {
  }

  lemma MulLt(a: nat, b: nat, k: nat)
    requires a < b && k > 0
    ensures a * k < b * k
  {
  }

  lemma MulPlus(a: int, b: int, k: int)
    ensures (a + b) * k == a * k + b * k
  {
  }

  lemma MulAssoc(a: int, b: int, c: int)
    ensures (a * b) * c == a * (b * c)
  {
  }

  lemma DivBounds(v: nat, s: nat)
    requires s > 0
    ensures v / s >= 0 && (v / s) * s <= v < (v / s) * s + s
  {
  }

  lemma DivBetween(v: nat, s: nat, lo: nat, hi: nat)
    requires s > 0 && lo * s <= v < hi * s
    ensures lo <= v / s < hi
  {
    var n := v / s;
    MulPlus(n, 1, s);
    if n < lo {
      MulLe(n + 1, lo, s);
    }
    if hi <= n {
      MulLe(hi, n, s);
    }
  }

  lemma DivMono(x: nat, y: nat, d: nat)
    requires x <= y && d > 0
    ensures 0 <= x / d <= y / d <= y
  {
    DivBounds(x, d);
    DivBounds(y, d);
    MulLe(1, d, y / d);
    if y / d < x / d {
      MulLe(y / d + 1, x / d, d);
    }
  }
}
