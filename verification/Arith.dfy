/** The few facts about products and quotients with a variable divisor that the money arithmetic needs. */
module Arith {

  lemma MulMono(a: int, b: int, d: int)
    requires a <= b && d >= 0
    ensures a * d <= b * d
  {
  }

  lemma DivBounds(a: int, d: int)
    requires d > 0
    ensures a / d * d <= a < a / d * d + d
  {
  }

  lemma DivMod(a: int, d: int)
    requires d > 0
    ensures a / d * d == a - a % d
  {
  }

  lemma DivUnique(a: int, d: int, q: int)
    requires d > 0 && q * d <= a < q * d + d
    ensures a / d == q
  {
    DivBounds(a, d);
    var p := a / d;
    if p < q {
      MulMono(p + 1, q, d);
    } else if q < p {
      MulMono(q + 1, p, d);
    }
  }

  lemma DivMono(a: int, b: int, d: int)
    requires a <= b && d > 0
    ensures a / d <= b / d
  {
    DivBounds(a, d);
    DivBounds(b, d);
    if b / d < a / d {
      MulMono(b / d + 1, a / d, d);
    }
  }

  /** A quotient rises by one exactly when the next number is a multiple. */
  lemma QuotientSteps(a: int, d: int)
    requires d > 0
    ensures (a + 1) / d == a / d + if (a + 1) % d == 0 then 1 else 0
  {
    DivBounds(a, d);
    DivMod(a + 1, d);
    if a + 1 == (a / d + 1) * d {
      DivUnique(a + 1, d, a / d + 1);
    } else {
      DivUnique(a + 1, d, a / d);
    }
  }

  lemma ModShift(x: int, k: int, d: int)
    requires d > 0
    ensures (x + k * d) % d == x % d && (x + k * d) / d == x / d + k
  {
    DivBounds(x, d);
    DivUnique(x + k * d, d, x / d + k);
  }

  /** A truncated share of a non-negative amount lies between nothing and all of it. */
  lemma ShareBounds(x: int, part: int, whole: int)
    requires x >= 0 && 0 <= part <= whole && whole > 0
    ensures 0 <= x * part / whole <= x
    ensures part == whole ==> x * part / whole == x
  {
    MulMono(0, x, part);
    MulMono(part, whole, x);
    DivUnique(x * whole, whole, x);
    DivUnique(0, whole, 0);
    DivMono(0, x * part, whole);
    DivMono(x * part, x * whole, whole);
  }

  /** `x / d` brackets: between `lo` and `hi` when `x` is between their products. */
  lemma RealDivBracket(x: real, d: real, lo: real, hi: real)
    requires d > 0.0 && lo * d <= x < hi * d
    ensures lo <= x / d < hi
  {
  }
}
