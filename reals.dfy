/** Small facts about real products and quotients that the solver does not
    find on its own. */
module Reals {

  lemma MulNonNegative(x: real, y: real)
    requires x >= 0.0 && y >= 0.0
    ensures x * y >= 0.0
  {
  }

  lemma MulStrict(a: real, b: real, c: real)
    requires a < b && c > 0.0
    ensures a * c < b * c
  {
    assert (b - a) * c > 0.0;
  }

  /** A quotient whose numerator lies between `lo` and `hi` times the
      denominator lies between `lo` and `hi`. */
  lemma DivBounds(num: real, den: real, lo: real, hi: real)
    requires den > 0.0 && lo * den <= num <= hi * den
    ensures lo <= num / den <= hi
  {
    var x := num / den;
    assert x * den == num;
    if x < lo {
      MulStrict(x, lo, den);
    }
    if x > hi {
      MulStrict(hi, x, den);
    }
  }

  lemma DivStrictBounds(num: real, den: real, lo: real, hi: real)
    requires den > 0.0 && lo * den < num < hi * den
    ensures lo < num / den < hi
  {
    var x := num / den;
    assert x * den == num;
    if x <= lo {
      if x < lo {
        MulStrict(x, lo, den);
      }
    }
    if x >= hi {
      if x > hi {
        MulStrict(hi, x, den);
      }
    }
  }

  lemma SumOfQuotients(x: real, y: real, d: real)
    requires d > 0.0 && x + y == d
    ensures x / d + y / d == 1.0
  {
    assert x / d + y / d == (x + y) / d;
  }
}
