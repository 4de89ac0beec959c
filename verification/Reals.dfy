/** `min`, `max` and averages of floats, which are reals here. */
module Reals {
  function Min(a: real, b: real): real { if a <= b then a else b }

  function Max(a: real, b: real): real { if a >= b then a else b }

  /** `avg` is the average of `n` values that add up to `total`. */
  predicate Averages(avg: real, n: nat, total: real) {
    avg * n as real == total
  }

  lemma QuotientAverages(total: real, n: nat)
    requires n > 0
    ensures Averages(total / n as real, n, total)
  {
  }

  lemma TimesLess(a: real, b: real, d: real)
    requires a < b && 0.0 < d
    ensures a * d < b * d
  {
  }

  lemma SameProduct(a: real, b: real, d: real)
    requires 0.0 < d && a * d == b * d
    ensures a == b
  {
    if a < b { TimesLess(a, b, d); }
    if b < a { TimesLess(b, a, d); }
  }

  lemma AverageUnique(a: real, b: real, n: nat, total: real)
    requires n > 0 && Averages(a, n, total) && Averages(b, n, total)
    ensures a == b
  {
    SameProduct(a, b, n as real);
  }
}
