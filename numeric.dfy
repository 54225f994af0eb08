/** `Math.round` over exact rationals, and `Math.min` and `Math.max` over
    integers. JavaScript rounds a fraction ending in exactly one half towards positive infinity;
    `Round` does the same. */
module Numeric {

  function Round(x: real): (r: int)
    ensures r as real <= x + 0.5 < r as real + 1.0
  {
    (x + 0.5).Floor
  }

  function Min(a: int, b: int): (r: int)
    ensures r <= a && r <= b && (r == a || r == b)
  {
    if a <= b then a else b
  }

  function Max(a: int, b: int): (r: int)
    ensures r >= a && r >= b && (r == a || r == b)
  {
    if a >= b then a else b
  }

  lemma RoundOfInteger(n: int)
    ensures Round(n as real) == n
  {
  }

  lemma RoundMonotone(x: real, y: real)
    requires x <= y
    ensures Round(x) <= Round(y)
  {
  }

  /** Rounding a value in `[lo, hi]` with integer bounds stays in `[lo, hi]`. */
  lemma RoundWithin(x: real, lo: int, hi: int)
    requires lo as real <= x <= hi as real
    ensures lo <= Round(x) <= hi
  {
    RoundMonotone(lo as real, x);
    RoundMonotone(x, hi as real);
    RoundOfInteger(lo);
    RoundOfInteger(hi);
  }

  /** `RoundWithin` under a condition, for use inside expressions. */
  lemma RoundWithinWhen(x: real, lo: int, hi: int, cond: bool)
    requires cond ==> lo as real <= x <= hi as real
    ensures cond ==> lo <= Round(x) <= hi
  {
    if cond {
      RoundWithin(x, lo, hi);
    }
  }

  /** An upper bound on a value bounds its rounding, under a condition. */
  lemma RoundAtMostWhen(x: real, hi: int, cond: bool)
    requires cond ==> x <= hi as real
    ensures cond ==> Round(x) <= hi
  {
    if cond {
      RoundMonotone(x, hi as real);
      RoundOfInteger(hi);
    }
  }
}
