/** The parts of JavaScript's `Math` object the dashboard uses, on integers. */
module JsMath {

  /** `Math.min(a, b)`. */
  function Min(a: int, b: int): (m: int)
    ensures m <= a && m <= b
    ensures m == a || m == b
  {
    if a <= b then a else b
  }

  /** `Math.max(a, b)`. */
  function Max(a: int, b: int): (m: int)
    ensures m >= a && m >= b
    ensures m == a || m == b
  {
    if a >= b then a else b
  }

  /** `Math.round((part / whole) * 100)` for a non-negative ratio, computed
      exactly: `Math.round` rounds half-way cases up, so the result is
      floor(100 * part / whole + 1/2). The contract states the rounding
      without the formula: the percentage is the one integer whose
      half-open interval [p - 1/2, p + 1/2) holds 100 * part / whole. */
  function RoundPercent(part: nat, whole: nat): (p: nat)
    requires whole > 0
    ensures whole * (2 * p - 1) <= 200 * part < whole * (2 * p + 1)
    ensures part <= whole ==> p <= 100
  {
    var q := (200 * part + whole) / (2 * whole);
    RoundQuotient(part, whole, q);
    q
  }

  /** The quotient behind `RoundPercent` lies in the rounding interval. */
  lemma RoundQuotient(part: nat, whole: nat, q: int)
    requires whole > 0
    requires q == (200 * part + whole) / (2 * whole)
    ensures q >= 0
    ensures whole * (2 * q - 1) <= 200 * part < whole * (2 * q + 1)
    ensures part <= whole ==> q <= 100
  {
    var num := 200 * part + whole;
    var den := 2 * whole;
    var r := num % den;
    assert num == den * q + r && 0 <= r < den;
    assert den * q == 2 * (whole * q);
    assert whole * (2 * q - 1) == 2 * (whole * q) - whole;
    assert whole * (2 * q + 1) == 2 * (whole * q) + whole;
    if q < 0 {
      MulMono(whole, q, -1);
      assert false;
    }
    if part <= whole && q > 100 {
      MulMono(whole, 101, q);
      assert false;
    }
  }

  /** Multiplying by a positive factor keeps the order. */
  lemma MulMono(w: int, a: int, b: int)
    requires w > 0 && a <= b
    ensures w * a <= w * b
  {
  }

  /** The rounding of `RoundPercent` picks exactly one integer: any `k` that
      satisfies the same half-open interval condition is the result. */
  lemma RoundPercentUnique(part: nat, whole: nat, k: int)
    requires whole > 0
    requires whole * (2 * k - 1) <= 200 * part < whole * (2 * k + 1)
    ensures RoundPercent(part, whole) == k
  {
    IntervalUnique(part, whole, k, RoundPercent(part, whole));
  }

  /** Two integers in the same rounding interval are equal. */
  lemma IntervalUnique(part: int, whole: int, k: int, p: int)
    requires whole > 0
    requires whole * (2 * k - 1) <= 200 * part < whole * (2 * k + 1)
    requires whole * (2 * p - 1) <= 200 * part < whole * (2 * p + 1)
    ensures k == p
  {
    if k < p {
      MulMono(whole, 2 * k + 1, 2 * p - 1);
      assert false;
    } else if k > p {
      MulMono(whole, 2 * p + 1, 2 * k - 1);
      assert false;
    }
  }
}
