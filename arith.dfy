/**
 * Integer helpers: the minimum of two integers, and facts about multiplication
 * and Euclidean division by a variable divisor that the solver does not find
 * unaided.
 */
module Arith {

  function Min(a: int, b: int): int { if a <= b then a else b }

  lemma MulSucc(a: int, k: int)
    ensures (a + 1) * k == a * k + k
  {
  }

  lemma {:induction false} MulMono(a: int, b: int, k: int)
    requires a <= b && k >= 0
    ensures a * k <= b * k
    decreases b - a
  {
    if a < b {
      MulMono(a, b - 1, k);
      MulSucc(b - 1, k);
    }
  }

  /** Quotient and remainder are determined by `x == q * k + r` with `0 <= r < k`. */
  lemma DivModUnique(x: int, k: int, q: int, r: int)
    requires k > 0 && 0 <= r < k && x == q * k + r
    ensures x / k == q && x % k == r
  {
    var d, e := x / k, x % k;
    assert x == d * k + e && 0 <= e < k;
    if d > q {
      MulMono(q + 1, d, k);
      MulSucc(q, k);
      assert false;
    }
    if d < q {
      MulMono(d + 1, q, k);
      MulSucc(d, k);
      assert false;
    }
  }

  /** Taking one divisor off the dividend takes one off the quotient. */
  lemma DivStep(x: int, k: int)
    requires k > 0 && x >= k
    ensures (x - k) / k + 1 == x / k
  {
    var q, r := (x - k) / k, (x - k) % k;
    MulSucc(q, k);
    DivModUnique(x, k, q + 1, r);
  }
}
