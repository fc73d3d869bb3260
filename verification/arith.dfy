/** Integer division facts used when splitting numbers into digits and clock fields. */
module Arith {

  /** A non-zero multiple of a positive `d` is at least `d` away from zero. */
  lemma MulAtLeast(k: int, d: int)
    requires 0 < d && 0 < k
    ensures k * d >= d
  {
    if k > 1 {
      MulAtLeast(k - 1, d);
      assert k * d == (k - 1) * d + d;
    }
  }

  /** Splits `q * d + r` back into `q` and `r`. */
  lemma DivMod(q: int, r: int, d: int)
    requires 0 < d && 0 <= r < d
    ensures (q * d + r) / d == q
    ensures (q * d + r) % d == r
  {
    var n := q * d + r;
    var q', r' := n / d, n % d;
    assert n == q' * d + r';
    assert (q - q') * d == r' - r;
    if q > q' {
      MulAtLeast(q - q', d);
    } else if q < q' {
      MulAtLeast(q' - q, d);
    }
  }
}
