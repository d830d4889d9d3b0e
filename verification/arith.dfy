/** Integer facts the sequencers need: Euclidean division and remainder, and monotone
    multiplication. */
module Arithmetic {

  lemma MulAtLeast(d: int, n: int)
    requires d >= 1 && n > 0
    ensures d * n >= n
  {
  }

  lemma MulMonotone(a: nat, b: nat, c: nat)
    requires a <= b
    ensures a * c <= b * c
  {
  }

  /** Quotient and remainder are the only ones with 0 <= r < n. */
  lemma DivModUnique(x: int, n: int, q: int, r: int)
    requires n > 0 && 0 <= r < n && x == q * n + r
    ensures x % n == r && x / n == q
  {
    var q0 := x / n;
    var r0 := x % n;
    assert x == q0 * n + r0;
    assert (q - q0) * n == r0 - r;
    if q > q0 {
      MulAtLeast(q - q0, n);
    } else if q < q0 {
      MulAtLeast(q0 - q, n);
    }
  }

  /** Reducing before adding does not change the remainder. */
  lemma ModShift(a: int, k: int, n: int)
    requires n > 0
    ensures (a % n + k) % n == (a + k) % n
  {
    var r := (a + k) % n;
    var q := (a + k) / n;
    assert a + k == q * n + r;
    assert a == (a / n) * n + a % n;
    DivModUnique(a % n + k, n, q - a / n, r);
  }

  /** Whole multiples of s up to t: (t / s) * s is at most t and within s of it. */
  lemma DivBounds(t: nat, s: nat)
    requires s > 0
    ensures (t / s) * s <= t < (t / s) * s + s
  {
    DivModUnique(t, s, t / s, t % s);
  }
}
