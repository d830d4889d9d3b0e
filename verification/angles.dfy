/** Angles in radians and Python's float `%` by 2π, which the ring's gap test uses
    (src/entities/ring.py:36). */
module Angles {

  /** `math.pi` */
  const Pi: real := 3.141592653589793
  const TwoPi: real := 2.0 * Pi

  /** How many whole turns of 2π fit below `a` (Python's floor division `a // 2π`). */
  function Turns(a: real): int {
    (a / TwoPi).Floor
  }

  /** `a % (2 * math.pi)`: Python's `%` takes the sign of the divisor, so the result
      lies in [0, 2π) and differs from `a` by a whole number of turns. */
  function Wrap(a: real): (r: real)
    ensures 0.0 <= r < TwoPi
    ensures a == r + (Turns(a) as real) * TwoPi
  {
    a - (Turns(a) as real) * TwoPi
  }

  /** Any representation of `a` as a value in [0, 2π) plus whole turns is the one `Wrap`
      finds. */
  lemma WrapUnique(a: real, r: real, k: int)
    requires 0.0 <= r < TwoPi && a == r + (k as real) * TwoPi
    ensures Wrap(a) == r
  {
    assert a / TwoPi == r / TwoPi + k as real;
    assert 0.0 <= r / TwoPi < 1.0;
    assert Turns(a) == k;
  }

  /** Adding whole turns does not change the wrapped angle. */
  lemma WrapShift(a: real, k: int)
    ensures Wrap(a + (k as real) * TwoPi) == Wrap(a)
  {
    WrapUnique(a + (k as real) * TwoPi, Wrap(a), Turns(a) + k);
  }

  /** An angle already in [0, 2π) is its own wrap. */
  lemma WrapInRange(a: real)
    requires 0.0 <= a < TwoPi
    ensures Wrap(a) == a
  {
    WrapUnique(a, a, 0);
  }

  /** `c` and `s` are the cosine and sine of the same angles, as far as the model needs:
      they lie on the unit circle. */
  ghost predicate IsCosSin(cos: real -> real, sin: real -> real) {
    forall t: real :: cos(t) * cos(t) + sin(t) * sin(t) == 1.0
  }
}
