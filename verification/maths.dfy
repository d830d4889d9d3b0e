/** The functions of Python's `math` module that the game calls. The model never computes
    them: each operation that needs one receives a `MathLib`, and all it may assume of
    it is `Valid()`. `atan2` is left entirely unconstrained, since the gap test accepts
    any angle. */
module Maths {
  import opened Vectors
  import opened Angles

  datatype MathLib = MathLib(sqrt: real -> real, cos: real -> real, sin: real -> real, atan2: (real, real) -> real)
  {
    ghost predicate Valid() {
      IsSqrt(sqrt) && IsCosSin(cos, sin)
    }
  }

  /** The point `(cos t, sin t)` has length 1. */
  lemma UnitDirection(m: MathLib, t: real)
    requires m.Valid()
    ensures IsLength(Vector2(m.cos(t), m.sin(t)), 1.0)
  {
    assert m.cos(t) * m.cos(t) + m.sin(t) * m.sin(t) == 1.0;
  }
}
