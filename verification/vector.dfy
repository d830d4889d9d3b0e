/** The 2D vector value type shared by every entity of the game (src/utils/vector.py).
    Every operation returns a fresh value; nothing is updated in place.
    `length()` takes a square root. The model never computes one: `Length` is given a
    square-root function `sqrt` as a parameter, and all it knows of `sqrt` is `IsSqrt`,
    that it returns the non-negative root of a non-negative number. */
module Vectors {

  datatype Vector2 = Vector2(x: real, y: real)

  const Zero: Vector2 := Vector2(0.0, 0.0)

  /** `a + b` */
  function Add(a: Vector2, b: Vector2): Vector2 {
    Vector2(a.x + b.x, a.y + b.y)
  }

  /** `a - b` */
  function Sub(a: Vector2, b: Vector2): Vector2 {
    Vector2(a.x - b.x, a.y - b.y)
  }

  /** `a * k` for a scalar k */
  function Scale(a: Vector2, k: real): Vector2 {
    Vector2(a.x * k, a.y * k)
  }

  function Dot(a: Vector2, b: Vector2): real {
    a.x * b.x + a.y * b.y
  }

  /** The radicand of `length()`. */
  function LengthSq(a: Vector2): real {
    a.x * a.x + a.y * a.y
  }

  /** `len` is the non-negative square root of x*x + y*y. */
  predicate IsLength(v: Vector2, len: real) {
    len >= 0.0 && len * len == LengthSq(v)
  }

  /** What `math.sqrt` promises on the non-negative reals. */
  ghost predicate IsSqrt(sqrt: real -> real) {
    forall x: real :: 0.0 <= x ==> 0.0 <= sqrt(x) && sqrt(x) * sqrt(x) == x
  }

  /** `v.length()` */
  function Length(v: Vector2, sqrt: real -> real): (r: real)
    requires IsSqrt(sqrt)
    ensures IsLength(v, r)
    ensures r == 0.0 <==> v == Zero
  {
    LengthSqNonNegative(v);
    var r := sqrt(LengthSq(v));
    LengthZeroIff(v, r);
    r
  }

  /** `v.normalize()`: the zero vector is returned unchanged, so there is never a
      division by zero; any other vector becomes the vector of length 1 that is a
      positive multiple of it. */
  function Normalize(v: Vector2, sqrt: real -> real): (r: Vector2)
    requires IsSqrt(sqrt)
    ensures v == Zero ==> r == Zero
    ensures v != Zero ==> IsLength(r, 1.0)
  {
    var len := Length(v, sqrt);
    if len == 0.0 then Zero
    else
      NormalizeIsUnitMultiple(v, len);
      Vector2(v.x / len, v.y / len)
  }

  /** Subtraction undoes addition. */
  lemma SubUndoesAdd(a: Vector2, b: Vector2)
    ensures Sub(Add(a, b), b) == a
  {
  }

  lemma MulPositive(a: real, b: real)
    requires a > 0.0 && b > 0.0
    ensures a * b > 0.0
  {
  }

  lemma MulNonNegative(a: real, b: real)
    requires a >= 0.0 && b >= 0.0
    ensures a * b >= 0.0
  {
  }

  /** The identity on reals. Writing a square as `t * Same(t)` keeps the solver's
      nonlinear arithmetic from treating it as a power, which it handles poorly in
      inequalities. */
  function Same(t: real): real { t }

  lemma SumOfSquaresNonNegative(a: real, b: real)
    ensures a * Same(a) + b * Same(b) >= 0.0
  {
  }

  lemma LengthSqNonNegative(v: Vector2)
    ensures LengthSq(v) >= 0.0
  {
    assert Same(v.x) == v.x && Same(v.y) == v.y;
    SumOfSquaresNonNegative(v.x, v.y);
  }

  /** A non-negative root of a positive sum of squares is positive. */
  lemma RootOfNonZeroIsPositive(a: real, b: real, len: real)
    requires len >= 0.0 && len * Same(len) == a * Same(a) + b * Same(b)
    requires a != 0.0 || b != 0.0
    ensures len > 0.0
  {
  }

  /** A nonzero vector has a positive length. */
  lemma NonZeroHasPositiveLength(v: Vector2, len: real)
    requires IsLength(v, len) && v != Zero
    ensures len > 0.0
  {
    assert Same(len) == len && Same(v.x) == v.x && Same(v.y) == v.y;
    RootOfNonZeroIsPositive(v.x, v.y, len);
  }

  /** The zero vector has length zero. */
  lemma ZeroVectorHasZeroLength(len: real)
    requires IsLength(Zero, len)
    ensures len == 0.0
  {
    LengthUnique(Zero, len, 0.0);
  }

  /** A length is zero exactly when both components are zero. */
  lemma LengthZeroIff(v: Vector2, len: real)
    requires IsLength(v, len)
    ensures len == 0.0 <==> v == Zero
  {
    if v == Zero {
      ZeroVectorHasZeroLength(len);
    } else {
      NonZeroHasPositiveLength(v, len);
    }
  }

  /** Scaling by k multiplies the squared length by k*k. */
  lemma ScaleLengthSq(a: Vector2, k: real)
    ensures LengthSq(Scale(a, k)) == k * k * LengthSq(a)
  {
    calc {
      LengthSq(Scale(a, k));
      (a.x * k) * (a.x * k) + (a.y * k) * (a.y * k);
      k * k * (a.x * a.x) + k * k * (a.y * a.y);
      k * k * LengthSq(a);
    }
  }

  /** For a nonzero length, the division is a scaling by the positive factor 1/len,
      and the result has length 1. */
  lemma NormalizeIsUnitMultiple(v: Vector2, len: real)
    requires IsLength(v, len) && len != 0.0
    ensures 1.0 / len > 0.0
    ensures Vector2(v.x / len, v.y / len) == Scale(v, 1.0 / len)
    ensures IsLength(Scale(v, 1.0 / len), 1.0)
  {
    var k := 1.0 / len;
    assert len > 0.0;
    assert v.x / len == v.x * k && v.y / len == v.y * k;
    ScaleLengthSq(v, k);
    assert k * len == 1.0;
    calc {
      k * k * LengthSq(v);
      k * k * (len * len);
      (k * len) * (k * len);
      1.0;
    }
  }

  /** `v.normalize()` of a nonzero vector points the same way as v. */
  lemma NormalizeIsPositiveMultiple(v: Vector2, sqrt: real -> real)
    requires IsSqrt(sqrt)
    ensures v != Zero ==> exists k: real :: k > 0.0 && Normalize(v, sqrt) == Scale(v, k)
  {
    if v != Zero {
      var len := Length(v, sqrt);
      NormalizeIsUnitMultiple(v, len);
      assert Normalize(v, sqrt) == Scale(v, 1.0 / len);
    }
  }

  /** Scaling a unit vector by k >= 0 gives a vector of length k. */
  lemma ScaledUnitLength(u: Vector2, k: real)
    requires IsLength(u, 1.0) && k >= 0.0
    ensures IsLength(Scale(u, k), k)
  {
    ScaleLengthSq(u, k);
  }

  /** `v.normalize() * k` is the zero vector when v is. */
  lemma ScaledNormalOfZero(sqrt: real -> real, k: real)
    requires IsSqrt(sqrt)
    ensures Scale(Normalize(Zero, sqrt), k) == Zero
  {
    ScaleOfZero(k);
  }

  lemma ScaleOfZero(k: real)
    ensures Scale(Zero, k) == Zero
  {
  }

  /** `v.normalize() * k`, for a nonzero v and k >= 0, has length k. */
  lemma ScaledNormalLength(v: Vector2, sqrt: real -> real, k: real)
    requires IsSqrt(sqrt) && v != Zero && k >= 0.0
    ensures IsLength(Scale(Normalize(v, sqrt), k), k)
  {
    ScaledUnitLength(Normalize(v, sqrt), k);
  }

  /** Squaring is strictly increasing on the non-negative reals. */
  lemma SquareIncreasing(a: real, b: real)
    requires 0.0 <= b < a
    ensures b * b < a * a
  {
    MulPositive(a - b, a + b);
    assert (a - b) * (a + b) == a * a - b * b;
  }

  /** Two non-negative square roots of the same value coincide. */
  lemma LengthUnique(v: Vector2, a: real, b: real)
    requires IsLength(v, a) && IsLength(v, b)
    ensures a == b
  {
    if a > b {
      SquareIncreasing(a, b);
    } else if a < b {
      SquareIncreasing(b, a);
    }
  }
}
