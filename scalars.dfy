/**
 * The scalar type shared by every component. The library is generic over a
 * numeric type T; this model fixes T to exact real arithmetic, so rounding and
 * infinities do not arise. `Epsilon` stands for std::numeric_limits<T>::epsilon()
 * (the value of the float instantiation); the proofs only use that it is positive.
 */
module Scalars {

  /** numeric_limits<float>::epsilon(), 2^-23. */
  const Epsilon: real := 1.0 / 8388608.0

  /** std::abs */
  function Abs(a: real): (r: real)
    ensures r >= 0.0
    ensures r == a || r == -a
  {
    if a < 0.0 then -a else a
  }

  /** std::min(a, b): returns a unless b < a. */
  function Min(a: real, b: real): (r: real)
    ensures r <= a && r <= b
    ensures r == a || r == b
  {
    if b < a then b else a
  }

  /** std::max(a, b): returns a unless a < b. */
  function Max(a: real, b: real): (r: real)
    ensures r >= a && r >= b
    ensures r == a || r == b
  {
    if a < b then b else a
  }

  /** Sign of a product of two positive reals. */
  lemma MulPos(u: real, v: real)
    requires u > 0.0 && v > 0.0
    ensures u * v > 0.0
  {
  }

  /** Squaring is monotonic on non-negative reals. */
  lemma SquareBelow(a: real, b: real)
    requires a >= 0.0 && b >= 0.0
    ensures a < b ==> a * a < b * b
    ensures b <= a ==> b * b <= a * a
  {
    if a < b {
      MulPos(b - a, b + a);
      assert (b - a) * (b + a) == b * b - a * a;
    } else if a > b {
      MulPos(a - b, a + b);
      assert (a - b) * (a + b) == a * a - b * b;
    }
  }

  /** The exception types the library throws. */
  datatype Error =
    | OutOfRange       // std::out_of_range: component index outside the vector
    | InvalidArgument  // std::invalid_argument: division by a scalar below epsilon
    | DomainError      // std::domain_error: normalising a zero-length vector
    | RuntimeError     // std::runtime_error: zero quaternion, singular matrix

  /** A value, or the exception that the operation throws instead. */
  datatype Result<T> = Ok(value: T) | Err(error: Error)

  /** Completion of an operation that returns nothing (or `*this`), or its exception. */
  datatype Outcome = Pass | Fail(error: Error)
}
