/** Scalar types and the few numeric primitives of Rust that the model needs.
    Floating-point values (f32 and f64) are modelled as mathematical reals. */
module Numeric {

  /** An 8-bit unsigned pixel value (Rust `u8`). */
  newtype byte = x: int | 0 <= x < 256

  /** A half-open range `start .. end` (Rust `std::ops::Range`); only the two
      bounds are used. */
  datatype Range = Range(start: real, end: real)

  /** `std::f64::consts::PI * 2.0`, written as the shortest decimal that rounds to
      that f64 value. It is rational, so it is not the exact period of the sine. */
  const TwoPi: real := 6.283185307179586

  /** Rust's `as usize` on a float, below the top of the usize range:
      values at or below zero saturate to 0, others are truncated toward zero. */
  function AsUsize(x: real): (n: nat)
    ensures x <= 0.0 ==> n == 0
    ensures x >= 0.0 ==> n as real <= x < n as real + 1.0
  {
    if x <= 0.0 then 0 else x.Floor
  }

  /** `f64::abs`. */
  function Abs(x: real): (r: real)
    ensures r >= 0.0
    ensures r == x || r == -x
  {
    if x < 0.0 then -x else x
  }

  /** Multiplying by a non-negative factor keeps the order of integers. */
  lemma MulMonotone(a: int, b: int, w: nat)
    requires a <= b
    ensures a * w <= b * w
  {
    assert b * w - a * w == (b - a) * w;
  }

  /** Multiplying by a non-negative factor keeps the order of reals. */
  lemma MulMonotoneReal(a: real, b: real, c: real)
    requires a <= b && c >= 0.0
    ensures a * c <= b * c
  {
    assert b * c - a * c == (b - a) * c;
  }

  /** `f64::max` on non-NaN operands. */
  function Max(a: real, b: real): (r: real)
    ensures r >= a && r >= b
    ensures r == a || r == b
  {
    if a < b then b else a
  }
}
