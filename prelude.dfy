/** Shared vocabulary: an optional value and the real-number helpers of
    Rust's f32 that the model uses (abs, min). */
module Prelude {

  /** Rust's Option. */
  datatype Option<T> = None | Some(value: T)

  /** f32::abs */
  function Abs(x: real): (r: real)
    ensures r >= 0.0
    ensures r == x || r == -x
  {
    if x < 0.0 then -x else x
  }

  /** f32::min (either argument when they are equal) */
  function MinReal(a: real, b: real): (r: real)
    ensures r <= a && r <= b
    ensures r == a || r == b
  {
    if a <= b then a else b
  }
}
