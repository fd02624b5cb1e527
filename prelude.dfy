/** Shared vocabulary of the root-finding library: Rust's Option and
    Result (errors are the library's message strings), f64::abs and
    f64::EPSILON, all over mathematical reals. */
module Prelude {

  datatype Option<+T> = None | Some(value: T)

  datatype Result<+T> = Ok(value: T) | Err(error: string)

  function Abs(x: real): real {
    if x < 0.0 then -x else x
  }

  /** f64::EPSILON, the gap between 1.0 and the next double: exactly 2^-52. */
  const EPS: real := 1.0 / 4503599627370496.0
}
