/** Failure-compatible wrappers shared by every simulator module: Rust's
    `Option<T>` and `Result<T, E>`. */
module Wrappers {

  datatype Option<+T> = None | Some(value: T)

  datatype Result<+T, +E> = Ok(value: T) | Err(error: E)

  /** A floating-point value that may be minus infinity, the initial value
      Rust stores for "never spiked" (`f64::NEG_INFINITY`). */
  datatype ExtReal = NegInf | Finite(r: real)
}
