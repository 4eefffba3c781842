/** Types shared by every module: optional values, results with the store's errors, and time. */
module Basics {

  datatype Option<+T> = None | Some(value: T)

  datatype Result<+T, +E> = Ok(value: T) | Err(error: E)

  /** The error values of internal/store/memory.go. */
  datatype StoreError = NotFound | AlreadyExists | InvalidState | ForbiddenState

  /** Nanoseconds; 0 is Go's zero time, the one for which `IsZero` holds. */
  type Time = nat

  /** A reading of the clock, never the zero time. */
  type Instant = t: int | 0 < t witness 1
}
