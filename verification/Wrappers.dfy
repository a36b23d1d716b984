/** Optional values and the outcome of a transaction that may throw. */
module Wrappers {
  datatype Option<+T> = None | Some(value: T)

  /** A thrown error rolls its transaction back, so a `Failure` carries no state. */
  datatype Result<+R, +E> = Success(value: R) | Failure(error: E)

  function Min(a: int, b: int): int { if a < b then a else b }

  function Max(a: int, b: int): int { if a < b then b else a }
}
