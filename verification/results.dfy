/** Option and Result: the absent values and the failed transforms of the ledger engine. */
module Results {

  /** A value that may be absent (a missing key, a missing document). */
  datatype Option<+T> = None | Some(value: T)

  /** The outcome of a transform: the new document, or the error it raised. */
  datatype Result<+R, +E> = Success(value: R) | Failure(error: E)
}
