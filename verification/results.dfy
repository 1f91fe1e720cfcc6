/** Optional values and value-or-error results, shared by the store and the bank. */
module Results {

  /** A value that may be missing: what a balance parser returns. */
  datatype Option<+T> = None | Some(value: T)

  /** A value or an error: what the checking phase of a transfer returns. */
  datatype Result<+T, +E> = Success(value: T) | Failure(error: E)
}
