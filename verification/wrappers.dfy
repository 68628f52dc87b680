/** Optional values and fallible results, used for the lookups and store
    reads whose failure the tracker has to handle. */
module Wrappers {

  /** A value that may be missing: a map lookup, a channel a member is not in,
      a user the directory cannot resolve. */
  datatype Option<+T> = None | Some(value: T)

  /** The outcome of a call into the store: rows, or the error it reported. */
  datatype Result<+R, +E> = Success(value: R) | Failure(error: E)
}
