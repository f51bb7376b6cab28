/** Optional values and results with an error, standing for TypeScript's
    `T | undefined` / `T | null` and for a promise that resolves or rejects. */
module Wrappers {

  datatype Option<+T> = None | Some(value: T)

  datatype Result<+R, +E> = Success(value: R) | Failure(error: E)
}
