/** Optional values and results with an error, standing for JavaScript's
    `undefined`/`null` and for a thrown `Error`. */
module Wrappers {

  datatype Option<+T> = None | Some(value: T)

  /** `Failure(message)` stands for `throw new Error(message)`. */
  datatype Result<+T> = Success(value: T) | Failure(error: string)
}
