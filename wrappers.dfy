/** Option and Result, the shapes in which the model states JavaScript's
    `null`/`undefined` and its thrown errors. */
module Wrappers {

  /** `None` stands for JavaScript's `null` (or `undefined`). */
  datatype Option<+T> = None | Some(value: T)

  /** `Failure` stands for a thrown error, carrying its message. */
  datatype Result<+R, +E> = Success(value: R) | Failure(error: E)
}
