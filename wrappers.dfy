/** Option and Result: how the model spells JavaScript's `undefined` results and the
    controller's early returns. */
module Wrappers {

  /** `None` stands for JavaScript's `undefined` (a lookup that found nothing). */
  datatype Option<+T> = None | Some(value: T)

  /** A value, or the reason it could not be produced. */
  datatype Result<+R, +E> = Success(value: R) | Failure(error: E)
}
