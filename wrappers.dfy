/** Option and Result, used where the scheduler's collaborators may yield nothing or raise. */
module Wrappers {

  datatype Option<+T> = None | Some(value: T)

  /** The outcome of an external call that either returns a value or raises with a message. */
  datatype Result<+R> = Success(value: R) | Failure(message: string)
}
