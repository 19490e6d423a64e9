/** Optional values and failures shared by every module of the model. */
module Wrappers {

  /** A PHP value that may be `null`. */
  datatype Option<+T> = None | Some(value: T)

  /** The outcome of a PHP routine that may end in an exception or error. */
  datatype Result<+R, +E> = Success(value: R) | Failure(error: E)

  /**
   * What stops a run: the error raised by calling a method nobody defines, or
   * the exception Laravel raises from PHP's warning when a variable nothing
   * has written is read.
   */
  datatype Crash = UndefinedMethod(name: string) | UndefinedVariable(name: string)
}
