/** Failure-compatible wrappers shared by every module of the model. */
module Wrappers {

  /** An optional value; `None` stands for Go's nil or "not found". */
  datatype Option<+T> = None | Some(value: T)

  /** A value or an error, for Go's `(T, error)` return pairs. */
  datatype Result<+T, +E> = Success(value: T) | Failure(error: E)

  /**
   * What a finished external command hands back.  `stdout` is the captured
   * standard output (or the combined output for `CombinedOutput` calls),
   * `stderr` the captured standard error when the caller captures it, and
   * `err` the text of the error `Run`/`Output` returned, if any.
   */
  datatype Exit = Exit(stdout: string, stderr: string, err: Option<string>)

  /** An `http.Error` reply: status code and message. */
  datatype HttpError = HttpError(status: int, message: string)
}
