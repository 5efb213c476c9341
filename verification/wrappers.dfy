/** Failure-compatible wrappers used across the model: `Option` for empty
    spreadsheet cells and missing values, `Result` for the exceptions the
    Python code raises. */
module Wrappers {

  datatype Option<+T> = None | Some(value: T)

  datatype Result<+R, +E> = Success(value: R) | Failure(error: E)

  /** Python's `x or ""` on an optional string: a missing value becomes the
      empty string. */
  function OrEmpty(s: Option<string>): string
  {
    match s
    case Some(v) => v
    case None => ""
  }
}
