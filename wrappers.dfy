/** Option and Result, and the errors the system returns. */
module Wrappers {

  datatype Option<+T> = None | Some(value: T)

  /** A Go `(value, error)` pair where the value is meaningless whenever the error is set. */
  datatype Result<+T> = Success(value: T) | Failure(error: Error)

  /** SQLite result codes used by the virtual tables. */
  const SQLITE_ERROR: int := 1
  const SQLITE_CONSTRAINT: int := 19

  datatype Error =
    | Sqlite(code: int, message: string)    // sqlite.Error(code, message)
    | Fail(message: string)                 // errors.New, or an error from a collaborator outside the model
    | Wrapped(context: string, cause: Error) // errors.Wrap(cause, context)
    | Panic(reason: string)                 // a Go run-time panic (nil dereference, slice out of range)
  {
    /** The text `err.Error()` gives. */
    function Text(): string {
      match this
      case Sqlite(_, m) => m
      case Fail(m) => m
      case Wrapped(c, e) => c + ": " + e.Text()
      case Panic(m) => "panic: " + m
    }
  }
}
