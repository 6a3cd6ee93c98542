/** Optional values and success-or-error results, standing in for `None` and the exceptions the tools raise. */
module Wrappers {

  datatype Option<+T> = None | Some(value: T)

  /** Pass, or the error a call raised. */
  datatype Outcome<+E> = Pass | Fail(error: E)

  /** A value, or the error raised instead of returning it. */
  datatype Result<+R, +E> = Ok(value: R) | Err(error: E)
}
