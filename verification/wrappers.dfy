/** Option and Result wrappers used throughout the model: `Option` stands for
    a Python value that may be `None`, `Result` for a remote call that either
    answers or raises an exception carrying a message. */
module Wrappers {

  datatype Option<+T> = None | Some(value: T) {

    /** The wrapped value, or `default` when there is none
        (the shape of Python's `dict.get(key, default)`). */
    function GetOr(default: T): T {
      match this
      case Some(v) => v
      case None => default
    }
  }

  datatype Result<+T, +E> = Success(value: T) | Failure(error: E)
}
