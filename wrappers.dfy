/** Failure-compatible wrappers: Rust's `Option<T>` and the `Result<T, ()>` every parser returns. */
module Wrappers {

  /** `Option<T>`; `None` propagates through `:-` like Rust's `?`. */
  datatype Option<+T> = None | Some(value: T) {

    predicate IsFailure() {
      None?
    }

    function PropagateFailure<U>(): Option<U>
      requires None?
    {
      None
    }

    function Extract(): T
      requires Some?
    {
      value
    }

    /** Rust's `Option::ok_or(())`. */
    function OkOr(): Result<T> {
      match this
      case Some(v) => Ok(v)
      case None => Err
    }
  }

  /** `Result<T, ()>`: the error carries no diagnostic payload. */
  datatype Result<+T> = Ok(value: T) | Err {

    predicate IsFailure() {
      Err?
    }

    function PropagateFailure<U>(): Result<U>
      requires Err?
    {
      Err
    }

    function Extract(): T
      requires Ok?
    {
      value
    }
  }
}
