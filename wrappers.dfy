/** Failure-compatible wrappers shared by every module of the model.

    The Java source signals errors by throwing; each thrown exception class the core
    can reach is one `Failure` constructor, and an operation that may throw returns a
    `Result` (or an `Outcome` when it has no value). */
module Wrappers {

  datatype Option<+T> = None | Some(value: T)

  /** The exception classes the modelled core throws (or provokes). */
  datatype Failure =
    | CausticException      // checked error of the toolkit (duplicate machine index, missing name/file)
    | CausticError          // unchecked error of the toolkit (unknown machine)
    | IllegalState          // java.lang.IllegalStateException
    | IllegalArgument       // java.lang.IllegalArgumentException
    | NullPointer           // a dereference of a missing map entry
    | IndexOutOfBounds      // java.util.List.subList / get outside the list

  datatype Result<+T> = Ok(value: T) | Err(failure: Failure) {
    predicate IsFailure() { Err? }
    function PropagateFailure<U>(): Result<U>
      requires Err?
    {
      Err(failure)
    }
    function Extract(): T
      requires Ok?
    {
      value
    }
  }

  datatype Outcome = Pass | Fail(failure: Failure)
}
