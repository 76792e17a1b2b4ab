/** Failure-compatible wrappers shared by every module of the model. */
module Basics {

  /** A value that JavaScript may leave `undefined`. */
  datatype Option<+T> = None | Some(value: T)

  /** The outcome of an operation of the source that may throw a JavaScript
      exception (a TypeError from reading a property of `undefined`, say). */
  datatype Result<+T> = Ok(value: T) | Thrown(reason: string) {

    predicate IsFailure() {
      Thrown?
    }

    function PropagateFailure<U>(): Result<U>
      requires Thrown?
    {
      Thrown(reason)
    }

    function Extract(): T
      requires Ok?
    {
      value
    }
  }

  /** How a template literal renders a value that may be `undefined`. */
  function Render(s: Option<string>): string {
    match s
    case None => "undefined"
    case Some(v) => v
  }
}
