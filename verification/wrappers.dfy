/** Failure-compatible wrappers shared by the whole model.

    The library throws .NET exceptions on its error paths; each one becomes a
    `Failure` carrying the exception kind, so every operation is a total
    function returning a `Result`. */
module Wrappers {

  /** An optional value; `None` stands for a C# `null` reference. */
  datatype Option<+T> = None | Some(value: T)

  /** The .NET exception kinds the modelled code can raise. */
  datatype Fault =
    | JsonException
    | ArgumentException
    | ArgumentNullException
    | ArgumentOutOfRangeException
    | InvalidOperationException
    | NotImplementedException
    | KeyNotFoundException
    | NullReferenceException

  /** Either a value or the exception that was raised instead. */
  datatype Result<+T> = Success(value: T) | Failure(error: Fault) {

    predicate IsFailure() {
      Failure?
    }

    function PropagateFailure<U>(): Result<U>
      requires Failure?
    {
      Failure(error)
    }

    function Extract(): T
      requires Success?
    {
      value
    }
  }

  /** The value of an optional sequence, with `null` read as the empty sequence
      (the `value ?? Enumerable.Empty<T>()` idiom). */
  function OrEmpty<T>(xs: Option<seq<T>>): seq<T>
  {
    match xs
    case Some(v) => v
    case None => []
  }
}
