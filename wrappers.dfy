// Optional values, the .NET exceptions the modelled code raises, and a result type
// that carries either a value or the exception that was thrown instead.
module Wrappers {

  /** A nullable reference: `None` stands for C#'s `null`. */
  datatype Option<T> = None | Some(value: T) {
    predicate IsFailure() { None? }
    function GetOr(default: T): T { if Some? then value else default }
  }

  /** `string.IsNullOrEmpty`. */
  predicate IsNullOrEmpty(s: Option<seq<char>>) { s.None? || s.value == [] }

  /** The exception types raised by the modelled code, by their .NET names. */
  datatype Exception =
    | ArgumentNullException
    | ArgumentException
    | ArgumentOutOfRangeException
    | FormatException
    | InvalidOperationException
    | NotSupportedException
    | InvalidSolutionFileException
    | JsonSerializationException
    | NullReferenceException
    | KeyNotFoundException
    | FileNotFoundException
    | XmlException

  /** The outcome of a call that returns a value or throws. */
  datatype Result<T> = Ok(value: T) | Throws(exception: Exception) {
    predicate IsFailure() { Throws? }
    function PropagateFailure<U>(): Result<U> requires Throws? { Throws(exception) }
    function Extract(): T requires Ok? { value }
  }

  /** The outcome of a call that returns nothing or throws. */
  datatype Outcome = Completed | Raised(exception: Exception)
}
