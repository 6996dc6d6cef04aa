/** Option and Result datatypes: C# `null` and thrown exceptions are modelled with these. */
module Wrappers {

  /** A value that may be absent; `None` stands for a C# `null`. */
  datatype Option<+T> = None | Some(value: T) {
    function GetOr(default: T): T {
      match this
      case Some(v) => v
      case None => default
    }
  }

  /** The outcome of an operation that may throw; `Failure` carries the exception's message. */
  datatype Result<+T> = Success(value: T) | Failure(error: string)

  /** `String.IsNullOrEmpty`. */
  predicate IsNullOrEmpty(s: Option<string>) {
    s.None? || s.value == ""
  }
}
