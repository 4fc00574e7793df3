/**
 * Option and Result, and the exceptions the core can raise.
 * A `Result` with `Err` stands for a thrown exception that ends the operation.
 */
module Wrappers {

  datatype Option<+T> = None | Some(value: T) {
    function GetOr(default: T): T {
      match this
      case Some(v) => v
      case None => default
    }
  }

  /** The exceptions the modelled code can raise (Node's fs error codes, Mustache, TypeError). */
  datatype Error =
    | NotFound(path: seq<string>)       // ENOENT
    | NotADirectory(path: seq<string>)  // ENOTDIR / EEXIST: a path component is a regular file
    | IsADirectory(path: seq<string>)   // EISDIR: a file operation hit a directory
    | MissingTemplate(name: string)     // Mustache.render called with an undefined template
    | UnknownCollection(name: string)   // TypeError: reading `folder` of an undefined collection

  datatype Result<+T> = Ok(value: T) | Err(error: Error) {
    predicate IsFailure() {
      Err?
    }

    function PropagateFailure<U>(): Result<U>
      requires Err?
    {
      Err(error)
    }

    function Extract(): T
      requires Ok?
    {
      value
    }
  }
}
