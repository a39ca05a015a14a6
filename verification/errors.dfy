/**
  The error kinds of the compiler (src/errors.rs) and the result type of its
  fallible operations. Only the kinds are modelled; the display text is not.
 */
module Errors {

  datatype PtError =
    | FileNotFound(path: string)
    | FileReadError
      /** the grammar rejected the input; nom's diagnostic trace is not modelled */
    | ParsingError
      /** the grammar accepted a prefix of the input but not all of it */
    | IncompleteParsing
      /** a type name could not be resolved; carries the name as written */
    | ProtobufTypeNotFound(name: string)

  datatype Result<+T> = Ok(value: T) | Err(error: PtError)
  {
    predicate IsFailure() { Err? }

    function PropagateFailure<U>(): Result<U>
      requires Err?
    {
      Err(error)
    }

    function Extract(): T
      requires Ok?
    {
      value
    }
  }
}
