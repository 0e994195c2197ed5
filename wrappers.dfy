/** Option and Result types, and the exceptions the generator raises, as values. */
module Wrappers {

  datatype Option<+T> = None | Some(value: T)

  /** The Python exception classes that the modelled code raises or lets escape. */
  datatype Error =
    | KeyError(key: string)
    | IndexError
    | ZeroDivisionError
    | ValueError(reason: string)
    | TypeError(reason: string)
    | AttributeError(name: string)
    | NotImplemented(what: string)
    | TemplateReadingError(reason: string)
    | NoMessagesForSelection
    | NoTemplateForMessage
    | PlanningFailed
    | ComponentNameCollision(name: string)
    | UnknownComponent(name: string)
    | AssertionFailed
    | LoopsForever
    | NameError(name: string)
    | Exception(message: string)

  datatype Result<+T> = Ok(value: T) | Err(error: Error) {
    predicate IsFailure() { Err? }

    function PropagateFailure<U>(): Result<U>
      requires Err?
    {
      Err(error)
    }

    function Extract(): T
      requires Ok?
    {
      value
    }
  }

  // ---------------------------------------------------------------- messages of built-in errors

  function TimestampNotText(): Error {
    TypeError("timestamp type")
  }

  function NaNToInt(): Error {
    ValueError("NaN to int")
  }

  function BadUnpack(): Error {
    ValueError("unpack")
  }

  function NotAnInt(s: string): Error {
    ValueError("invalid literal for int(): '" + s + "'")
  }
}
