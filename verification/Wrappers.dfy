// Results of operations that may raise, and optional values.
module Wrappers {

  // The exceptions the modelled code can raise.
  datatype Error =
    | StructError        // struct.pack / struct.unpack_from out of range
    | IndexError
    | KeyError
    | TypeError
    | ValueError
    | AttributeError
    | FrameSyntaxError
    | InvalidFrameError

  datatype Option<+T> = None | Some(value: T)

  datatype Result<+T> = Ok(value: T) | Raised(error: Error) {
    predicate IsFailure() {
      Raised?
    }

    function PropagateFailure<U>(): Result<U>
      requires Raised?
    {
      Raised(error)
    }

    function Extract(): T
      requires Ok?
    {
      value
    }
  }
}
