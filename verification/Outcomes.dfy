/** Result types shared by the lexer, the parser and the stream decoders. */
module Outcomes {

  datatype Option<+T> = None | Some(value: T)

  /** `Err` is an error the Go code returns; `Crash` is its index-out-of-range panic. */
  datatype Result<+T> = Ok(value: T) | Err | Crash {

    predicate IsFailure() {
      !Ok?
    }

    function PropagateFailure<U>(): Result<U>
      requires IsFailure()
    {
      if Err? then Err else Crash
    }

    function Extract(): T
      requires Ok?
    {
      value
    }
  }
}
