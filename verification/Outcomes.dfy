/** Values that may be absent, and results that may be errors. */
module Outcomes {

  datatype Option<T> = None | Some(value: T)

  datatype Failure =
    Configuration | Transport | InvalidResponse | InvalidToken | InvalidSignature | InvalidState | LocalFailure

  datatype Result<T> = Ok(value: T) | Err(failure: Failure)
}
