/**
 * Option and Result, and the Python exceptions the solver stages raise or
 * catches, as values.
 */
module Wrappers {

  datatype Option<+T> = None | Some(value: T)

  /** The exception kinds that can leave, or are caught inside, the core. */
  datatype Fault =
    | TypeError
    | ValueError(message: string)
    | AttributeError
    | FileNotFoundError
    | RuntimeError(message: string)
    | TimeoutError(message: string)

  /** The outcome of a call that may raise. */
  datatype Result<+T> = Ok(value: T) | Err(error: Fault)
}
