/** Option and Result values, and the Python exceptions the modelled code raises. */
module Wrappers {

  datatype Option<+T> = None | Some(value: T)

  datatype Result<+T, +E> = Success(value: T) | Failure(error: E)

  /** The exceptions the modelled code can raise or catch. `NoReply` stands for a read
      that never receives a line (the serial read blocks, or a scripted reply list
      runs out). */
  datatype Exception =
    | NoReply
    | ValueError
    | IndexError
    | KeyError
    | TypeError
    | RecursionError
}
