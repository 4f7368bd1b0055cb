/** Option and Result values, standing in for `undefined`/`null` and for
    promises that resolve with a value or reject with an `Error`. */
module Wrappers {

  datatype Option<+T> = None | Some(value: T)

  /** A settled promise: `Ok` when it resolves, `Err` carrying the error's
      `message` when it rejects. */
  datatype Result<+T> = Ok(value: T) | Err(message: string)

  /** The single value a resolved `Thenable<void>` carries. */
  datatype Unit = Unit
}
