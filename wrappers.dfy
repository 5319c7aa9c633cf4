/** Option and Result wrappers used for absent values and for the errors the library throws. */
module Wrappers {

  datatype Option<+T> = None | Some(value: T)

  /** The library signals every failure by throwing an `Error` with a message; `Err` carries that message. */
  datatype Result<+R> = Ok(value: R) | Err(msg: string)

  /** Outcome of an operation that only changes state: `Fail` is a thrown error. */
  datatype Outcome = Pass | Fail(msg: string)
}
