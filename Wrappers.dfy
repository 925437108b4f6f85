/** Option and Result, with the exceptions an LGBMBooster call can end in. */
module Wrappers {

  datatype Option<T> = None | Some(value: T)

  /** The exceptions the wrapper lets escape to its caller. */
  datatype Error =
      /** A negative native status, carrying the engine's last-error text. */
    | LGBMException(message: string)
      /** Java's unchecked exception for reading past the end of a managed array. */
    | ArrayIndexOutOfBounds(index: int)

  /** A call either returns a value or throws. */
  datatype Result<T> = Ok(value: T) | Err(error: Error)
}
