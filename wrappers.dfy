/** Shared wrapper datatypes used by every module of the model. */
module Wrappers {

  /** An optional value: a JavaScript `undefined` is `None`. */
  datatype Option<+T> = None | Some(value: T)

  /** A value or an error. */
  datatype Result<+T, +E> = Ok(value: T) | Err(error: E)

  /** The outcome of a call into an external service: its reply, or the
      exception it raised (a rejected promise). */
  datatype Reply<+T> = Returned(value: T) | Raised(message: string)
}
