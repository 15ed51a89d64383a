/** Option and Result values: the model's stand-ins for JavaScript's
    `undefined` attribute values and for thrown errors. */
module Wrappers {

  datatype Option<+T> = None | Some(value: T)

  /** `Failure(message)` stands for `throw new Error(message)`. */
  datatype Result<+T> = Success(value: T) | Failure(error: string)
}
