/** Small value types shared by the modules of this model: optional values,
    success-or-error results, a byte type and the JSON values a request body
    or a token payload can carry. */
module Basics {

  /** A value that may be missing (`undefined` / `null` in the source). */
  datatype Option<+T> = None | Some(value: T)

  /** The outcome of an operation that can throw: the value, or the error message. */
  datatype Result<+T> = Success(value: T) | Failure(error: string)

  /** One byte of a Node `Buffer`. */
  type byte = x: int | 0 <= x < 256

  /** A JSON value as JavaScript sees it after `JSON.parse`; `Undefined` is a
      key that is not present at all. Arrays and objects are not inspected by
      any code modelled here, so they are one constructor. */
  datatype Json =
    | Undefined
    | Null
    | Bool(b: bool)
    | Num(n: real)
    | Str(s: string)
    | Structured
}
