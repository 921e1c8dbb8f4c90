/** Result shapes shared by the model: an optional value, and the outcome of a
    call into a collaborator that may raise. */
module Wrappers {

  /** A value that may be absent (Python's `None`). */
  datatype Option<+T> = None | Some(value: T)

  /** The outcome of a call that either returns a value or raises; `message`
      stands for `str(exc)` of the raised exception. */
  datatype CallResult<+T> = Ok(value: T) | Err(message: string)

  function Min(a: int, b: int): int
  {
    if a <= b then a else b
  }
}
