/** Option and Result, shared by every module of the model. */
module Wrappers {

  /** A value that may be absent: a JavaScript `undefined`, a failed lookup or parse. */
  datatype Option<+T> = None | Some(value: T)

  /** The outcome of an operation that may throw: `Failure` carries the error message. */
  datatype Result<+T> = Success(value: T) | Failure(error: string)

  /** JavaScript's `x || d` on an optional number: a missing value or 0 gives the default. */
  function OrDefault(x: Option<int>, d: int): (r: int)
    ensures x.Some? && x.value != 0 ==> r == x.value
    ensures x.None? || x.value == 0 ==> r == d
  {
    if x.None? || x.value == 0 then d else x.value
  }
}
