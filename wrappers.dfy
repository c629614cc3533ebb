/** Small value wrappers shared by the model. */
module Wrappers {

  /** A value that may be absent: TypeScript's `T | null` (and `undefined`, which the page treats alike). */
  datatype Option<T> = None | Some(value: T) {

    /** The `??` operator: the value, or `default` when absent. */
    function OrElse(default: T): (r: T)
      ensures Some? ==> r == value
      ensures None? ==> r == default
    {
      match this
      case Some(v) => v
      case None => default
    }
  }

  /** The outcome of one call to the room server: the parsed body of a 2xx reply, or a failure
      (a network error or a non-2xx status, which the page does not tell apart). */
  datatype Response<T> = Ok(body: T) | Fail
}
