/** Small failure-carrying datatypes shared by the whole model. */
module Wrappers {

  /** Python's `Optional[T]`: a value, or `None`. */
  datatype Option<+T> = None | Some(value: T) {

    /** The value, or `default` when there is none (Python's `x or default` on optionals). */
    function GetOr(default: T): T {
      match this
      case Some(v) => v
      case None => default
    }
  }

  /** Outcome of a store lookup or search: the value, or the not-found signal
      that the HTTP layer turns into a 404 response. */
  datatype Reply<+T> = Found(value: T) | NotFound
}
