/** Option and Result: the "None" returns and the raised errors of the modelled code. */
module Wrappers {

  datatype Option<+T> = None | Some(value: T)
  {
    /** `x or default` for a value whose only falsy form is None */
    function GetOr(default: T): T
    {
      match this
      case Some(v) => v
      case None => default
    }
  }

  datatype Result<+T, +E> = Success(value: T) | Failure(error: E)
}
