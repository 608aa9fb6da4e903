/** Option and the Result type every fallible step of the interception path returns. */
module Wrappers {

  datatype Option<+T> = None | Some(value: T)

  /** A symbol lookup either yields a value or fails with a reason; nothing throws. */
  datatype Result<+T> = Ok(value: T) | Err(error: string)
  {
    /** Result::map: applies `f` to a value and passes a failure through without calling `f`. */
    function Map<U>(f: T -> U): Result<U>
    {
      match this
      case Ok(v) => Ok(f(v))
      case Err(why) => Err(why)
    }
  }
}
