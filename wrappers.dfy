/** The optional value used wherever the dashboard code works with `undefined` or `null`. */
module Wrappers {
  datatype Option<T> = None | Some(value: T)
  {
    /** The wrapped value, or `default` when there is none (the `??`/`||` fallback). */
    function GetOr(default: T): (r: T)
      ensures this.Some? ==> r == this.value
      ensures this.None? ==> r == default
    {
      match this
      case Some(v) => v
      case None => default
    }
  }
}
