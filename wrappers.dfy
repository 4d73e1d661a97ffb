/** Optional values: the model's stand-in for Swift optionals and for an OS
    query that can fail (None = the query returned nothing usable). */
module Wrappers {

  datatype Option<+T> = None | Some(value: T) {

    /** The wrapped value, or `default` when there is none (Swift's `??`). */
    function GetOr(default: T): T {
      match this
      case Some(v) => v
      case None => default
    }
  }
}
