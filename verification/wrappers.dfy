/** Optional values, standing in for TypeScript's optional properties and
    for `undefined` results such as the one `Array.prototype.find` returns. */
module Wrappers {

  datatype Option<+T> = None | Some(value: T) {

    /** `x ?? default`: the wrapped value when there is one, `default` otherwise. */
    function GetOr(default: T): T {
      match this
      case Some(v) => v
      case None => default
    }
  }
}
