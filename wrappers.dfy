/** Optional values: JavaScript's `undefined` / `null` results and optional fields. */
module Wrappers {

  datatype Option<+T> = None | Some(value: T) {

    /** `v ?? default` */
    function GetOr(default: T): T {
      match this
      case Some(v) => v
      case None => default
    }
  }
}
