/** Optional values, standing for std::optional. */
module Wrappers {

  datatype Option<+T> = None | Some(value: T) {

    /** std::optional::value_or */
    function GetOr(default: T): T {
      match this
      case Some(v) => v
      case None => default
    }
  }
}
