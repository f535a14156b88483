/** Optional values: the model's counterpart of C#'s nullable `int?`, `double?` and `bool?`. */
module Wrappers {

  datatype Option<T> = None | Some(value: T)
  {
    /** The value, or `default` when absent (C#'s `GetValueOrDefault`). */
    function GetOr(default: T): T
    {
      match this
      case Some(v) => v
      case None => default
    }
  }
}
