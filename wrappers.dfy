/** Optional values: `None` stands for JavaScript's `undefined`/`null` where the source tests for absence. */
module Wrappers {
  datatype Option<+T> = None | Some(value: T)
  {
    function GetOr(default: T): T
    {
      match this
      case Some(v) => v
      case None => default
    }
  }
}
