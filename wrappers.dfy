/** The one failure-compatible helper type the model needs: an optional value. */
module Wrappers {

  /** `None` stands for Python's `None` (or an absent dictionary key), `Some(v)` for a value. */
  datatype Option<+T> = None | Some(value: T) {

    /** The value, or `default` when there is none (Python's `d.get(k, default)`). */
    function GetOr(default: T): T {
      match this
      case Some(v) => v
      case None => default
    }
  }
}
