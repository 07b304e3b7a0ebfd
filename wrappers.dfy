/** The optional value used wherever the source reads a JSON key that may be absent. */
module Wrappers {

  datatype Option<+T> = None | Some(value: T) {

    /** The value, or `default` when absent (Python's `dict.get(key, default)`). */
    function GetOr(default: T): T
    {
      match this
      case Some(v) => v
      case None => default
    }
  }

  /** What loading a JSON file gives: no file, a file that cannot be read or parsed, or its document. */
  datatype Stored<+T> = Missing | Unreadable | Present(doc: T)
}
