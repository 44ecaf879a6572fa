/** Small general-purpose datatypes shared by the other modules. */
module Wrappers {

  /** A value that may be absent; the model's counterpart of Python's None. */
  datatype Option<+T> = None | Some(value: T)

  /** The last element of a non-empty sequence. */
  function Last<T>(s: seq<T>): T
    requires |s| > 0
  {
    s[|s| - 1]
  }
}
