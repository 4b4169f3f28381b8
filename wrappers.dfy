/** The optional value used throughout the model (Python's `None` versus a value). */
module Wrappers {
  datatype Option<+T> = None | Some(value: T)

  /** `x` in front of a decoded rest, when the rest decodes. */
  function Cons<T>(x: T, r: Option<seq<T>>): Option<seq<T>> {
    match r
    case None => None
    case Some(t) => Some([x] + t)
  }
}
