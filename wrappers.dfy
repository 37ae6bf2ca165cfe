/** Small value wrappers shared by every module of the model. */
module Wrappers {

  /** The conventional Some/None datatype. */
  datatype Option<+T> = None | Some(value: T)

  /** A Go `error` slot: `None` is nil, `Some(text)` is an error whose Error() is `text`. */
  type GoError = Option<string>

  /**
   * A Go slice where nil and empty must be told apart: a nil slice is `Nil`,
   * a non-nil one (possibly of length zero) is `Items`.
   */
  datatype Slice<+T> = Nil | Items(elems: seq<T>)

  /** The elements of a slice; a nil slice has none, as `range` or `len` see it. */
  function Elems<T>(s: Slice<T>): seq<T>
  {
    match s
    case Nil => []
    case Items(e) => e
  }

  /** Go's `append(s, x)`: appending to a nil slice yields a non-nil one. */
  function Append<T>(s: Slice<T>, x: T): (r: Slice<T>)
    ensures r.Items? && r.elems == Elems(s) + [x]
  {
    Items(Elems(s) + [x])
  }
}
