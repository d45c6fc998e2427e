/** Small things that several modules share. */
module Prelude {
  /** The optional value used where the program has a nullable pointer, a missing row or an absent field. */
  datatype Option<+T> = None | Some(value: T)

  function Front<T>(s: seq<T>): seq<T>
    requires s != []
  {
    s[..|s| - 1]
  }

  function Last<T>(s: seq<T>): T
    requires s != []
  {
    s[|s| - 1]
  }
}
