/** Vocabulary that several modules share. */
module Prelude {

  datatype Option<T> = None | Some(value: T)

  /** The elements of a sequence. */
  function Elems<T(==)>(s: seq<T>): set<T> {
    set x | x in s
  }
}
