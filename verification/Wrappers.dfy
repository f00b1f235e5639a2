/** Small things that several modules share. */
module Wrappers {

  /** A value that may be missing. */
  datatype Option<T> = None | Some(value: T)

  function Min(a: int, b: int): int { if a < b then a else b }
}
