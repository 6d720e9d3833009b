/** Small helper datatypes shared by the portfolio modules. */
module Wrappers {

  /** A value that may be absent: a nullable state slot, an optional badge. */
  datatype Option<+T> = None | Some(value: T)

  function Min(a: int, b: int): int
  {
    if a <= b then a else b
  }
}
