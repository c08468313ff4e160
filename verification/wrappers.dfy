/**
  The optional value used wherever the modelled code can come back
  empty-handed, and `Min`, the `min` of two integers.
*/
module Wrappers {

  datatype Option<+T> = None | Some(value: T)

  function Min(a: int, b: int): (m: int)
    ensures m <= a && m <= b
    ensures m == a || m == b
  {
    if a <= b then a else b
  }
}
