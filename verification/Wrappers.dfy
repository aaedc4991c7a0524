/** Values that may be absent, nil references and map misses of the source, and the later of two times. */
module Wrappers {
  datatype Option<+T> = None | Some(value: T)

  function Max(a: nat, b: nat): nat {
    if a > b then a else b
  }
}
