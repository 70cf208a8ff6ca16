/** What several parts of the model share. */
module Basics {

  datatype Option<+T> = None | Some(value: T)

  function Min(a: nat, b: nat): nat {
    if a < b then a else b
  }

  function Max(a: nat, b: nat): nat {
    if a < b then b else a
  }

  /** A number as 64 bits keep it. */
  function Wrap(n: int): nat {
    n % 0x1_0000_0000_0000_0000
  }

  function Members<T(==)>(s: seq<T>): set<T> {
    set x | x in multiset(s)
  }
}
