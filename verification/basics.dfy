/** Arithmetic and names shared by several components. */
module Basics {

  datatype Currency = USD | EUR | GBP

  function Abs(x: int): nat {
    if x < 0 then -x else x
  }

  function AbsReal(x: real): real {
    if x < 0.0 then -x else x
  }

  function Max(a: int, b: int): int {
    if a < b then b else a
  }

  function Min(a: int, b: int): int {
    if a < b then a else b
  }
}
