/**
  Small definitions shared by the other modules.
 */
module Prelude {

  datatype Option<+T> = None | Some(value: T)

  function Min(a: nat, b: nat): nat {
    if a < b then a else b
  }

  function Max(a: nat, b: nat): nat {
    if a < b then b else a
  }
}

/**
  Numbers of the function types that some unit treats specially.
 */
module FuncTypes {

  const BRU := 4
  const LDU := 6
  const STU := 7
}
