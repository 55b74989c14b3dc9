// Results that may be missing or wrong, and the program's integers.
module Wrappers {

  datatype Option<+T> = None | Some(value: T)

  datatype Result<+T, +E> = Ok(value: T) | Err(error: E)

  // Integers are 64 bits wide.
  const TOP: int := 0x8000_0000_0000_0000

  type Int64 = x: int | -TOP <= x < TOP
}
