/** Optional values and the outcome of an operation that may raise. */
module Wrappers {
  datatype Option<+T> = None | Some(value: T)

  datatype Result<+T, +E> = Ok(value: T) | Err(error: E)

  /** Python's `value or default` for an optional number: None and 0 both fall through. */
  function OrDefault(value: Option<int>, default: int): int {
    if value.None? || value.value == 0 then default else value.value
  }

  function Min(a: int, b: int): int { if a <= b then a else b }

  function Max(a: int, b: int): int { if a >= b then a else b }

  function MinReal(a: real, b: real): real { if a <= b then a else b }

  function MaxReal(a: real, b: real): real { if a >= b then a else b }
}
