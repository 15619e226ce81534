// Machine integers and the result types shared by every module.
module Prelude {

  const U64_MAX: int := 0xFFFF_FFFF_FFFF_FFFF
  const TWO_64: int := 0x1_0000_0000_0000_0000

  type uint8 = x: int | 0 <= x < 0x100
  type uint16 = x: int | 0 <= x < 0x1_0000
  type uint64 = x: int | 0 <= x < 0x1_0000_0000_0000_0000

  datatype Option<+T> = None | Some(value: T)

  datatype Result<+T, +E> = Ok(value: T) | Err(error: E) {
    predicate IsFailure() {
      Err?
    }

    function PropagateFailure<U>(): Result<U, E>
      requires Err?
    {
      Err(error)
    }

    function Extract(): T
      requires Ok?
    {
      value
    }
  }

  function Min(a: int, b: int): int {
    if a <= b then a else b
  }

  function Max(a: int, b: int): int {
    if a <= b then b else a
  }

  /** `u64::saturating_add`. */
  function SatAdd(a: uint64, b: uint64): uint64 {
    if a + b <= U64_MAX then a + b else U64_MAX
  }

  /** `u64::checked_add`. */
  function CheckedAdd(a: uint64, b: uint64): Option<uint64> {
    if a + b <= U64_MAX then Some(a + b) else None
  }

  /** `u64::checked_sub`. */
  function CheckedSub(a: uint64, b: uint64): Option<uint64> {
    if b <= a then Some(a - b) else None
  }
}
