/** Definitions shared by every model in this project. */
module Common {
  datatype Option<+T> = None | Some(value: T)

  /** The largest value of the signed 64-bit integers the source validates against. */
  const MAX_INT64: int := 0x7FFF_FFFF_FFFF_FFFF

  /** The four statuses of a persistence receipt. */
  datatype Status = Accepted | Coalesced | Rejected | Failed

  type Byte = n: int | 0 <= n < 256

  function Min(a: int, b: int): int { if a <= b then a else b }

  function Max(a: int, b: int): int { if a >= b then a else b }

  /** Python's floor division for a positive or negative divisor. */
  function FloorDiv(a: int, b: int): (q: int)
    requires b != 0
    ensures b > 0 ==> b * q <= a < b * q + b
    ensures b < 0 ==> b * q + b < a <= b * q
  {
    if b > 0 then a / b else (-a) / (-b)
  }
}
