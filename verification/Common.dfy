/** Machine integers and the two result shapes shared by every component. */
module Common {
  const U64_MAX: nat := 0xFFFF_FFFF_FFFF_FFFF

  /** Microsecond instants, durations, sequence numbers and identifiers. */
  type u64 = n: nat | n <= U64_MAX

  type Byte = b: int | 0 <= b < 256

  /** How far a file transfer has come. */
  datatype Progress = Progress(id: nat, staged: nat, total: nat)

  datatype Option<+T> = None | Some(value: T)

  datatype Result<+T, +E> = Ok(value: T) | Err(error: E)

  function Min(a: int, b: int): (r: int) { if a <= b then a else b }

  function Max(a: int, b: int): (r: int) { if a <= b then b else a }

  /** `u64::checked_add`: absent on overflow, never wrapped. */
  function CheckedAdd(a: u64, b: u64): (r: Option<u64>) {
    if a + b <= U64_MAX then Some(a + b) else None
  }
}
