/** Value types shared by every part of the model: optional values and error
    outcomes, the fixed-width unsigned integers of the Go code, bytes, and the
    ISD-AS address of an autonomous system. */
module Common {

  /** A value that may be absent (a nil pointer or slice in Go). */
  datatype Option<+T> = None | Some(value: T)

  /** A function result that is either a value or an error. */
  datatype Result<+T, +E> = Ok(value: T) | Err(error: E)

  /** The `error` result of a Go function that returns nothing else: nil or an error. */
  datatype Outcome<+E> = Pass | Fail(error: E)

  type byte = bv8
  type u8 = x: int | 0 <= x < 0x100
  type u16 = x: int | 0 <= x < 0x1_0000
  type u32 = x: int | 0 <= x < 0x1_0000_0000
  type u64 = x: int | 0 <= x < 0x1_0000_0000_0000_0000

  /** Go's conversion `uint16(x)` of an integer: keeps the low 16 bits, in
      two's complement for negative values. */
  function ToU16(x: int): (r: u16)
    ensures (x - r) % 0x1_0000 == 0
    ensures 0 <= x < 0x1_0000 ==> r == x
  {
    x % 0x1_0000
  }

  /** An ISD-AS address: the isolation domain and the AS number. */
  datatype IA = IA(isd: u16, asn: u64) {
    /** Both parts unset (`IA.IsZero`). */
    predicate IsZero() { isd == 0 && asn == 0 }
    /** At least one part unset (`IA.IsWildcard`). */
    predicate IsWildcard() { isd == 0 || asn == 0 }
  }

  /** The address 0-0, which an `IAInt` of 0 converts to. */
  const ZeroIA: IA := IA(0, 0)
}
