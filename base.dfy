/** Shared vocabulary: Rust's `Result`, the fixed-width integer types the
    library moves values through, and the `as` casts between them. */
module Base {

  /** Rust's `Result<T, E>`. */
  datatype Result<+T, +E> = Ok(value: T) | Err(error: E)

  const TWO_32: int := 0x1_0000_0000
  const TWO_31: int := 0x8000_0000
  const TWO_64: int := 0x1_0000_0000_0000_0000
  const TWO_63: int := 0x8000_0000_0000_0000

  type uint8 = x: int | 0 <= x < 0x100
  type uint32 = x: int | 0 <= x < TWO_32
  type int32 = x: int | -TWO_31 <= x < TWO_31
  type uint64 = x: int | 0 <= x < TWO_64
  type int64 = x: int | -TWO_63 <= x < TWO_63

  /** `x as u32`: keeps the low 32 bits, so a value already in range is kept
      and any other value is replaced by the one congruent to it. */
  function AsU32(x: int): (r: uint32)
    ensures 0 <= x < TWO_32 ==> r == x
    ensures (x - r) % TWO_32 == 0
  {
    x % TWO_32
  }

  /** `x as i32`: the low 32 bits read in two's complement. */
  function AsI32(x: int): (r: int32)
    ensures -TWO_31 <= x < TWO_31 ==> r == x
    ensures (x - r) % TWO_32 == 0
  {
    var m := x % TWO_32;
    if m < TWO_31 then m else m - TWO_32
  }

  /** `x as u64`: the low 64 bits; for a negative `i32` this is sign extension. */
  function AsU64(x: int): (r: uint64)
    ensures 0 <= x < TWO_64 ==> r == x
    ensures -TWO_31 <= x < 0 ==> r == TWO_64 + x
    ensures (x - r) % TWO_64 == 0
  {
    x % TWO_64
  }

  /** Reading an `i32` as `u32` and back loses nothing, and neither does the
      opposite order. */
  lemma CastRoundTrips(x: int32, y: uint32)
    ensures AsI32(AsU32(x)) == x
    ensures AsU32(AsI32(y)) == y
  {
  }
}
