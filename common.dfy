/** Small value types shared by every module of the model. */
module Common {

  /** A C pointer that may be NULL, or a value that may be absent. */
  datatype Option<+T> = None | Some(value: T)

  /** An unsigned 8-bit byte (C `uint8_t`, and `char` read as unsigned). */
  type Byte = b: int | 0 <= b < 0x100

  /** C `uint8_t` used as a number. */
  type Uint8 = x: int | 0 <= x < 0x100

  /** C `uint16_t`. */
  type Uint16 = x: int | 0 <= x < 0x1_0000

  /** C `uint32_t`. */
  type Uint32 = x: int | 0 <= x < 0x1_0000_0000

  /** The smaller of the two. */
  function Min(a: int, b: int): (r: int)
    ensures r <= a && r <= b && (r == a || r == b)
  {
    if a < b then a else b
  }

  /** The larger of the two. */
  function Max(a: int, b: int): (r: int)
    ensures a <= r && b <= r && (r == a || r == b)
  {
    if a < b then b else a
  }
}
