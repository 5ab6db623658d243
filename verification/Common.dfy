/** Value types shared by every part of the model. */
module Common {

  datatype Option<+T> = None | Some(value: T)

  /** The result of a check that returns nothing on success. */
  datatype Outcome<+E> = Pass | Fail(error: E)

  type Byte = b: int | 0 <= b < 0x100

  /** The server's 64-bit millisecond clock and deadline type. */
  type U64 = n: int | 0 <= n <= 0xFFFF_FFFF_FFFF_FFFF

  /** A UUID as its 128-bit big-endian value; its numeric order is PostgreSQL's `uuid` order. */
  type Uuid = n: int | 0 <= n < UUID_COUNT

  const UUID_COUNT: int := 0x1_0000_0000_0000_0000_0000_0000_0000_0000
  const NIL_UUID: Uuid := 0

  function Min(a: int, b: int): int {
    if a <= b then a else b
  }
}
