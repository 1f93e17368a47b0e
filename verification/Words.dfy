/** Fixed-width arithmetic as the service uses it, and the optional value. */
module Words {

  const U64_MAX: int := 0xFFFF_FFFF_FFFF_FFFF
  const U32_MAX: int := 0xFFFF_FFFF

  type U64 = x: int | 0 <= x <= 0xFFFF_FFFF_FFFF_FFFF
  type U32 = x: int | 0 <= x <= 0xFFFF_FFFF

  datatype Option<+T> = None | Some(value: T)

  function Min(a: int, b: int): int {
    if a <= b then a else b
  }

  function Max(a: int, b: int): int {
    if a <= b then b else a
  }

  function SatAdd(a: U64, b: U64): U64 {
    if a + b <= U64_MAX then a + b else U64_MAX
  }

  function SatSub(a: U64, b: U64): U64 {
    if b <= a then a - b else 0
  }

  /** Unchecked addition of a release build: wraps modulo 2^64. */
  function WrapAdd(a: U64, b: U64): U64 {
    if a + b <= U64_MAX then a + b else a + b - U64_MAX - 1
  }
}
