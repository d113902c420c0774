/** Fixed-width integers of the program and the Rust casts between them.
    Floating-point values are modelled as `real`; the casts below say what
    `as` does to a real-valued operand (NaN has no real counterpart). */
module Machine {

  datatype Option<T> = None | Some(value: T)

  const U32_LIMIT: int := 0x1_0000_0000

  newtype u8 = x: int | 0 <= x < 0x100
  newtype u32 = x: int | 0 <= x < 0x1_0000_0000
  newtype i32 = x: int | -0x8000_0000 <= x < 0x8000_0000

  const U32_MAX: u32 := 0xFFFF_FFFF

  /** `n as i32` for a `u32` n: the same 32 bits read in two's complement. */
  function U32AsI32(n: u32): (r: i32)
    ensures r as int == n as int || r as int == n as int - U32_LIMIT
    ensures n < 0x8000_0000 ==> r as int == n as int
    ensures r == -1 <==> n == U32_MAX
  {
    if n < 0x8000_0000 then n as int as i32 else (n as int - U32_LIMIT) as i32
  }

  /** `x as u8` for an `f64` x: truncation toward zero, saturating at both ends. */
  function RealAsU8(x: real): (r: u8)
    ensures x <= 0.0 ==> r == 0
    ensures x >= 255.0 ==> r == 255
    ensures 0.0 <= x < 256.0 ==> r as real <= x < r as real + 1.0
  {
    if x <= 0.0 then 0 else if x >= 255.0 then 255 else x.Floor as u8
  }

  lemma RealAsU8Monotone(x: real, y: real)
    requires x <= y
    ensures RealAsU8(x) <= RealAsU8(y)
  {
  }

  /** `x as u32` for an `f32` x: truncation toward zero, saturating at both ends. */
  function RealAsU32(x: real): (r: u32)
    ensures x <= 0.0 ==> r == 0
    ensures x >= U32_MAX as real ==> r == U32_MAX
    ensures 0.0 <= x < U32_LIMIT as real ==> r as real <= x < r as real + 1.0
  {
    if x <= 0.0 then 0 else if x >= U32_MAX as real then U32_MAX else x.Floor as u32
  }

  /** `u32::abs_diff`: the distance between two unsigned values, whichever is larger. */
  function AbsDiff(a: u32, b: u32): (d: u32)
    ensures a as int == b as int + d as int || b as int == a as int + d as int
  {
    if a >= b then a - b else b - a
  }

  lemma AbsDiffSymmetric(a: u32, b: u32)
    ensures AbsDiff(a, b) == AbsDiff(b, a)
    ensures AbsDiff(a, b) == 0 <==> a == b
  {
  }
}
