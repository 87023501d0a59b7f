// Fixed-width integer types of the engine (Code/Engine/Common/Type.hpp gives the
// aliases; only the widths matter here).
module Types {
  /** An unsigned 8-bit unit: a `char` of the engine's String, or a colour channel. */
  newtype u8 = x: int | 0 <= x < 0x100

  /** `u32`, the packed colour. */
  newtype u32 = x: int | 0 <= x < 0x1_0000_0000

  /** The machine's `usize` (64-bit). */
  newtype usize = x: int | 0 <= x < 0x1_0000_0000_0000_0000

  const UsizeModulus: int := 0x1_0000_0000_0000_0000

  /** Unsigned 64-bit arithmetic: the value an `int` result wraps to. */
  function Wrap(x: int): (r: usize)
    ensures 0 <= x < UsizeModulus ==> r as int == x
    ensures -UsizeModulus <= x < 0 ==> r as int == x + UsizeModulus
  {
    (x % UsizeModulus) as usize
  }

  function Min(a: int, b: int): int { if a <= b then a else b }

  function Max(a: int, b: int): int { if a >= b then a else b }
}
