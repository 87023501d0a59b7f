// The integer helpers of Code/Engine/Math/MathFunction.hpp: block counts for a
// power-of-two block size, clamping and the branch-free absolute value.
module MathFunction {
  import opened Types
  import opened Bits

  /** `n` is a power of two of at least 2, the block sizes CeilPow2 accepts. */
  ghost predicate IsBlockSize(n: nat) { exists k: nat :: 1 <= k && n == Pow2(k) }

  /** The number of `n`-blocks that cover `x` units: `(x + n - 1) >> countr_zero(n)`,
      or 0 when `n` is below 2 or has more than one bit set. */
  function CeilPow2(x: u8, n: u8): (r: nat)
    ensures n < 2 || !HasSingleBit(n as nat) ==> r == 0
    ensures n >= 2 && HasSingleBit(n as nat) ==>
      r * (n as int) >= x as int && r * (n as int) < x as int + n as int
  {
    if n < 2 || !HasSingleBit(n as nat) then 0
    else
      var k := CountrZero(n as nat);
      SingleBitIsPow2(n as nat);
      ShrDiv(x as nat + n as nat - 1, k);
      BlockCount(x as int, n as int);
      Shr(x as nat + n as nat - 1, k)
  }

  lemma BlockCount(x: int, n: int)
    requires 0 <= x && 0 < n
    ensures ((x + n - 1) / n) * n >= x && ((x + n - 1) / n) * n < x + n
  {
    var q := (x + n - 1) / n;
    assert x + n - 1 == n * q + (x + n - 1) % n;
  }

  /** A power of two has exactly one bit set. */
  lemma {:induction false} Pow2HasSingleBit(k: nat)
    ensures HasSingleBit(Pow2(k))
  {
    if k > 0 {
      Pow2HasSingleBit(k - 1);
      PopCountDouble(Pow2(k - 1));
    }
  }

  lemma PopCountDouble(p: nat)
    ensures PopCount(2 * p) == PopCount(p)
  {
    if p > 0 {
      DivModUnique(2 * p, 2, p, 0);
    }
  }

  /** The validity test of CeilPow2 is exactly "a power of two of at least 2". */
  lemma BlockSizeIffSingleBit(n: nat)
    ensures IsBlockSize(n) <==> n >= 2 && HasSingleBit(n)
  {
    if IsBlockSize(n) {
      var k: nat :| 1 <= k && n == Pow2(k);
      Pow2HasSingleBit(k);
    }
    if n >= 2 && HasSingleBit(n) {
      SingleBitIsPow2(n);
      assert CountrZero(n) >= 1;
    }
  }

  /** A block size that is not a power of two of at least 2 gives 0. */
  lemma CeilPow2Invalid(x: u8, n: u8)
    requires !IsBlockSize(n as nat)
    ensures CeilPow2(x, n) == 0
  {
    BlockSizeIffSingleBit(n as nat);
  }

  /** For a valid block size the result is the ceiling of x / n. */
  lemma CeilPow2IsCeiling(x: u8, k: nat)
    requires 1 <= k <= 7
    ensures Pow2(k) < 256
    ensures CeilPow2(x, Pow2(k) as u8) == (x as int + Pow2(k) - 1) / Pow2(k)
  {
    Pow2Mono(k, 7);
    var n := Pow2(k);
    assert IsBlockSize(n);
    BlockSizeIffSingleBit(n);
    var r := CeilPow2(x, n as u8);
    assert r * n >= x as int && r * n < x as int + n;
    CeilUnique(x as int, n, r);
  }

  /** Only the ceiling of x / n covers x with fewer than n units to spare. */
  lemma CeilUnique(x: int, n: int, r: int)
    requires 0 <= x && 0 < n && r * n >= x && r * n < x + n
    ensures r == (x + n - 1) / n
  {
    DivModUnique(x + n - 1, n, r, x + n - 1 - n * r);
  }

  lemma {:induction false} Pow2Mono(a: nat, b: nat)
    requires a <= b
    ensures Pow2(a) <= Pow2(b)
  {
    if a < b {
      Pow2Mono(a, b - 1);
    }
  }

  function Ceil64(x: u8): (r: nat)
    ensures r * 64 >= x as int && r * 64 < x as int + 64
  {
    BlockSizes();
    CeilPow2(x, 64)
  }

  function Ceil32(x: u8): (r: nat)
    ensures r * 32 >= x as int && r * 32 < x as int + 32
  {
    BlockSizes();
    CeilPow2(x, 32)
  }

  function Ceil16(x: u8): (r: nat)
    ensures r * 16 >= x as int && r * 16 < x as int + 16
  {
    BlockSizes();
    CeilPow2(x, 16)
  }

  function Ceil8(x: u8): (r: nat)
    ensures r * 8 >= x as int && r * 8 < x as int + 8
  {
    BlockSizes();
    CeilPow2(x, 8)
  }

  function Ceil4(x: u8): (r: nat)
    ensures r * 4 >= x as int && r * 4 < x as int + 4
  {
    BlockSizes();
    CeilPow2(x, 4)
  }

  lemma BlockSizes()
    ensures HasSingleBit(4) && HasSingleBit(8) && HasSingleBit(16)
    ensures HasSingleBit(32) && HasSingleBit(64)
  {
    Pow2HasSingleBit(2);
    Pow2HasSingleBit(3);
    Pow2HasSingleBit(4);
    Pow2HasSingleBit(5);
    Pow2HasSingleBit(6);
    assert Pow2(6) == 64;
  }

  /** The values the unit tests of CeilPow2 and Ceil4..Ceil64 expect. */
  lemma CeilExamples()
    ensures CeilPow2(10, 0) == 0 && CeilPow2(10, 1) == 0
    ensures CeilPow2(10, 3) == 0 && CeilPow2(10, 6) == 0
    ensures CeilPow2(0, 4) == 0 && CeilPow2(1, 4) == 1 && CeilPow2(2, 4) == 1
    ensures CeilPow2(3, 4) == 1 && CeilPow2(4, 4) == 1 && CeilPow2(5, 4) == 2
    ensures Ceil4(0) == 0 && Ceil4(1) == 1 && Ceil4(3) == 1 && Ceil4(4) == 1 && Ceil4(5) == 2
    ensures Ceil8(7) == 1 && Ceil8(8) == 1 && Ceil8(9) == 2
    ensures Ceil16(15) == 1 && Ceil16(16) == 1 && Ceil16(17) == 2
    ensures Ceil32(31) == 1 && Ceil32(32) == 1 && Ceil32(33) == 2
    ensures Ceil64(63) == 1 && Ceil64(64) == 1 && Ceil64(65) == 2
  {
    CeilPow2Examples();
    SmallBlockExamples();
    LargeBlockExamples();
  }

  lemma CeilPow2Examples()
    ensures CeilPow2(10, 0) == 0 && CeilPow2(10, 1) == 0
    ensures CeilPow2(10, 3) == 0 && CeilPow2(10, 6) == 0
    ensures CeilPow2(0, 4) == 0 && CeilPow2(1, 4) == 1 && CeilPow2(2, 4) == 1
    ensures CeilPow2(3, 4) == 1 && CeilPow2(4, 4) == 1 && CeilPow2(5, 4) == 2
  {
    BlockSizes();
    assert !HasSingleBit(3) && !HasSingleBit(6);
  }

  lemma SmallBlockExamples()
    ensures Ceil4(0) == 0 && Ceil4(1) == 1 && Ceil4(3) == 1 && Ceil4(4) == 1 && Ceil4(5) == 2
    ensures Ceil8(7) == 1 && Ceil8(8) == 1 && Ceil8(9) == 2
  {
  }

  lemma LargeBlockExamples()
    ensures Ceil16(15) == 1 && Ceil16(16) == 1 && Ceil16(17) == 2
    ensures Ceil32(31) == 1 && Ceil32(32) == 1 && Ceil32(33) == 2
    ensures Ceil64(63) == 1 && Ceil64(64) == 1 && Ceil64(65) == 2
  {
  }

  /** `value` raised to `low`, then lowered to `high`. */
  function Clamp(value: int, low: int, high: int): (r: int)
    ensures low <= high ==> low <= r <= high
    ensures low <= value <= high ==> r == value
    ensures low <= high && value < low ==> r == low
    ensures value > high ==> r == high
    ensures low > high ==> r == high
  {
    var tmp := if value >= low then value else low;
    if tmp <= high then tmp else high
  }

  function Clamp01(value: int): (r: int)
    ensures 0 <= r <= 1
    ensures 0 <= value <= 1 ==> r == value
    ensures value < 0 ==> r == 0
    ensures value > 1 ==> r == 1
  {
    Clamp(value, 0, 1)
  }

  /** The least value of a signed integer of `bits` bits. */
  function SignedMin(bits: nat): int
    requires bits >= 1
  {
    -(Pow2(bits - 1) as int)
  }

  /** `value >> (bits - 1)` on a signed value: an arithmetic shift that copies the
      sign bit everywhere, giving -1 (all ones) or 0. */
  function SignMask(value: int, bits: nat): (mask: int)
    requires bits >= 1 && SignedMin(bits) <= value < Pow2(bits - 1)
    ensures value < 0 ==> mask == -1
    ensures value >= 0 ==> mask == 0
  {
    var p := Pow2(bits - 1);
    if value < 0 then DivModUnique(value, p, -1, value + p); value / p
    else DivModUnique(value, p, 0, value); value / p
  }

  /** `x ^ mask` in two's complement for a mask of all zeros or all ones: XOR with
      all ones flips every bit, which is `-x - 1`. */
  function XorSignMask(x: int, mask: int): int
    requires mask == 0 || mask == -1
  {
    if mask == 0 then x else -x - 1
  }

  /** The branch-free `(value + mask) ^ mask` of a signed integer of `bits` bits. */
  function Abs(value: int, bits: nat): (r: int)
    requires bits >= 1 && SignedMin(bits) < value < Pow2(bits - 1)
    ensures r >= 0 && (r == value || r == -value)
    ensures r < Pow2(bits - 1)
  {
    var mask := SignMask(value, bits);
    XorSignMask(value + mask, mask)
  }

  lemma AbsExamples()
    ensures Abs(-42, 32) == 42 && Abs(-100, 32) == 100
    ensures Abs(100, 32) == 100 && Abs(0, 32) == 0
  {
    assert Pow2(31) == 0x8000_0000 by {
      Pow2Add(16, 15);
      Pow2Values();
      assert Pow2(15) == 32768 by { Pow2Add(8, 7); }
    }
  }
}
