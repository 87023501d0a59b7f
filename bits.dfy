// Bitwise operations on unsigned integers, bit by bit from the least significant
// bit. The engine applies `|`, `&`, `<<` and `>>` to u8, u32 and usize values; the
// lemmas here turn the patterns it uses into arithmetic.
module Bits {
  function Pow2(k: nat): (r: nat)
    ensures r >= 1
  {
    if k == 0 then 1 else 2 * Pow2(k - 1)
  }

  /** `a | b` */
  function Or(a: nat, b: nat): nat
    decreases a + b
  {
    if a == 0 then b
    else if b == 0 then a
    else 2 * Or(a / 2, b / 2) + (if a % 2 == 1 || b % 2 == 1 then 1 else 0)
  }

  /** `a & b` */
  function And(a: nat, b: nat): nat
    decreases a + b
  {
    if a == 0 || b == 0 then 0
    else 2 * And(a / 2, b / 2) + (if a % 2 == 1 && b % 2 == 1 then 1 else 0)
  }

  /** `a ^ b` */
  function Xor(a: nat, b: nat): nat
    decreases a + b
  {
    if a == 0 then b
    else if b == 0 then a
    else 2 * Xor(a / 2, b / 2) + (if a % 2 != b % 2 then 1 else 0)
  }

  /** Bit i of x is set. */
  predicate Bit(x: nat, i: nat)
  {
    if i == 0 then x % 2 == 1 else Bit(x / 2, i - 1)
  }

  /** `x << k` when nothing is shifted out */
  function Shl(x: nat, k: nat): nat
  {
    if k == 0 then x else 2 * Shl(x, k - 1)
  }

  /** `x >> k` on an unsigned value */
  function Shr(x: nat, k: nat): nat
  {
    if k == 0 then x else Shr(x / 2, k - 1)
  }

  /** The mask of the k low bits, `(1 << k) - 1`. */
  function LowMask(k: nat): nat
  {
    if k == 0 then 0 else 2 * LowMask(k - 1) + 1
  }

  /** The k low bits of x. */
  function Low(x: nat, k: nat): nat
  {
    if k == 0 then 0 else 2 * Low(x / 2, k - 1) + x % 2
  }

  /** std::popcount */
  function PopCount(n: nat): nat
  {
    if n == 0 then 0 else n % 2 + PopCount(n / 2)
  }

  /** std::has_single_bit */
  predicate HasSingleBit(n: nat) { PopCount(n) == 1 }

  /** std::countr_zero of a non-zero value */
  function CountrZero(n: nat): nat
    requires n > 0
  {
    if n % 2 == 1 then 0 else 1 + CountrZero(n / 2)
  }

  lemma DivModUnique(x: int, d: int, q: int, r: int)
    requires 0 < d && 0 <= r < d && x == d * q + r
    ensures x / d == q && x % d == r
  {
    var q', r' := x / d, x % d;
    assert x == d * q' + r';
    if q' > q {
      assert d * q' >= d * (q + 1) by { MulMono(d, q + 1, q'); }
    } else if q' < q {
      assert d * q >= d * (q' + 1) by { MulMono(d, q' + 1, q); }
    }
  }

  /** A lower bound on a floor quotient. */
  lemma DivAtLeast(x: int, d: int, m: int)
    requires 0 < d && 0 <= x && d * m <= x
    ensures m <= x / d
  {
    var q := x / d;
    DivModUnique(x, d, q, x % d);
    if q < m {
      MulMono(d, q + 1, m);
    }
  }

  /** An upper bound on a floor quotient. */
  lemma DivAtMost(x: int, d: int, m: int)
    requires 0 < d && 0 <= x && x < d * (m + 1)
    ensures x / d <= m
  {
    var q := x / d;
    DivModUnique(x, d, q, x % d);
    if q > m {
      MulMono(d, m + 1, q);
    }
  }

  lemma MulMono(d: int, a: int, b: int)
    requires 0 <= d && a <= b
    ensures d * a <= d * b
  {
  }

  lemma {:induction false} ShlZero(k: nat)
    ensures Shl(0, k) == 0
  {
    if k > 0 {
      ShlZero(k - 1);
    }
  }

  lemma {:induction false} ShrZero(k: nat)
    ensures Shr(0, k) == 0
  {
    if k > 0 {
      ShrZero(k - 1);
    }
  }

  lemma {:induction false} LowZero(k: nat)
    ensures Low(0, k) == 0
  {
    if k > 0 {
      LowZero(k - 1);
    }
  }

  /** `(x << i) << j == x << (i + j)` */
  lemma {:induction false} ShlAdd(x: nat, i: nat, j: nat)
    ensures Shl(Shl(x, i), j) == Shl(x, i + j)
  {
    if j > 0 {
      ShlAdd(x, i, j - 1);
    }
  }

  /** A left shift by k is a multiplication by 2^k. */
  lemma {:induction false} ShlMul(x: nat, k: nat)
    ensures Shl(x, k) == x * Pow2(k)
  {
    if k > 0 {
      ShlMul(x, k - 1);
      assert x * Pow2(k) == 2 * (x * Pow2(k - 1));
    }
  }

  lemma {:induction false} LowMaskPow2(k: nat)
    ensures LowMask(k) == Pow2(k) - 1
  {
    if k > 0 {
      LowMaskPow2(k - 1);
    }
  }

  /** Every value splits into its bits above k and its k low bits. */
  lemma {:induction false} ShrLow(x: nat, k: nat)
    ensures x == Shl(Shr(x, k), k) + Low(x, k)
    ensures Low(x, k) <= LowMask(k)
  {
    if k > 0 {
      ShrLow(x / 2, k - 1);
    }
  }

  lemma {:induction false} Pow2Add(a: nat, b: nat)
    ensures Pow2(a + b) == Pow2(a) * Pow2(b)
  {
    if a > 0 {
      Pow2Add(a - 1, b);
    }
  }

  lemma Pow2Values()
    ensures Pow2(4) == 16 && Pow2(8) == 256 && Pow2(16) == 65536 && Pow2(24) == 16777216
  {
    Pow2Add(8, 8);
    Pow2Add(16, 8);
  }

  /** `x >> k` divides by 2^k. */
  lemma ShrDiv(x: nat, k: nat)
    ensures Shr(x, k) == x / Pow2(k)
    ensures Low(x, k) == x % Pow2(k)
  {
    ShrLow(x, k);
    ShlMul(Shr(x, k), k);
    LowMaskPow2(k);
    DivModUnique(x, Pow2(k), Shr(x, k), Low(x, k));
  }

  /** `x << 8 == 256 * x` and the 8-bit mask is 255. */
  lemma Byte(x: nat)
    ensures Shl(x, 8) == 256 * x && LowMask(8) == 255
  {
    ShlMul(x, 8);
    LowMaskPow2(8);
    Pow2Values();
  }

  /** OR-ing with the mask of the k low bits sets them and keeps the rest. */
  lemma {:induction false} OrLowMask(x: nat, k: nat)
    ensures Or(x, LowMask(k)) == Shl(Shr(x, k), k) + LowMask(k)
  {
    if k == 0 {
    } else if x == 0 {
      ShrZero(k);
      ShlZero(k);
    } else {
      OrLowMask(x / 2, k - 1);
    }
  }

  /** AND with the mask of the k low bits keeps exactly those bits. */
  lemma {:induction false} AndLowMask(x: nat, k: nat)
    ensures And(x, LowMask(k)) == Low(x, k)
  {
    if k == 0 {
    } else if x == 0 {
      LowZero(k);
    } else {
      AndLowMask(x / 2, k - 1);
    }
  }

  /** Shifting both operands left by one bit commutes with OR. */
  lemma OrDouble(u: nat, v: nat)
    ensures Or(2 * u, 2 * v) == 2 * Or(u, v)
  {
  }

  /** `(x << k) | (y << k) == (x | y) << k` */
  lemma {:induction false} OrShl(x: nat, y: nat, k: nat)
    ensures Or(Shl(x, k), Shl(y, k)) == Shl(Or(x, y), k)
  {
    if k > 0 {
      OrShl(x, y, k - 1);
      OrDouble(Shl(x, k - 1), Shl(y, k - 1));
    }
  }

  /** OR-ing a value shifted left by k with a value of at most k bits is addition:
      the two occupy disjoint bits. */
  lemma {:induction false} OrBelow(x: nat, y: nat, k: nat)
    requires y <= LowMask(k)
    ensures Or(Shl(x, k), y) == Shl(x, k) + y
  {
    if k == 0 {
    } else if y == 0 {
    } else if x == 0 {
      ShlZero(k);
    } else {
      OrBelow(x, y / 2, k - 1);
    }
  }

  lemma {:induction false} PopCountZero(n: nat)
    requires PopCount(n) == 0
    ensures n == 0
  {
    if n > 0 {
      PopCountZero(n / 2);
    }
  }

  /** A value with exactly one bit set is 2 to the number of its trailing zeros. */
  lemma {:induction false} SingleBitIsPow2(n: nat)
    requires HasSingleBit(n)
    ensures n > 0 && n == Pow2(CountrZero(n))
  {
    if n % 2 == 1 {
      PopCountZero(n / 2);
    } else {
      SingleBitIsPow2(n / 2);
    }
  }

  /** The bits of `2 * q + t` are t followed by the bits of q. */
  lemma BitStep(q: nat, t: nat, i: nat)
    requires t < 2
    ensures Bit(2 * q + t, i) <==> if i == 0 then t == 1 else Bit(q, i - 1)
  {
    DivModUnique(2 * q + t, 2, q, t);
  }

  lemma {:induction false} BitZero(i: nat)
    ensures !Bit(0, i)
  {
    if i > 0 {
      BitZero(i - 1);
    }
  }

  lemma {:induction false} OrBit(a: nat, b: nat, i: nat)
    ensures Bit(Or(a, b), i) <==> Bit(a, i) || Bit(b, i)
    decreases i
  {
    if a == 0 {
      BitZero(i);
    } else if b == 0 {
      BitZero(i);
    } else {
      BitStep(Or(a / 2, b / 2), if a % 2 == 1 || b % 2 == 1 then 1 else 0, i);
      BitStep(a / 2, a % 2, i);
      BitStep(b / 2, b % 2, i);
      if i > 0 {
        OrBit(a / 2, b / 2, i - 1);
      }
    }
  }

  lemma {:induction false} AndBit(a: nat, b: nat, i: nat)
    ensures Bit(And(a, b), i) <==> Bit(a, i) && Bit(b, i)
    decreases i
  {
    if a == 0 || b == 0 {
      BitZero(i);
    } else {
      BitStep(And(a / 2, b / 2), if a % 2 == 1 && b % 2 == 1 then 1 else 0, i);
      BitStep(a / 2, a % 2, i);
      BitStep(b / 2, b % 2, i);
      if i > 0 {
        AndBit(a / 2, b / 2, i - 1);
      }
    }
  }

  lemma {:induction false} XorBit(a: nat, b: nat, i: nat)
    ensures Bit(Xor(a, b), i) <==> Bit(a, i) != Bit(b, i)
    decreases i
  {
    if a == 0 {
      BitZero(i);
    } else if b == 0 {
      BitZero(i);
    } else {
      BitStep(Xor(a / 2, b / 2), if a % 2 != b % 2 then 1 else 0, i);
      BitStep(a / 2, a % 2, i);
      BitStep(b / 2, b % 2, i);
      if i > 0 {
        XorBit(a / 2, b / 2, i - 1);
      }
    }
  }

  /** Two values with the same bits are equal. */
  lemma {:induction false} BitsEqual(x: nat, y: nat)
    requires forall i: nat :: Bit(x, i) <==> Bit(y, i)
    ensures x == y
    decreases x + y
  {
    BitStep(x / 2, x % 2, 0);
    BitStep(y / 2, y % 2, 0);
    if x != 0 || y != 0 {
      forall i: nat
        ensures Bit(x / 2, i) <==> Bit(y / 2, i)
      {
        BitStep(x / 2, x % 2, i + 1);
        BitStep(y / 2, y % 2, i + 1);
      }
      BitsEqual(x / 2, y / 2);
    }
  }

  /** A value is non-zero exactly when one of its bits is set. */
  lemma {:induction false} NonZeroBit(x: nat)
    ensures x != 0 <==> exists i: nat :: Bit(x, i)
  {
    if x == 0 {
      forall i: nat
        ensures !Bit(x, i)
      {
        BitZero(i);
      }
    } else if x % 2 == 1 {
      assert exists i: nat :: Bit(x, i) by {
        BitStep(x / 2, 1, 0);
        assert Bit(x, 0);
      }
    } else {
      NonZeroBit(x / 2);
      var i: nat :| Bit(x / 2, i);
      BitStep(x / 2, 0, i + 1);
      assert Bit(x, i + 1);
    }
  }

  /** A value below 2^k has no bit at k or above. */
  lemma {:induction false} BitBelow(x: nat, k: nat, i: nat)
    requires x < Pow2(k) && k <= i
    ensures !Bit(x, i)
  {
    if k == 0 {
      BitZero(i);
    } else {
      BitBelow(x / 2, k - 1, i - 1);
    }
  }

  /** A value whose bits all lie below k is below 2^k. */
  lemma {:induction false} BelowFromBits(x: nat, k: nat)
    requires forall i: nat :: k <= i ==> !Bit(x, i)
    ensures x < Pow2(k)
  {
    if k == 0 {
      if x != 0 {
        NonZeroBit(x);
      }
    } else {
      forall i: nat | k - 1 <= i
        ensures !Bit(x / 2, i)
      {
        assert !Bit(x, i + 1);
      }
      BelowFromBits(x / 2, k - 1);
    }
  }

  /** `~x` within k bits: the complement in the k-bit mask. */
  lemma {:induction false} NotBit(x: nat, k: nat, i: nat)
    requires x <= LowMask(k)
    ensures Bit(LowMask(k) - x, i) <==> i < k && !Bit(x, i)
  {
    if k == 0 {
      BitZero(i);
    } else {
      var m := LowMask(k - 1);
      BitStep(m - x / 2, 1 - x % 2, i);
      BitStep(x / 2, x % 2, i);
      if i > 0 {
        NotBit(x / 2, k - 1, i - 1);
      }
    }
  }

  /** OR, AND and XOR of two values of k bits stay within k bits. */
  lemma Width(a: nat, b: nat, k: nat)
    requires a < Pow2(k) && b < Pow2(k)
    ensures Or(a, b) < Pow2(k) && And(a, b) < Pow2(k) && Xor(a, b) < Pow2(k)
  {
    forall i: nat | k <= i
      ensures !Bit(Or(a, b), i) && !Bit(And(a, b), i) && !Bit(Xor(a, b), i)
    {
      BitBelow(a, k, i);
      BitBelow(b, k, i);
      OrBit(a, b, i);
      AndBit(a, b, i);
      XorBit(a, b, i);
    }
    BelowFromBits(Or(a, b), k);
    BelowFromBits(And(a, b), k);
    BelowFromBits(Xor(a, b), k);
  }

  lemma Pow2Of32()
    ensures Pow2(32) == 0x1_0000_0000 && LowMask(32) == 0xFFFF_FFFF
  {
    Pow2Values();
    Pow2Add(16, 16);
    LowMaskPow2(32);
  }
}
