// `Flag<EnumType>` of Code/Engine/Utils/Flag.hpp: a set of bit flags stored in the
// enum's underlying integer, and the free enum operators declared by
// DECL_ENUM_FLAG_OPERATORS. The underlying type is taken to be 32 bits wide.
module Flags {
  import opened Types
  import opened Bits

  /** A value of the enum, given by its underlying value. */
  type EnumValue = u32

  /** Bit i of an underlying value is set. */
  predicate Has(x: u32, i: nat) { Bit(x as nat, i) }

  /** Two underlying values with the same bits are equal. */
  lemma SameBits(x: u32, y: u32)
    requires forall i: nat :: Has(x, i) <==> Has(y, i)
    ensures x == y
  {
    var m, n := x as nat, y as nat;
    forall i: nat
      ensures Bit(m, i) <==> Bit(n, i)
    {
      assert Has(x, i) <==> Has(y, i);
    }
    BitsEqual(m, n);
  }

  /** A value is non-zero exactly when one of its bits is set. */
  lemma NonZeroHas(x: u32)
    ensures x != 0 <==> exists i: nat :: Has(x, i)
  {
    var m := x as nat;
    NonZeroBit(m);
    if x != 0 {
      var i: nat :| Bit(m, i);
      assert Has(x, i);
    } else {
      forall i: nat
        ensures !Has(x, i)
      {
        BitZero(i);
      }
    }
  }

  lemma EqualBitsMeaning(x: u32, y: u32)
    ensures x == y <==> forall i: nat :: Has(x, i) <==> Has(y, i)
  {
    if forall i: nat :: Has(x, i) <==> Has(y, i) {
      SameBits(x, y);
    }
  }

  /** `(v & g) == g` says that every bit of g is set in v. */
  lemma SubsetMeaning(v: u32, g: u32)
    ensures AndBits(v, g) == g <==> forall i: nat :: Has(g, i) ==> Has(v, i)
  {
    if forall i: nat :: Has(g, i) ==> Has(v, i) {
      SameBits(AndBits(v, g), g);
    }
  }

  function OrBits(a: u32, b: u32): (r: u32)
    ensures forall i: nat :: Has(r, i) <==> Has(a, i) || Has(b, i)
  {
    var m, n := a as nat, b as nat;
    Pow2Of32();
    Width(m, n, 32);
    var x := Or(m, n);
    forall i: nat
      ensures Bit(x, i) <==> Bit(m, i) || Bit(n, i)
    {
      OrBit(m, n, i);
    }
    x as u32
  }

  function AndBits(a: u32, b: u32): (r: u32)
    ensures forall i: nat :: Has(r, i) <==> Has(a, i) && Has(b, i)
  {
    var m, n := a as nat, b as nat;
    Pow2Of32();
    Width(m, n, 32);
    var x := And(m, n);
    forall i: nat
      ensures Bit(x, i) <==> Bit(m, i) && Bit(n, i)
    {
      AndBit(m, n, i);
    }
    x as u32
  }

  function XorBits(a: u32, b: u32): (r: u32)
    ensures forall i: nat :: Has(r, i) <==> Has(a, i) != Has(b, i)
  {
    var m, n := a as nat, b as nat;
    Pow2Of32();
    Width(m, n, 32);
    var x := Xor(m, n);
    forall i: nat
      ensures Bit(x, i) <==> Bit(m, i) != Bit(n, i)
    {
      XorBit(m, n, i);
    }
    x as u32
  }

  /** A set of flags. Overloads taking an enum value behave as the ones taking
      `Flag(e)`. */
  datatype Flag = Flag(value: u32)
  {
    /** The default-constructed flag holds no bit. */
    static function Default(): (r: Flag)
      ensures !r.Any()
      ensures forall e: EnumValue :: !r.Test(e)
    {
      Flag(0)
    }

    /** `operator|` */
    function Or(other: Flag): (r: Flag)
      ensures forall i: nat :: Has(r.value, i) <==> Has(value, i) || Has(other.value, i)
    {
      Flag(OrBits(value, other.value))
    }

    /** `operator&` */
    function And(other: Flag): (r: Flag)
      ensures forall i: nat :: Has(r.value, i) <==> Has(value, i) && Has(other.value, i)
    {
      Flag(AndBits(value, other.value))
    }

    /** `operator^` */
    function Xor(other: Flag): (r: Flag)
      ensures forall i: nat :: Has(r.value, i) <==> Has(value, i) != Has(other.value, i)
    {
      Flag(XorBits(value, other.value))
    }

    /** `Test(flag)`: some bit of `flag` is set. */
    function Test(flag: EnumValue): (b: bool)
      ensures b <==> exists i: nat :: Has(value, i) && Has(flag, i)
    {
      var m := AndBits(value, flag);
      NonZeroHas(m);
      m != 0
    }

    /** `TestAll(flag)`: every bit of `flag` is set. */
    function TestAll(flag: Flag): (b: bool)
      ensures b <==> forall i: nat :: Has(flag.value, i) ==> Has(value, i)
    {
      SubsetMeaning(value, flag.value);
      AndBits(value, flag.value) == flag.value
    }

    /** `Any()`: some bit is set. */
    function Any(): (b: bool)
      ensures b <==> exists i: nat :: Has(value, i)
    {
      NonZeroHas(value);
      value != 0
    }

    /** `operator==(EnumType)`: the flag holds exactly the bits of the value. */
    function EqualsEnum(flag: EnumValue): (b: bool)
      ensures b <==> forall i: nat :: Has(value, i) <==> Has(flag, i)
    {
      EqualBitsMeaning(value, flag);
      value == flag
    }
  }

  /** `lhs | rhs` on two enum values. */
  function EnumOr(lhs: EnumValue, rhs: EnumValue): (r: Flag)
    ensures forall i: nat :: Has(r.value, i) <==> Has(lhs, i) || Has(rhs, i)
  {
    Flag(lhs).Or(Flag(rhs))
  }

  /** `lhs & rhs` on two enum values. */
  function EnumAnd(lhs: EnumValue, rhs: EnumValue): (r: Flag)
    ensures forall i: nat :: Has(r.value, i) <==> Has(lhs, i) && Has(rhs, i)
  {
    Flag(lhs).And(Flag(rhs))
  }

  /** `lhs ^ rhs` on two enum values. */
  function EnumXor(lhs: EnumValue, rhs: EnumValue): (r: Flag)
    ensures forall i: nat :: Has(r.value, i) <==> Has(lhs, i) != Has(rhs, i)
  {
    Flag(lhs).Xor(Flag(rhs))
  }

  /** `lhs | rhs` with a flag on the right: the same as the flag's own `|`. */
  function EnumOrFlag(lhs: EnumValue, rhs: Flag): (r: Flag)
    ensures r == Flag(lhs).Or(rhs)
  {
    SameBits(rhs.Or(Flag(lhs)).value, Flag(lhs).Or(rhs).value);
    rhs.Or(Flag(lhs))
  }

  /** `lhs & rhs` with a flag on the right. */
  function EnumAndFlag(lhs: EnumValue, rhs: Flag): (r: Flag)
    ensures r == Flag(lhs).And(rhs)
  {
    SameBits(rhs.And(Flag(lhs)).value, Flag(lhs).And(rhs).value);
    rhs.And(Flag(lhs))
  }

  /** `lhs ^ rhs` with a flag on the right. */
  function EnumXorFlag(lhs: EnumValue, rhs: Flag): (r: Flag)
    ensures r == Flag(lhs).Xor(rhs)
  {
    SameBits(rhs.Xor(Flag(lhs)).value, Flag(lhs).Xor(rhs).value);
    rhs.Xor(Flag(lhs))
  }

  /** `~value`: every one of the 32 bits flipped. */
  function EnumNot(value: EnumValue): (r: EnumValue)
    ensures forall i: nat :: Has(r, i) <==> i < 32 && !Has(value, i)
  {
    var m := value as nat;
    Pow2Of32();
    var x := LowMask(32) - m;
    forall i: nat
      ensures Bit(x, i) <==> i < 32 && !Bit(m, i)
    {
      NotBit(m, 32, i);
    }
    x as u32
  }

  /** `!value`: no bit is set. */
  function EnumIsZero(value: EnumValue): (b: bool)
    ensures b <==> forall i: nat :: !Has(value, i)
  {
    NonZeroHas(value);
    value == 0
  }

  /** A flag variable: the compound assignments update it in place. */
  class FlagVariable {
    var flag: Flag

    constructor()
      ensures flag == Flag.Default() && !flag.Any()
    {
      flag := Flag.Default();
      NonZeroHas(0);
    }

    /** `operator=(EnumType)` */
    method Assign(value: EnumValue)
      modifies this
      ensures flag == Flag(value)
    {
      flag := Flag(value);
    }

    /** `operator|=` */
    method OrAssign(other: Flag)
      modifies this
      ensures flag == old(flag).Or(other)
      ensures flag.TestAll(other) && flag.TestAll(old(flag))
    {
      flag := Flag(OrBits(flag.value, other.value));
    }

    /** `operator&=` */
    method AndAssign(other: Flag)
      modifies this
      ensures flag == old(flag).And(other)
      ensures other.TestAll(flag) && old(flag).TestAll(flag)
    {
      flag := Flag(AndBits(flag.value, other.value));
    }

    /** `operator^=` */
    method XorAssign(other: Flag)
      modifies this
      ensures flag == old(flag).Xor(other)
    {
      flag := Flag(XorBits(flag.value, other.value));
    }
  }

  /** A default flag is empty. */
  lemma DefaultIsEmpty()
    ensures Flag.Default().value == 0 && !Flag.Default().Any()
  {
    NonZeroHas(0);
  }

  /** After OR-ing in a non-zero value, testing for it succeeds. */
  lemma OrThenTest(x: Flag, f: EnumValue)
    requires f != 0
    ensures x.Or(Flag(f)).Test(f)
  {
    NonZeroHas(f);
    var i: nat :| Has(f, i);
    assert Has(x.Or(Flag(f)).value, i);
  }

  /** AND-ing with a value never leaves bits outside that value. */
  lemma AndWithin(x: Flag, f: Flag)
    ensures f.TestAll(x.And(f))
  {
  }

  /** Every flag contains itself. */
  lemma TestAllSelf(x: Flag)
    ensures x.TestAll(x)
  {
  }

  /** XOR-ing twice with the same flag restores the original. */
  lemma XorTwice(x: Flag, f: Flag)
    ensures x.Xor(f).Xor(f) == x
  {
    SameBits(x.Xor(f).Xor(f).value, x.value);
  }

  /** The free OR of two enum values is symmetric, and equals `Flag(lhs) | rhs`. */
  lemma EnumOrCommutes(lhs: EnumValue, rhs: EnumValue)
    ensures EnumOr(lhs, rhs) == EnumOr(rhs, lhs)
    ensures EnumOr(lhs, rhs) == EnumOrFlag(lhs, Flag(rhs))
  {
    SameBits(EnumOr(lhs, rhs).value, EnumOr(rhs, lhs).value);
  }

  /** Complementing twice restores the value. */
  lemma EnumNotTwice(value: EnumValue)
    ensures EnumNot(EnumNot(value)) == value
  {
    forall i: nat | 32 <= i
      ensures !Has(value, i)
    {
      Pow2Of32();
      BitBelow(value as nat, 32, i);
      assert !Has(value, i);
    }
    SameBits(EnumNot(EnumNot(value)), value);
  }
}
