// The 8-bit-per-channel colour of Code/Engine/Math/Color.hpp: the named colour
// table, packing into 0xAABBGGRR and (un)premultiplied alpha.
module Colors {
  import opened Types
  import opened Bits

  /** The named colours of `enum class Color`. */
  datatype Color =
    | Black | White | Gray | Silver
    | Red | Maroon | Pink | Crimson | Coral
    | Blue | Navy | Cyan | Teal | SkyBlue
    | Green | Lime | Olive | Emerald | Forest
    | Yellow | Orange | Gold | Amber
    | Purple | Violet | Magenta | Lavender
    | Brown | Beige | Tan | Chocolate
    | Transparent

  /** Bit positions of the channels in a packed colour. */
  const RShift: nat := 0
  const GShift: nat := 8
  const BShift: nat := 16
  const AShift: nat := 24

  /** The packed value of four channels, as an integer. */
  function PackedValue(r: u8, g: u8, b: u8, a: u8): int
  {
    a as int * 16777216 + b as int * 65536 + g as int * 256 + r as int
  }

  /** Channel `shift / 8` of a packed colour: `(p >> shift) & 0xFF`. */
  function Channel(p: u32, shift: nat): nat
  {
    And(Shr(p as nat, shift), 0xFF)
  }

  /** `(c * a + 127) / 255`: c scaled by a / 255, rounded to nearest. */
  function PreMulRound(c: int, a: int): (r: int)
    requires 0 <= c < 256 && 0 <= a < 256
    ensures 0 <= r <= c
    ensures c * a - 128 < 255 * r <= c * a + 127
  {
    PreMulRoundBounds(c, a);
    (c * a + 127) / 255
  }

  lemma PreMulRoundBounds(c: int, a: int)
    requires 0 <= c < 256 && 0 <= a < 256
    ensures 0 <= (c * a + 127) / 255 <= c
    ensures c * a - 128 < 255 * ((c * a + 127) / 255) <= c * a + 127
  {
    assert c * a <= c * 255 by { MulMono(c, a, 255); }
    var q := (c * a + 127) / 255;
    DivModUnique(c * a + 127, 255, q, (c * a + 127) % 255);
    if q > c {
      MulMono(255, c + 1, q);
    }
  }

  /** `((c * 255 * 255 + (a >> 1)) / a + 127) / 255`: c scaled by 255 / a with
      rounding, as the instance UnPreMulAlpha computes it before the cast to u8. */
  function UnPreMulRound(c: int, a: int): (r: int)
    requires 0 <= c < 256 && 0 < a < 256
    ensures r >= c
    ensures c <= a ==> r <= 255
  {
    UnPreMulRoundBounds(c, a);
    ((c * 65025 + a / 2) / a + 127) / 255
  }

  lemma UnPreMulRoundBounds(c: int, a: int)
    requires 0 <= c < 256 && 0 < a < 256
    ensures ((c * 65025 + a / 2) / a + 127) / 255 >= c
    ensures c <= a ==> ((c * 65025 + a / 2) / a + 127) / 255 <= 255
  {
    var x := c * 65025 + a / 2;
    assert a * (c * 255) <= x by { MulMono(c * 255, a, 255); }
    DivAtLeast(x, a, c * 255);
    var q := x / a;
    DivAtLeast(q + 127, 255, c);
    if c <= a {
      assert x < a * 65026 by { MulMono(65025, c, a); }
      DivAtMost(x, a, 65025);
      DivAtMost(q + 127, 255, 255);
    }
  }

  /** The static cast of an unsigned result to u8 keeps its low byte. */
  function ToU8(x: int): (r: u8)
    requires 0 <= x
    ensures x < 256 ==> r as int == x
  {
    (x % 256) as u8
  }

  /** The 0..255 colour `Color32`. */
  datatype Color32 = Color32(R: u8, G: u8, B: u8, A: u8)
  {
    /** The default-constructed colour. */
    static function Default(): (r: Color32)
      ensures r == FromColor(Color.Black)
      ensures r.PackU32() == 0xFF00_0000
    {
      Color32(0, 0, 0, 255)
    }

    static function White(): (r: Color32)
      ensures r == FromColor(Color.White)
    {
      Color32(255, 255, 255, 255)
    }
    static function Black(): (r: Color32)
      ensures r == FromColor(Color.Black)
    {
      Color32(0, 0, 0, 255)
    }
    static function Gray(): (r: Color32)
      ensures r == FromColor(Color.Gray)
    {
      Color32(128, 128, 128, 255)
    }
    static function Silver(): (r: Color32)
      ensures r == FromColor(Color.Silver)
    {
      Color32(192, 192, 192, 255)
    }
    static function Red(): (r: Color32)
      ensures r == FromColor(Color.Red)
    {
      Color32(255, 0, 0, 255)
    }
    static function Maroon(): (r: Color32)
      ensures r == FromColor(Color.Maroon)
    {
      Color32(128, 0, 0, 255)
    }
    static function Pink(): (r: Color32)
      ensures r == FromColor(Color.Pink)
    {
      Color32(255, 192, 203, 255)
    }
    static function Crimson(): (r: Color32)
      ensures r == FromColor(Color.Crimson)
    {
      Color32(220, 20, 60, 255)
    }
    static function Coral(): (r: Color32)
      ensures r == FromColor(Color.Coral)
    {
      Color32(255, 127, 80, 255)
    }
    static function Blue(): (r: Color32)
      ensures r == FromColor(Color.Blue)
    {
      Color32(0, 0, 255, 255)
    }
    static function Navy(): (r: Color32)
      ensures r == FromColor(Color.Navy)
    {
      Color32(0, 0, 128, 255)
    }
    static function Cyan(): (r: Color32)
      ensures r == FromColor(Color.Cyan)
    {
      Color32(0, 255, 255, 255)
    }
    static function Teal(): (r: Color32)
      ensures r == FromColor(Color.Teal)
    {
      Color32(0, 128, 128, 255)
    }
    static function SkyBlue(): (r: Color32)
      ensures r == FromColor(Color.SkyBlue)
    {
      Color32(135, 206, 235, 255)
    }
    static function Green(): (r: Color32)
      ensures r == FromColor(Color.Green)
    {
      Color32(0, 128, 0, 255)
    }
    static function Lime(): (r: Color32)
      ensures r == FromColor(Color.Lime)
    {
      Color32(0, 255, 0, 255)
    }
    static function Olive(): (r: Color32)
      ensures r == FromColor(Color.Olive)
    {
      Color32(128, 128, 0, 255)
    }
    static function Emerald(): (r: Color32)
      ensures r == FromColor(Color.Emerald)
    {
      Color32(80, 200, 120, 255)
    }
    static function Forest(): (r: Color32)
      ensures r == FromColor(Color.Forest)
    {
      Color32(34, 139, 34, 255)
    }
    static function Yellow(): (r: Color32)
      ensures r == FromColor(Color.Yellow)
    {
      Color32(255, 255, 0, 255)
    }
    static function Orange(): (r: Color32)
      ensures r == FromColor(Color.Orange)
    {
      Color32(255, 165, 0, 255)
    }
    static function Gold(): (r: Color32)
      ensures r == FromColor(Color.Gold)
    {
      Color32(255, 215, 0, 255)
    }
    static function Amber(): (r: Color32)
      ensures r == FromColor(Color.Amber)
    {
      Color32(255, 191, 0, 255)
    }
    static function Purple(): (r: Color32)
      ensures r == FromColor(Color.Purple)
    {
      Color32(128, 0, 128, 255)
    }
    static function Violet(): (r: Color32)
      ensures r == FromColor(Color.Violet)
    {
      Color32(143, 0, 255, 255)
    }
    static function Magenta(): (r: Color32)
      ensures r == FromColor(Color.Magenta)
    {
      Color32(255, 0, 255, 255)
    }
    static function Lavender(): (r: Color32)
      ensures r == FromColor(Color.Lavender)
    {
      Color32(230, 230, 250, 255)
    }
    static function Brown(): (r: Color32)
      ensures r == FromColor(Color.Brown)
    {
      Color32(165, 42, 42, 255)
    }
    static function Beige(): (r: Color32)
      ensures r == FromColor(Color.Beige)
    {
      Color32(245, 245, 220, 255)
    }
    static function Tan(): (r: Color32)
      ensures r == FromColor(Color.Tan)
    {
      Color32(210, 180, 140, 255)
    }
    static function Chocolate(): (r: Color32)
      ensures r == FromColor(Color.Chocolate)
    {
      Color32(210, 105, 30, 255)
    }
    static function Transparent(): (r: Color32)
      ensures r == FromColor(Color.Transparent)
    {
      Color32(0, 0, 0, 0)
    }

    /** `explicit Color32(Color)`: the switch over the named colours. */
    static function FromColor(c: Color): (r: Color32)
      ensures r.A == 0 <==> c == Color.Transparent
      ensures c != Color.Transparent ==> r.A == 255
    {
      match c
      case Black => Color32(0, 0, 0, 255)
      case White => Color32(255, 255, 255, 255)
      case Gray => Color32(128, 128, 128, 255)
      case Silver => Color32(192, 192, 192, 255)
      case Red => Color32(255, 0, 0, 255)
      case Maroon => Color32(128, 0, 0, 255)
      case Pink => Color32(255, 192, 203, 255)
      case Crimson => Color32(220, 20, 60, 255)
      case Coral => Color32(255, 127, 80, 255)
      case Blue => Color32(0, 0, 255, 255)
      case Navy => Color32(0, 0, 128, 255)
      case Cyan => Color32(0, 255, 255, 255)
      case Teal => Color32(0, 128, 128, 255)
      case SkyBlue => Color32(135, 206, 235, 255)
      case Green => Color32(0, 128, 0, 255)
      case Lime => Color32(0, 255, 0, 255)
      case Olive => Color32(128, 128, 0, 255)
      case Emerald => Color32(80, 200, 120, 255)
      case Forest => Color32(34, 139, 34, 255)
      case Yellow => Color32(255, 255, 0, 255)
      case Orange => Color32(255, 165, 0, 255)
      case Gold => Color32(255, 215, 0, 255)
      case Amber => Color32(255, 191, 0, 255)
      case Purple => Color32(128, 0, 128, 255)
      case Violet => Color32(143, 0, 255, 255)
      case Magenta => Color32(255, 0, 255, 255)
      case Lavender => Color32(230, 230, 250, 255)
      case Brown => Color32(165, 42, 42, 255)
      case Beige => Color32(245, 245, 220, 255)
      case Tan => Color32(210, 180, 140, 255)
      case Chocolate => Color32(210, 105, 30, 255)
      case Transparent => Color32(0, 0, 0, 0)
    }

    /** Static PackU32: `a << 24 | b << 16 | g << 8 | r << 0`. */
    static function PackChannels(r: u8, g: u8, b: u8, a: u8): (p: u32)
      ensures p as int == PackedValue(r, g, b, a)
    {
      PackIsSum(r, g, b, a);
      Or(Or(Or(Shl(a as nat, AShift), Shl(b as nat, BShift)), Shl(g as nat, GShift)),
         Shl(r as nat, RShift)) as u32
    }

    /** Instance PackU32. */
    function PackU32(): (p: u32)
      ensures p == PackChannels(R, G, B, A)
      ensures p as int == PackedValue(R, G, B, A)
    {
      PackChannels(R, G, B, A)
    }

    /** Static PreMulAlpha of one channel. */
    static function PreMulChannel(color: u8, alpha: u8): (r: u8)
      ensures alpha == 0 ==> r == 0
      ensures alpha == 255 ==> r == color
      ensures r <= color
      ensures color as int * alpha as int - 128 < 255 * r as int <= color as int * alpha as int + 127
    {
      if alpha == 0 then 0
      else if alpha == 255 then color
      else PreMulRound(color as int, alpha as int) as u8
    }

    /** Instance PreMulAlpha as written: the blue channel is computed from G. */
    function PreMulAlpha(): (r: Color32)
      ensures A == 0 ==> r == Color32(0, 0, 0, 0)
      ensures A == 255 ==> r == this
      ensures r.A == A && r.R == PreMulChannel(R, A) && r.G == PreMulChannel(G, A)
      ensures 0 < A < 255 ==> r.B == PreMulChannel(G, A)
    {
      if A == 0 then Color32(0, 0, 0, 0)
      else if A == 255 then this
      else
        Color32(PreMulRound(R as int, A as int) as u8, PreMulRound(G as int, A as int) as u8,
                PreMulRound(G as int, A as int) as u8, A)
    }

    /** Instance PreMulAlpha with the blue channel computed from B. */
    function PreMulAlphaFixed(): (r: Color32)
      ensures r == Color32(PreMulChannel(R, A), PreMulChannel(G, A), PreMulChannel(B, A), A)
      ensures r.R <= R && r.G <= G && r.B <= B
    {
      if A == 0 then Color32(0, 0, 0, 0)
      else if A == 255 then this
      else
        Color32(PreMulRound(R as int, A as int) as u8, PreMulRound(G as int, A as int) as u8,
                PreMulRound(B as int, A as int) as u8, A)
    }

    /** Instance UnPreMulAlpha. */
    function UnPreMulAlpha(): (r: Color32)
      ensures A == 0 ==> r == Color32(0, 0, 0, 0)
      ensures A == 255 ==> r == this
      ensures r.A == A
      ensures r == Color32(UnPreMulChannelFixed(R, A), UnPreMulChannelFixed(G, A),
                           UnPreMulChannelFixed(B, A), A)
    {
      if A == 0 then Color32(0, 0, 0, 0)
      else if A == 255 then this
      else
        Color32(ToU8(UnPreMulRound(R as int, A as int)), ToU8(UnPreMulRound(G as int, A as int)),
                ToU8(UnPreMulRound(B as int, A as int)), A)
    }

    /** Static UnPreMulAlpha as written: `(alpha >> 1) / alpha` binds before the
        addition, so the rounded division by alpha never happens. */
    static function UnPreMulChannel(color: u8, alpha: u8): (r: u8)
      ensures alpha == 0 ==> r == 0
      ensures alpha == 255 ==> r == color
      ensures 0 < alpha < 255 ==> r as int == (256 - color as int) % 256
    {
      if alpha == 0 then 0
      else if alpha == 255 then color
      else
        var c, a := color as int, alpha as int;
        UnPreMulPrecedence(c, a);
        ToU8((c * 65025 + (a / 2) / a + 127) / 255)
    }

    /** Static UnPreMulAlpha computed as the instance form does. */
    static function UnPreMulChannelFixed(color: u8, alpha: u8): (r: u8)
      ensures alpha == 0 ==> r == 0
      ensures alpha == 255 ==> r == color
      ensures color <= alpha ==> r >= color
    {
      if alpha == 0 then 0
      else if alpha == 255 then color
      else ToU8(UnPreMulRound(color as int, alpha as int))
    }
  }

  /** Without the rounded division the result is `c * 255`, whose low byte is
      `256 - c` for a non-zero c. */
  lemma UnPreMulPrecedence(c: int, a: int)
    requires 0 <= c < 256 && 0 < a < 255
    ensures (c * 65025 + (a / 2) / a + 127) / 255 == c * 255
    ensures (c * 255) % 256 == (256 - c) % 256
  {
    assert (a / 2) / a == 0;
    DivModUnique(c * 65025 + 127, 255, c * 255, 127);
    if c > 0 {
      DivModUnique(c * 255, 256, c - 1, 256 - c);
    }
  }

  /** A byte joined below a shifted value: `hi << (k + 8) | lo << k`. */
  lemma ShiftJoin(hi: nat, lo: nat, k: nat)
    requires lo < 256
    ensures Or(Shl(hi, k + 8), Shl(lo, k)) == Shl(hi * 256 + lo, k)
  {
    Byte(hi);
    ShlAdd(hi, 8, k);
    OrShl(Shl(hi, 8), lo, k);
    OrBelow(hi, lo, 8);
  }

  /** `PackU32` really places the channels at bits 0, 8, 16 and 24. */
  lemma PackIsSum(r: u8, g: u8, b: u8, a: u8)
    ensures Or(Or(Or(Shl(a as nat, AShift), Shl(b as nat, BShift)), Shl(g as nat, GShift)),
               Shl(r as nat, RShift)) == PackedValue(r, g, b, a)
  {
    var x := a as nat * 256 + b as nat;
    var y := x * 256 + g as nat;
    ShiftJoin(a as nat, b as nat, 16);
    ShiftJoin(x, g as nat, 8);
    ShiftJoin(y, r as nat, 0);
  }

  /** A channel is the byte of the packed value at its shift. */
  lemma ChannelIsByte(p: u32, s: nat)
    ensures Channel(p, s) == p as nat / Pow2(s) % 256
  {
    Pow2Values();
    LowMaskPow2(8);
    AndLowMask(Shr(p as nat, s), 8);
    ShrDiv(Shr(p as nat, s), 8);
    ShrDiv(p as nat, s);
  }

  /** Extracting each byte of a packed colour recovers its channel. */
  lemma PackRoundTrip(c: Color32)
    ensures Channel(c.PackU32(), RShift) == c.R as nat
    ensures Channel(c.PackU32(), GShift) == c.G as nat
    ensures Channel(c.PackU32(), BShift) == c.B as nat
    ensures Channel(c.PackU32(), AShift) == c.A as nat
  {
    Pow2Values();
    ChannelIsByte(c.PackU32(), RShift);
    ChannelIsByte(c.PackU32(), GShift);
    ChannelIsByte(c.PackU32(), BShift);
    ChannelIsByte(c.PackU32(), AShift);
    PackedBytes(c.R as int, c.G as int, c.B as int, c.A as int);
  }

  /** The bytes of a packed value, as quotients and remainders. */
  lemma PackedBytes(r: int, g: int, b: int, a: int)
    requires 0 <= r < 256 && 0 <= g < 256 && 0 <= b < 256 && 0 <= a < 256
    ensures var p := a * 16777216 + b * 65536 + g * 256 + r;
      p / 1 % 256 == r && p / 256 % 256 == g && p / 65536 % 256 == b && p / 16777216 % 256 == a
  {
    var p := a * 16777216 + b * 65536 + g * 256 + r;
    DivModUnique(p, 256, a * 65536 + b * 256 + g, r);
    DivModUnique(p, 65536, a * 256 + b, g * 256 + r);
    DivModUnique(p, 16777216, a, b * 65536 + g * 256 + r);
    DivModUnique(a * 65536 + b * 256 + g, 256, a * 256 + b, g);
    DivModUnique(a * 256 + b, 256, a, b);
    DivModUnique(a, 256, 0, a);
  }

  /** The switch of `Color32(Color)` and the named static colours agree: neutral colours. */
  lemma FromColorNeutrals()
    ensures Color32.FromColor(Color.Black) == Color32.Black()
    ensures Color32.FromColor(Color.White) == Color32.White()
    ensures Color32.FromColor(Color.Gray) == Color32.Gray()
    ensures Color32.FromColor(Color.Silver) == Color32.Silver()
    ensures Color32.FromColor(Color.Brown) == Color32.Brown()
    ensures Color32.FromColor(Color.Beige) == Color32.Beige()
    ensures Color32.FromColor(Color.Tan) == Color32.Tan()
    ensures Color32.FromColor(Color.Chocolate) == Color32.Chocolate()
    ensures Color32.FromColor(Color.Transparent) == Color32.Transparent()
  {
  }

  /** The switch of `Color32(Color)` and the named static colours agree: reds and yellows. */
  lemma FromColorWarm()
    ensures Color32.FromColor(Color.Red) == Color32.Red()
    ensures Color32.FromColor(Color.Maroon) == Color32.Maroon()
    ensures Color32.FromColor(Color.Pink) == Color32.Pink()
    ensures Color32.FromColor(Color.Crimson) == Color32.Crimson()
    ensures Color32.FromColor(Color.Coral) == Color32.Coral()
    ensures Color32.FromColor(Color.Yellow) == Color32.Yellow()
    ensures Color32.FromColor(Color.Orange) == Color32.Orange()
    ensures Color32.FromColor(Color.Gold) == Color32.Gold()
    ensures Color32.FromColor(Color.Amber) == Color32.Amber()
  {
  }

  /** The switch of `Color32(Color)` and the named static colours agree: blues and greens. */
  lemma FromColorCool()
    ensures Color32.FromColor(Color.Blue) == Color32.Blue()
    ensures Color32.FromColor(Color.Navy) == Color32.Navy()
    ensures Color32.FromColor(Color.Cyan) == Color32.Cyan()
    ensures Color32.FromColor(Color.Teal) == Color32.Teal()
    ensures Color32.FromColor(Color.SkyBlue) == Color32.SkyBlue()
    ensures Color32.FromColor(Color.Green) == Color32.Green()
    ensures Color32.FromColor(Color.Lime) == Color32.Lime()
    ensures Color32.FromColor(Color.Olive) == Color32.Olive()
    ensures Color32.FromColor(Color.Emerald) == Color32.Emerald()
    ensures Color32.FromColor(Color.Forest) == Color32.Forest()
  {
  }

  /** The switch of `Color32(Color)` and the named static colours agree: purples. */
  lemma FromColorPurples()
    ensures Color32.FromColor(Color.Purple) == Color32.Purple()
    ensures Color32.FromColor(Color.Violet) == Color32.Violet()
    ensures Color32.FromColor(Color.Magenta) == Color32.Magenta()
    ensures Color32.FromColor(Color.Lavender) == Color32.Lavender()
  {
  }

  /** The default colour is opaque black. */
  lemma DefaultIsOpaqueBlack()
    ensures Color32.Default() == Color32.Black() && Color32.Default().A == 255
  {
  }

  /** As written, the instance PreMulAlpha of opaque-ish green gets a blue channel. */
  lemma PreMulAlphaBlueFromGreen()
    ensures Color32(0, 255, 0, 128).PreMulAlpha() == Color32(0, 128, 128, 128)
    ensures Color32(0, 255, 0, 128).PreMulAlphaFixed() == Color32(0, 128, 0, 128)
  {
  }

  /** As written, the static UnPreMulAlpha of a half-transparent channel 100 gives
      156, where the instance form gives 199 (about 100 * 255 / 128). */
  lemma UnPreMulChannelPrecedence()
    ensures Color32.UnPreMulChannel(100, 128) == 156
    ensures Color32.UnPreMulChannelFixed(100, 128) == 199
  {
  }
}
