/**
 * src/myconfig.rs: `color_fromi32`, which reads a colour configured as a 32-bit integer
 * `0x??RRGGBB`. The cast, shifts and masks act on a non-negative value below 2^32, so they
 * are written as integer arithmetic: `v >> n` is `v / 2^n` and `v & 0xFF` is `v % 0x100`.
 */
module Config {
  import opened MidiEvents

  type I32 = x: int | I32_MIN <= x <= I32_MAX
  type U32 = x: int | 0 <= x < 0x1_0000_0000
  type U8 = x: int | 0 <= x < 0x100

  /** An SDL colour. */
  datatype Color = RGB(r: U8, g: U8, b: U8)

  /** Rust's `x as u32` on an i32: the same 32 bits read unsigned, so a negative value gains
      2^32. */
  function AsU32(x: I32): (u: U32)
    ensures x >= 0 ==> u == x
    ensures x < 0 ==> u == x + 0x1_0000_0000
  {
    x % 0x1_0000_0000
  }

  /** `(v >> shift) & 0xFF`. */
  function Byte(v: U32, shift: nat): (b: U8)
    requires shift == 0 || shift == 8 || shift == 16
  {
    var shifted := if shift == 16 then v / 0x1_0000 else if shift == 8 then v / 0x100 else v;
    shifted % 0x100
  }

  /** `color_fromi32`: red is bits 16..23, green bits 8..15 and blue bits 0..7 of `x as u32`
      (in `color >> 16 & 0xFF` the shift binds tighter than the mask). */
  function ColorFromI32(x: I32): (c: Color)
    ensures c.b == x % 0x100
    ensures c.g * 0x100 + c.b == x % 0x1_0000
    ensures c.r * 0x1_0000 + c.g * 0x100 + c.b == x % 0x100_0000
  {
    var color := AsU32(x);
    SplitLow(color);
    SplitHigh(color);
    WrapKeepsLowBits(x);
    RGB(Byte(color, 16), Byte(color, 8), Byte(color, 0))
  }

  /** Adding 2^32 does not change the low 24 bits. */
  lemma WrapKeepsLowBits(x: I32)
    ensures AsU32(x) % 0x100_0000 == x % 0x100_0000
    ensures AsU32(x) % 0x1_0000 == x % 0x1_0000
    ensures AsU32(x) % 0x100 == x % 0x100
  {
  }

  lemma SplitLow(u: U32)
    ensures u / 0x100 % 0x100 * 0x100 + u % 0x100 == u % 0x1_0000
  {
    var q, r := u / 0x1_0000, u % 0x1_0000;
    assert u / 0x100 == q * 0x100 + r / 0x100;
    assert u % 0x100 == r % 0x100;
  }

  lemma SplitHigh(u: U32)
    ensures u / 0x1_0000 % 0x100 * 0x1_0000 + u % 0x1_0000 == u % 0x100_0000
  {
    var q, r := u / 0x100_0000, u % 0x100_0000;
    assert u / 0x1_0000 == q * 0x100 + r / 0x1_0000;
    assert u % 0x1_0000 == r % 0x1_0000;
  }

  /** The integer a colour is configured as: `0x00RRGGBB`. */
  function ColorToI32(c: Color): (x: I32)
    ensures 0 <= x < 0x100_0000
  {
    c.r * 0x1_0000 + c.g * 0x100 + c.b
  }

  /** Decoding the configured integer of a colour gives that colour back. */
  lemma ColorRoundTrip(c: Color)
    ensures ColorFromI32(ColorToI32(c)) == c
  {
    var x := ColorToI32(c);
    var d := ColorFromI32(x);
    assert x % 0x100 == c.b by {
      var k := x / 0x100 - (c.r * 0x100 + c.g);
      assert k * 0x100 == c.b - x % 0x100;
      assert k == 0;
    }
    assert x % 0x1_0000 == c.g * 0x100 + c.b by {
      var k := x / 0x1_0000 - c.r;
      assert k * 0x1_0000 == c.g * 0x100 + c.b - x % 0x1_0000;
      assert k == 0;
    }
    assert d.b == c.b;
    assert d.g == c.g;
    assert d.r == c.r;
  }

  /** Bits 24..31, the sign bit among them, are ignored: integers that agree on their low
      24 bits decode to the same colour. */
  lemma HighByteIgnored(x: I32, y: I32)
    requires x % 0x100_0000 == y % 0x100_0000
    ensures ColorFromI32(x) == ColorFromI32(y)
  {
    var cx, cy := ColorFromI32(x), ColorFromI32(y);
    Low16OfLow24(x);
    Low16OfLow24(y);
    Low8OfLow16(x);
    Low8OfLow16(y);
    assert cx.b == cy.b;
    assert cx.g == cy.g;
    assert cx.r == cy.r;
  }

  /** The low 16 bits of the low 24 bits are the low 16 bits. */
  lemma Low16OfLow24(x: int)
    ensures x % 0x100_0000 % 0x1_0000 == x % 0x1_0000
  {
    var r := x % 0x100_0000;
    var d := x / 0x100_0000 * 0x100 + r / 0x1_0000 - x / 0x1_0000;
    assert d * 0x1_0000 == x % 0x1_0000 - r % 0x1_0000;
    assert d == 0;
  }

  /** The low 8 bits of the low 16 bits are the low 8 bits. */
  lemma Low8OfLow16(x: int)
    ensures x % 0x1_0000 % 0x100 == x % 0x100
  {
    var r := x % 0x1_0000;
    var d := x / 0x1_0000 * 0x100 + r / 0x100 - x / 0x100;
    assert d * 0x100 == x % 0x100 - r % 0x100;
    assert d == 0;
  }

  /** A negative configured value decodes as its two's complement bit pattern: -1 is white. */
  lemma MinusOneIsWhite()
    ensures ColorFromI32(-1) == RGB(255, 255, 255)
  {
  }
}
