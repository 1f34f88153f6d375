/** Colours and their `#...` hexadecimal escape value (src/color.rs). */
module Colors {

  import opened Optional

  /** An unsigned 8-bit channel. */
  type Byte = x: int | 0 <= x < 256

  /** A colour. The fields are in the order the source's tuple stores them:
      red, green, blue, alpha. */
  datatype Color = Color(red: Byte, green: Byte, blue: Byte, alpha: Byte)

  /** A colour with all four channels given. */
  function Rgba(red: Byte, green: Byte, blue: Byte, alpha: Byte): (c: Color)
    ensures c.red == red && c.green == green && c.blue == blue && c.alpha == alpha
  {
    Color(red, green, blue, alpha)
  }

  /** A fully opaque colour. */
  function Rgb(red: Byte, green: Byte, blue: Byte): (c: Color)
    ensures c == Rgba(red, green, blue, 255)
  {
    Color(red, green, blue, 255)
  }

  // ---------------------------------------------------------------------------
  // Hexadecimal digits

  /** A lower-case hexadecimal digit. */
  predicate IsHexDigit(ch: char) {
    ('0' <= ch <= '9') || ('a' <= ch <= 'f')
  }

  predicate AllHexDigits(s: string) {
    forall i :: 0 <= i < |s| ==> IsHexDigit(s[i])
  }

  /** The numeric value of a hexadecimal digit. */
  function DigitValue(ch: char): (d: nat)
    requires IsHexDigit(ch)
    ensures d < 16
  {
    if ch <= '9' then ch as int - '0' as int else ch as int - 'a' as int + 10
  }

  /** The lower-case digit for a value below 16. */
  function DigitChar(d: nat): (ch: char)
    requires d < 16
    ensures IsHexDigit(ch)
    ensures DigitValue(ch) == d
  {
    if d < 10 then ('0' as int + d) as char else ('a' as int + d - 10) as char
  }

  /** The value of a string of hexadecimal digits, most significant first. */
  function HexValue(s: string): nat
    requires AllHexDigits(s)
  {
    if s == [] then 0 else HexValue(s[..|s| - 1]) * 16 + DigitValue(s[|s| - 1])
  }

  /** Digit and value are inverse to each other on the digit side too. */
  lemma DigitCharOfValue(ch: char)
    requires IsHexDigit(ch)
    ensures DigitChar(DigitValue(ch)) == ch
  {
  }

  lemma HexValueOfTwo(s: string)
    requires |s| == 2 && AllHexDigits(s)
    ensures HexValue(s) == DigitValue(s[0]) * 16 + DigitValue(s[1])
  {
    var head := s[..1];
    assert head[..0] == [];
    assert HexValue(head) == DigitValue(s[0]);
  }

  // ---------------------------------------------------------------------------
  // One channel

  /** A byte in lower-case hexadecimal without leading zeros, the way Rust's
      `{:x}` formats an integer: one digit below 16, two digits otherwise. */
  function LowerHex(b: Byte): (s: string)
    ensures |s| == (if b < 16 then 1 else 2)
  {
    if b < 16 then [DigitChar(b)] else [DigitChar(b / 16), DigitChar(b % 16)]
  }

  /** `LowerHex` writes only digits, never a leading zero, and spells `b`. */
  lemma LowerHexDigits(b: Byte)
    ensures AllHexDigits(LowerHex(b))
    ensures |LowerHex(b)| == 2 ==> LowerHex(b)[0] != '0'
    ensures HexValue(LowerHex(b)) == b
  {
    var s := LowerHex(b);
    if b < 16 {
      assert s[..0] == [];
    } else {
      HexValueOfTwo(s);
    }
  }

  /** A byte as exactly two lower-case hexadecimal digits (Rust's `{:02x}`). */
  function PaddedHex(b: Byte): (s: string)
    ensures |s| == 2
    ensures AllHexDigits(s)
    ensures HexValue(s) == b
  {
    var s := [DigitChar(b / 16), DigitChar(b % 16)];
    HexValueOfTwo(s);
    s
  }

  /** The two forms agree on every byte that needs two digits anyway. */
  lemma LowerHexIsPaddedWhenWide(b: Byte)
    requires b >= 16
    ensures LowerHex(b) == PaddedHex(b)
  {
  }

  // ---------------------------------------------------------------------------
  // The colour escape value

  /** True when every channel is at least 16, so that `{:x}` writes two digits for each. */
  predicate IsWide(c: Color) {
    c.alpha >= 16 && c.red >= 16 && c.green >= 16 && c.blue >= 16
  }

  /** The colour's escape value as the source writes it: `#`, then alpha, red,
      green and blue, each through `{:x}`. */
  function ToText(c: Color): (s: string)
    ensures 5 <= |s| <= 9 && s[0] == '#'
    ensures |s| == 9 <==> IsWide(c)
  {
    "#" + LowerHex(c.alpha) + LowerHex(c.red) + LowerHex(c.green) + LowerHex(c.blue)
  }

  /** After the `#` come the `{:x}` digits of alpha, red, green and blue, in
      that order, whatever their widths. */
  lemma ToTextChannels(c: Color)
    ensures ToText(c)[1..] == LowerHex(c.alpha) + LowerHex(c.red) + LowerHex(c.green) + LowerHex(c.blue)
  {
  }

  /** After the `#`, the escape value holds only hexadecimal digits. */
  lemma ToTextDigits(c: Color)
    ensures AllHexDigits(ToText(c)[1..])
  {
    LowerHexDigits(c.alpha);
    LowerHexDigits(c.red);
    LowerHexDigits(c.green);
    LowerHexDigits(c.blue);
    ToTextChannels(c);
  }

  /** The `#aarrggbb` value the source's documentation promises. */
  function ToTextPadded(c: Color): (s: string)
    ensures |s| == 9
    ensures s[0] == '#' && AllHexDigits(s[1..])
  {
    "#" + PaddedHex(c.alpha) + PaddedHex(c.red) + PaddedHex(c.green) + PaddedHex(c.blue)
  }

  /** Reads a `#aarrggbb` value back into a colour; any other string is rejected. */
  function DecodeColor(s: string): (r: Option<Color>)
    ensures r.Some? <==> |s| == 9 && s[0] == '#' && AllHexDigits(s[1..])
  {
    if |s| == 9 && s[0] == '#' && AllHexDigits(s[1..]) then
      Some(Color(red := Channel(s, 3), green := Channel(s, 5), blue := Channel(s, 7), alpha := Channel(s, 1)))
    else
      None
  }

  /** The byte spelled by the two digits at `s[i]` and `s[i + 1]`. */
  function Channel(s: string, i: nat): (b: Byte)
    requires i + 2 <= |s| && AllHexDigits(s[i..i + 2])
    ensures b == HexValue(s[i..i + 2])
  {
    HexValueOfTwo(s[i..i + 2]);
    DigitValue(s[i]) * 16 + DigitValue(s[i + 1])
  }

  /** The documented format round-trips for every colour. */
  lemma DecodePadded(c: Color)
    ensures DecodeColor(ToTextPadded(c)) == Some(c)
  {
    var a, r, g, b := PaddedHex(c.alpha), PaddedHex(c.red), PaddedHex(c.green), PaddedHex(c.blue);
    var s := ToTextPadded(c);
    assert s[1] == a[0] && s[2] == a[1];
    assert s[3] == r[0] && s[4] == r[1];
    assert s[5] == g[0] && s[6] == g[1];
    assert s[7] == b[0] && s[8] == b[1];
    HexValueOfTwo(a);
    HexValueOfTwo(r);
    HexValueOfTwo(g);
    HexValueOfTwo(b);
  }

  /** The documented format is injective. */
  lemma PaddedInjective(c: Color, d: Color)
    ensures ToTextPadded(c) == ToTextPadded(d) <==> c == d
  {
    if ToTextPadded(c) == ToTextPadded(d) {
      DecodePadded(c);
      DecodePadded(d);
    }
  }

  /** When every channel is at least 16 the written value is the documented one. */
  lemma ToTextIsPaddedWhenWide(c: Color)
    requires IsWide(c)
    ensures ToText(c) == ToTextPadded(c)
  {
    LowerHexIsPaddedWhenWide(c.alpha);
    LowerHexIsPaddedWhenWide(c.red);
    LowerHexIsPaddedWhenWide(c.green);
    LowerHexIsPaddedWhenWide(c.blue);
  }

  /** The written value decodes back to the colour exactly when every channel
      is at least 16; otherwise it is shorter than nine characters. */
  lemma DecodeToText(c: Color)
    ensures DecodeColor(ToText(c)) == Some(c) <==> IsWide(c)
  {
    ToTextDigits(c);
    if IsWide(c) {
      ToTextIsPaddedWhenWide(c);
      DecodePadded(c);
    }
  }

  /** The alpha digits of an opaque colour are `ff`. */
  lemma RgbIsOpaque(red: Byte, green: Byte, blue: Byte)
    ensures ToText(Rgb(red, green, blue))[1..3] == "ff"
  {
    var s := ToText(Rgb(red, green, blue));
    assert s[1..3] == LowerHex(255);
  }

  /** Two different colours with a channel below 16 are written identically:
      "#1" + "11" + "22" + "33" and "#11" + "1" + "22" + "33". */
  lemma ShortChannelsCollide()
    ensures Rgba(0x11, 0x22, 0x33, 0x1) != Rgba(0x1, 0x22, 0x33, 0x11)
    ensures ToText(Rgba(0x11, 0x22, 0x33, 0x1)) == "#1112233"
    ensures ToText(Rgba(0x1, 0x22, 0x33, 0x11)) == "#1112233"
  {
  }

  /** The fully transparent black is written with five characters, not nine. */
  lemma TransparentBlackIsShort()
    ensures ToText(Rgba(0, 0, 0, 0)) == "#0000"
  {
  }

  lemma RgbaScenario()
    ensures ToText(Rgba(24, 24, 24, 0x88)) == "#88181818"
  {
  }

  lemma RgbScenario()
    ensures ToText(Rgb(24, 24, 24)) == "#ff181818"
  {
  }
}
