/** The colour arithmetic of the Lego-style link button: `darkenColor` and
    `lightenColor` read a `#RRGGBB` colour as one number, take its three
    8-bit channels, move each by the same amount with clamping, and write
    the result back as `#` and six hex digits. The amount is the rounded
    `2.55 * percent` of the source, taken here as a whole number `d`. */
module LegoButton {
  import opened Base
  import opened Text
  import opened Hex

  /** The button's `size` prop. */
  datatype ButtonSize = Small | Medium | Large

  /** The padding and font size a size selects. */
  datatype SizeStyle = SizeStyle(padding: string, fontSize: string)

  /** The props' defaults. */
  const DefaultColor: string := "#FF6B35"
  const DefaultSize: ButtonSize := Medium

  /** `sizeStyles[size]` */
  function StyleOf(size: ButtonSize): SizeStyle
  {
    match size
    case Small => SizeStyle("8px 20px", "0.875rem")
    case Medium => SizeStyle("12px 32px", "1rem")
    case Large => SizeStyle("16px 40px", "1.125rem")
  }

  /** The padding and font size of each size, and the default size. */
  lemma SizeStyles()
    ensures StyleOf(Small) == SizeStyle("8px 20px", "0.875rem")
    ensures StyleOf(Medium) == SizeStyle("12px 32px", "1rem")
    ensures StyleOf(Large) == SizeStyle("16px 40px", "1.125rem")
    ensures DefaultSize == Medium
  {
  }

  /** Each size has its own padding and its own font size. */
  lemma StylesDistinct(a: ButtonSize, b: ButtonSize)
    requires a != b
    ensures StyleOf(a).padding != StyleOf(b).padding
    ensures StyleOf(a).fontSize != StyleOf(b).fontSize
  {
    assert StyleOf(Small).padding[0] == '8';
    assert StyleOf(Medium).padding[1] == '2' && StyleOf(Large).padding[1] == '6';
    assert |StyleOf(Medium).fontSize| == 4 && |StyleOf(Small).fontSize| == 8;
    assert StyleOf(Large).fontSize[3] == '2';
  }

  /** `parseInt(s, 16)`: leading white space is skipped, then an optional
      sign, then an optional `0x`/`0X`; the value is that of the longest run
      of hex digits that follows, and `None` (NaN) when there is none. */
  function ParseInt16(s: string): (r: Option<int>)
    ensures AllHex(s) && s != [] ==> r == Some(HexValue(s))
    ensures s == [] ==> r.None?
  {
    var t := s[LeadingSpace(s)..];
    var negative := t != [] && t[0] == '-';
    var u := if t != [] && (t[0] == '-' || t[0] == '+') then t[1..] else t;
    var v := if |u| >= 2 && u[0] == '0' && (u[1] == 'x' || u[1] == 'X') then u[2..] else u;
    assert AllHex(s) && s != [] ==> LeadingSpace(s) == 0 && t == s && u == s && v == s;
    match ParseHex(v)
    case None => None
    case Some(n) => Some(if negative then -(n as int) else n)
  }

  /** The 32-bit pattern the shift operators see: `ToInt32` of the parsed
      number, with NaN read as 0, as an unsigned bit pattern. */
  function Bits(color: string): (b: nat)
    ensures b < 0x1_0000_0000
  {
    var n := ParseInt16(RemoveFirst(color, '#')).GetOr(0);
    n % 0x1_0000_0000
  }

  /** The three channels of a colour. */
  datatype Rgb = Rgb(r: nat, g: nat, b: nat)
  {
    predicate InRange()
    {
      r < 256 && g < 256 && b < 256
    }

    /** `(r << 16) | (g << 8) | b`: the channels do not overlap, so the
        bitwise or is a sum. */
    function Packed(): (n: nat)
      requires InRange()
      ensures n < 0x100_0000
    {
      r * 0x1_0000 + g * 0x100 + b
    }
  }

  /** `(num >> 16) & 0xff`, `(num >> 8) & 0xff` and `num & 0xff`: bits 16-23,
      8-15 and 0-7 of the pattern. */
  function Channels(color: string): (c: Rgb)
    ensures c.InRange()
  {
    var n := Bits(color);
    Rgb(n / 0x1_0000 % 0x100, n / 0x100 % 0x100, n % 0x100)
  }

  /** `Math.max(0, c - d)` */
  function Darken(c: nat, d: nat): (r: nat)
    ensures r <= c && (r == 0 || r == c - d)
    ensures c >= d ==> r + d == c
  {
    if c >= d then c - d else 0
  }

  /** `Math.min(255, c + d)` */
  function Lighten(c: nat, d: nat): (r: nat)
    requires c < 256
    ensures c <= r < 256 && (r == 255 || r == c + d)
    ensures c + d <= 255 ==> r == c + d
  {
    if c + d <= 255 then c + d else 255
  }

  /** `#${packed.toString(16).padStart(6, "0")}` */
  function Encode(c: Rgb): (s: string)
    requires c.InRange()
    ensures |s| == 7 && s[0] == '#' && AllHex(s[1..])
  {
    var digits := ToHex(c.Packed());
    ToHexLength(c.Packed(), 6);
    var s := "#" + PadStart(digits, 6, '0');
    assert s[1..] == PadStart(digits, 6, '0');
    s
  }

  /** `darkenColor(color, percent)` with `d` the rounded amount. */
  function DarkenColor(color: string, d: nat): (s: string)
    ensures |s| == 7 && s[0] == '#' && AllHex(s[1..])
  {
    var c := Channels(color);
    Encode(Rgb(Darken(c.r, d), Darken(c.g, d), Darken(c.b, d)))
  }

  /** `lightenColor(color, percent)` with `d` the rounded amount. */
  function LightenColor(color: string, d: nat): (s: string)
    ensures |s| == 7 && s[0] == '#' && AllHex(s[1..])
  {
    var c := Channels(color);
    Encode(Rgb(Lighten(c.r, d), Lighten(c.g, d), Lighten(c.b, d)))
  }

  /** Division by 0x100 of a number written as a quotient and a remainder. */
  lemma DivOfSum8(q: int, rem: int)
    requires 0 <= rem < 0x100
    ensures (q * 0x100 + rem) / 0x100 == q && (q * 0x100 + rem) % 0x100 == rem
  {
  }

  /** Division by 0x1_0000 of a number written as a quotient and a remainder. */
  lemma DivOfSum16(q: int, rem: int)
    requires 0 <= rem < 0x1_0000
    ensures (q * 0x1_0000 + rem) / 0x1_0000 == q && (q * 0x1_0000 + rem) % 0x1_0000 == rem
  {
  }

  /** Packed channels read back as themselves. */
  lemma UnpackPacked(c: Rgb)
    requires c.InRange()
    ensures var n := c.Packed();
      n / 0x1_0000 % 0x100 == c.r && n / 0x100 % 0x100 == c.g && n % 0x100 == c.b
  {
    var n := c.Packed();
    DivOfSum16(c.r, c.g * 0x100 + c.b);
    DivOfSum8(c.r * 0x100 + c.g, c.b);
    DivOfSum8(0, c.r);
    DivOfSum8(c.r, c.g);
  }

  /** The number behind an encoded colour is the packed channels. */
  lemma EncodedBits(c: Rgb)
    requires c.InRange()
    ensures Bits(Encode(c)) == c.Packed()
  {
    var s := Encode(c);
    var digits := ToHex(c.Packed());
    var padded := PadStart(digits, 6, '0');
    assert s == "#" + padded;
    assert IndexOf(s, '#') == 0;
    assert RemoveFirst(s, '#') == padded;
    var z := padded[..|padded| - |digits|];
    assert padded == z + digits;
    HexLeadingZeros(z, digits);
    HexRoundTrip(c.Packed());
    var n := c.Packed();
    assert ParseInt16(padded) == Some(n);
    assert ParseInt16(RemoveFirst(s, '#')).GetOr(0) == n;
    SmallPattern(n);
  }

  /** A number below 2^32 is its own 32-bit pattern. */
  lemma SmallPattern(n: nat)
    requires n < 0x1_0000_0000
    ensures n % 0x1_0000_0000 == n
  {
  }

  /** What `Encode` writes, the colour helpers read back as the same
      channels: the written colour is the computed one. */
  lemma EncodeRoundTrip(c: Rgb)
    requires c.InRange()
    ensures Channels(Encode(c)) == c
  {
    EncodedBits(c);
    UnpackPacked(c);
  }

  /** Darkening never raises a channel and lightening never lowers one; the
      channels of the result are exactly the clamped ones. */
  lemma DarkenLightenMonotone(color: string, d: nat)
    ensures var c, dark, light := Channels(color), Channels(DarkenColor(color, d)), Channels(LightenColor(color, d));
      && dark == Rgb(Darken(c.r, d), Darken(c.g, d), Darken(c.b, d))
      && light == Rgb(Lighten(c.r, d), Lighten(c.g, d), Lighten(c.b, d))
      && dark.r <= c.r && dark.g <= c.g && dark.b <= c.b
      && c.r <= light.r && c.g <= light.g && c.b <= light.b
  {
    var c := Channels(color);
    EncodeRoundTrip(Rgb(Darken(c.r, d), Darken(c.g, d), Darken(c.b, d)));
    EncodeRoundTrip(Rgb(Lighten(c.r, d), Lighten(c.g, d), Lighten(c.b, d)));
  }

  /** Bits 16-23, 8-15 and 0-7 of a number put back together are its low
      24 bits. */
  lemma Low24(n: nat)
    ensures (n / 0x1_0000 % 0x100) * 0x1_0000 + (n / 0x100 % 0x100) * 0x100 + n % 0x100 == n % 0x100_0000
  {
    var x, q := n % 0x100_0000, n / 0x100_0000;
    var a, r1 := x / 0x1_0000, x % 0x1_0000;
    var r2, c := r1 / 0x100, r1 % 0x100;
    assert x == a * 0x1_0000 + r1 && r1 == r2 * 0x100 + c;
    assert n == (q * 0x100 + a) * 0x1_0000 + r1;
    DivOfSum16(q * 0x100 + a, r1);
    DivOfSum8(q, a);
    assert n == ((q * 0x100 + a) * 0x100 + r2) * 0x100 + c;
    DivOfSum8((q * 0x100 + a) * 0x100 + r2, c);
    DivOfSum8(q * 0x100 + a, r2);
  }

  /** The three channels together are the low 24 bits of the pattern. */
  lemma ChannelsAreLow24(color: string)
    ensures Channels(color).Packed() == Bits(color) % 0x100_0000
  {
    Low24(Bits(color));
  }

  /** With a zero amount both helpers write back the colour's low 24 bits,
      and a colour they wrote comes back unchanged. */
  lemma ZeroAmount(color: string)
    ensures DarkenColor(color, 0) == LightenColor(color, 0) == Encode(Channels(color))
    ensures Bits(DarkenColor(color, 0)) == Bits(color) % 0x100_0000
    ensures forall c: Rgb :: c.InRange() && color == Encode(c) ==> DarkenColor(color, 0) == color
  {
    var c := Channels(color);
    assert Rgb(Darken(c.r, 0), Darken(c.g, 0), Darken(c.b, 0)) == c;
    assert Rgb(Lighten(c.r, 0), Lighten(c.g, 0), Lighten(c.b, 0)) == c;
    EncodedBits(c);
    ChannelsAreLow24(color);
    forall e: Rgb | e.InRange() && color == Encode(e) ensures DarkenColor(color, 0) == color {
      EncodeRoundTrip(e);
    }
  }

  /** A string with no hex number in it (NaN) reads as black, so darkening
      gives `#000000` and lightening gives the amount (capped at 255) in
      every channel. */
  lemma NotANumber(color: string, d: nat)
    requires ParseInt16(RemoveFirst(color, '#')).None?
    ensures Channels(color) == Rgb(0, 0, 0)
    ensures Channels(DarkenColor(color, d)) == Rgb(0, 0, 0)
    ensures var l := if d <= 255 then d else 255; Channels(LightenColor(color, d)) == Rgb(l, l, l)
  {
    SmallPattern(0);
    assert Bits(color) == 0;
    var black := Rgb(0, 0, 0);
    assert Channels(color) == black;
    var l := Lighten(0, d);
    assert l == if d <= 255 then d else 255;
    DarkenLightenMonotone(color, d);
    assert Channels(LightenColor(color, d)) == Rgb(l, l, l);
  }

  /** One more hex digit at the end multiplies the value by 16 and adds the
      digit. */
  lemma HexAppend(t: string, c: char)
    requires AllHex(t) && IsHexDigit(c)
    ensures AllHex(t + [c]) && HexValue(t + [c]) == HexValue(t) * 16 + HexDigitValue(c)
  {
    assert (t + [c])[..|t|] == t;
  }

  /** The digits of the default colour denote 0xFF6B35. */
  lemma DefaultColorValue()
    ensures AllHex("FF6B35") && HexValue("FF6B35") == 0xFF6B35
  {
    HexAppend("", 'F');
    assert "" + ['F'] == "F";
    HexAppend("F", 'F');
    assert "F" + ['F'] == "FF";
    HexAppend("FF", '6');
    assert "FF" + ['6'] == "FF6";
    HexAppend("FF6", 'B');
    assert "FF6" + ['B'] == "FF6B";
    HexAppend("FF6B", '3');
    assert "FF6B" + ['3'] == "FF6B3";
    HexAppend("FF6B3", '5');
    assert "FF6B3" + ['5'] == "FF6B35";
  }

  /** The default colour has channels 255, 107 and 53. */
  lemma DefaultColorChannels()
    ensures Channels(DefaultColor) == Rgb(255, 107, 53)
  {
    assert IndexOf(DefaultColor, '#') == 0;
    assert RemoveFirst(DefaultColor, '#') == "FF6B35";
    DefaultColorValue();
    assert ParseInt16("FF6B35") == Some(0xFF6B35);
    SmallPattern(0xFF6B35);
    var n := Bits(DefaultColor);
    assert n == 0xFF6B35;
    DivOfSum16(0xFF, 0x6B35);
    DivOfSum8(0xFF6B, 0x35);
    DivOfSum8(0xFF, 0x6B);
    DivOfSum8(0, 0xFF);
  }
}
