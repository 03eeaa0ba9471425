/** `RGBColor` of client/src/lib/rgb.ts: channel mixing, inversion and the
    `#rrggbb` / `#rgb` hex forms of section 5.2 of CSS Color Module Level 4.
    A channel is an integer or NaN, which is what `parseInt` yields when a
    pair of characters starts with no hexadecimal digit. */
module Rgb {

  datatype Channel = Num(v: int) | NaN

  datatype Color = Color(r: Channel, g: Channel, b: Channel)

  const Black := Color(Num(0), Num(0), Num(0))

  /** No channel is NaN. */
  predicate Numeric(c: Color) {
    c.r.Num? && c.g.Num? && c.b.Num?
  }

  predicate ChannelInRange(c: Channel) {
    c.Num? && 0 <= c.v <= 255
  }

  /** Integer channels in [0, 255]. */
  predicate InRange(c: Color) {
    ChannelInRange(c.r) && ChannelInRange(c.g) && ChannelInRange(c.b)
  }

  // ---------------------------------------------------------------------
  // Mixing and inversion

  function Min(a: int, b: int): int { if a <= b then a else b }
  function Max(a: int, b: int): int { if a <= b then b else a }

  /** `RGBColor.channelMixer`: `floor(a·ratio + b·(1 − ratio))`, over
      exact reals. */
  function ChannelMixer(a: int, b: int, ratio: real): (m: int)
    ensures 0.0 <= ratio <= 1.0 ==> Min(a, b) <= m <= Max(a, b)
    ensures ratio == 1.0 ==> m == a
    ensures ratio == 0.0 ==> m == b
  {
    MixBetween(a, b, ratio);
    (a as real * ratio + b as real * (1.0 - ratio)).Floor
  }

  /** A convex combination of two integers lies between them. */
  lemma MixBetween(a: int, b: int, ratio: real)
    ensures 0.0 <= ratio <= 1.0 ==>
      Min(a, b) as real <= a as real * ratio + b as real * (1.0 - ratio) <= Max(a, b) as real
  {
    var x := a as real * ratio + b as real * (1.0 - ratio);
    assert x - b as real == (a as real - b as real) * ratio;
    assert x - a as real == (b as real - a as real) * (1.0 - ratio);
    if ratio < 0.0 || ratio > 1.0 {
    } else if a <= b {
      MulNonNegative(b as real - a as real, 1.0 - ratio);
      MulNonNegative(b as real - a as real, ratio);
    } else {
      MulNonNegative(a as real - b as real, ratio);
      MulNonNegative(a as real - b as real, 1.0 - ratio);
    }
  }

  lemma MulNonNegative(x: real, y: real)
    requires x >= 0.0 && y >= 0.0
    ensures x * y >= 0.0 && (-x) * y <= 0.0
  {
  }

  /** One channel of `mix`; NaN in either operand gives NaN. */
  function MixChannel(a: Channel, b: Channel, ratio: real): (m: Channel)
    ensures m.Num? <==> a.Num? && b.Num?
    ensures a.Num? && b.Num? && 0.0 <= ratio <= 1.0 ==> Min(a.v, b.v) <= m.v <= Max(a.v, b.v)
  {
    if a.Num? && b.Num? then Num(ChannelMixer(a.v, b.v, ratio)) else NaN
  }

  /** `RGBColor.mix`: the receiver's new channels (the source overwrites
      the receiver and returns it). */
  function Mix(c: Color, other: Color, ratio: real): (m: Color)
    ensures InRange(c) && InRange(other) && 0.0 <= ratio <= 1.0 ==> InRange(m)
    ensures ratio == 1.0 && Numeric(c) && Numeric(other) ==> m == c
    ensures !Numeric(other) ==> !Numeric(m)
  {
    Color(MixChannel(c.r, other.r, ratio), MixChannel(c.g, other.g, ratio), MixChannel(c.b, other.b, ratio))
  }

  function InvertChannel(c: Channel): (d: Channel)
    ensures d.Num? <==> c.Num?
    ensures c.Num? ==> c.v + d.v == 255
  {
    match c
    case Num(v) => Num(255 - v)
    case NaN => NaN
  }

  /** `RGBColor.invert`: each channel v becomes 255 − v. */
  function Invert(c: Color): (d: Color)
    ensures InRange(c) ==> InRange(d)
    ensures c.r.Num? ==> d.r.Num? && c.r.v + d.r.v == 255
    ensures c.g.Num? ==> d.g.Num? && c.g.v + d.g.v == 255
    ensures c.b.Num? ==> d.b.Num? && c.b.v + d.b.v == 255
  {
    Color(InvertChannel(c.r), InvertChannel(c.g), InvertChannel(c.b))
  }

  /** Inverting twice gives the colour back. */
  lemma InvertInvolution(c: Color)
    ensures Invert(Invert(c)) == c
  {
  }

  // ---------------------------------------------------------------------
  // Hexadecimal text

  predicate IsLowerHexDigit(ch: char) {
    '0' <= ch <= '9' || 'a' <= ch <= 'f'
  }

  /** The lower-case digit `Number.prototype.toString(16)` writes for d. */
  function HexDigit(d: int): (ch: char)
    requires 0 <= d < 16
    ensures IsLowerHexDigit(ch)
  {
    if d < 10 then ('0' as int + d) as char else ('a' as int + d - 10) as char
  }

  /** `n.toString(16)` for a non-negative integer: no leading zeros. */
  function ToHex(n: nat): (s: string)
    ensures |s| >= 1
    ensures n < 16 <==> |s| == 1
    ensures 16 <= n < 256 ==> |s| == 2
  {
    if n < 16 then [HexDigit(n)] else ToHex(n / 16) + [HexDigit(n % 16)]
  }

  /** `x.toString(16)` for a channel. */
  function ChannelText(c: Channel): string {
    match c
    case NaN => "NaN"
    case Num(v) => if v < 0 then "-" + ToHex(-v) else ToHex(v)
  }

  /** `s.padStart(2, '0')`. */
  function PadStart2(s: string): (p: string)
    ensures |p| >= 2
    ensures |s| >= 2 ==> p == s
    ensures |s| < 2 ==> p[2 - |s|..] == s && forall k :: 0 <= k < 2 - |s| ==> p[k] == '0'
  {
    if |s| >= 2 then s else seq(2 - |s|, _ => '0') + s
  }

  /** The getter `hex`. Both of its branches build the same string. */
  function Hex(c: Color): (s: string)
    ensures InRange(c) ==> s == ['#', HexDigit(c.r.v / 16), HexDigit(c.r.v % 16), HexDigit(c.g.v / 16),
                                 HexDigit(c.g.v % 16), HexDigit(c.b.v / 16), HexDigit(c.b.v % 16)]
  {
    var r := PadStart2(ChannelText(c.r));
    var g := PadStart2(ChannelText(c.g));
    var b := PadStart2(ChannelText(c.b));
    ChannelsWritten(c);
    if r[0] == r[1] && g[0] == g[1] && b[0] == b[1] then "#" + r + g + b
    else "#" + r + g + b
  }

  /** A channel in [0, 255] is written as its two hexadecimal digits. */
  lemma TwoDigits(v: int)
    requires 0 <= v <= 255
    ensures PadStart2(ChannelText(Num(v))) == [HexDigit(v / 16), HexDigit(v % 16)]
  {
    var t := ChannelText(Num(v));
    assert t == ToHex(v);
    if v >= 16 {
      var q := v / 16;
      assert q < 16;
      assert ToHex(q) == [HexDigit(q)];
      assert t == [HexDigit(q)] + [HexDigit(v % 16)];
    } else {
      assert t == [HexDigit(v)];
      assert v / 16 == 0 && v % 16 == v;
      assert PadStart2(t) == ['0'] + t;
    }
  }

  lemma ChannelsWritten(c: Color)
    ensures InRange(c) ==>
      PadStart2(ChannelText(c.r)) == [HexDigit(c.r.v / 16), HexDigit(c.r.v % 16)]
      && PadStart2(ChannelText(c.g)) == [HexDigit(c.g.v / 16), HexDigit(c.g.v % 16)]
      && PadStart2(ChannelText(c.b)) == [HexDigit(c.b.v / 16), HexDigit(c.b.v % 16)]
  {
    if InRange(c) {
      TwoDigits(c.r.v);
      TwoDigits(c.g.v);
      TwoDigits(c.b.v);
    }
  }

  // ---------------------------------------------------------------------
  // parseInt(s, 16)

  /** The white space and line terminators `parseInt` skips (sections
      12.2 and 12.3 of ECMA-262). */
  predicate IsJsSpace(ch: char) {
    ch == '\t' || ch == '\n' || ch == '\U{000B}' || ch == '\U{000C}' || ch == '\r' || ch == ' '
    || ch == '\U{00A0}' || ch == '\U{1680}' || ('\U{2000}' <= ch <= '\U{200A}')
    || ch == '\U{2028}' || ch == '\U{2029}' || ch == '\U{202F}' || ch == '\U{205F}'
    || ch == '\U{3000}' || ch == '\U{FEFF}'
  }

  /** The value of a hexadecimal digit in either case, or -1. */
  function DigitValue(ch: char): (d: int)
    ensures -1 <= d < 16
    ensures IsLowerHexDigit(ch) ==> d >= 0
  {
    if '0' <= ch <= '9' then ch as int - '0' as int
    else if 'a' <= ch <= 'f' then ch as int - 'a' as int + 10
    else if 'A' <= ch <= 'F' then ch as int - 'A' as int + 10
    else -1
  }

  function TrimStart(s: string): (t: string)
    ensures |t| <= |s| && (|t| > 0 ==> !IsJsSpace(t[0]))
  {
    if |s| > 0 && IsJsSpace(s[0]) then TrimStart(s[1..]) else s
  }

  /** The number of leading hexadecimal digits. */
  function DigitRun(s: string): (n: nat)
    ensures n <= |s| && forall k :: 0 <= k < n ==> DigitValue(s[k]) >= 0
    ensures n < |s| ==> DigitValue(s[n]) < 0
  {
    if |s| > 0 && DigitValue(s[0]) >= 0 then 1 + DigitRun(s[1..]) else 0
  }

  /** The value of a run of hexadecimal digits, most significant first. */
  function DigitsValue(s: string): nat
    requires forall k :: 0 <= k < |s| ==> DigitValue(s[k]) >= 0
  {
    if |s| == 0 then 0 else DigitsValue(s[..|s| - 1]) * 16 + DigitValue(s[|s| - 1])
  }

  /** `parseInt(s, 16)` (section 19.2.5 of ECMA-262): skip leading white
      space, take one sign, drop a `0x`/`0X` prefix, then read the longest
      run of hexadecimal digits; no digit at all is NaN. */
  function ParseInt16(s: string): Channel {
    var t := TrimStart(s);
    var negative := |t| > 0 && t[0] == '-';
    var unsigned := if |t| > 0 && t[0] in "+-" then t[1..] else t;
    var body := if |unsigned| >= 2 && unsigned[0] == '0' && unsigned[1] in "xX" then unsigned[2..] else unsigned;
    var n := DigitRun(body);
    if n == 0 then NaN
    else
      var v: int := DigitsValue(body[..n]);
      Num(if negative then -v else v)
  }

  // ---------------------------------------------------------------------
  // fromHex

  /** `hex.indexOf('#') === 0`: a leading `#` is dropped. */
  function StripHash(s: string): (t: string)
    ensures |s| > 0 && s[0] == '#' ==> t == s[1..]
  {
    if |s| > 0 && s[0] == '#' then s[1..] else s
  }

  /** The three-digit short form doubles each digit. */
  function Expand(s: string): (t: string)
    ensures |s| == 3 ==> |t| == 6 && forall k :: 0 <= k < 6 ==> t[k] == s[k / 2]
    ensures |s| != 3 ==> t == s
  {
    if |s| == 3 then [s[0], s[0], s[1], s[1], s[2], s[2]] else s
  }

  /** `RGBColor.fromHex`: six digits give three channels; any other length
      after stripping and expanding gives black. */
  function FromHex(hex: string): (c: Color)
    ensures |Expand(StripHash(hex))| != 6 ==> c == Black
  {
    var s := Expand(StripHash(hex));
    if |s| == 6 then Color(ParseInt16(s[0..2]), ParseInt16(s[2..4]), ParseInt16(s[4..6]))
    else Black
  }

  /** Two hexadecimal digits, not read as a `0x` prefix, are parsed as a
      base-16 number. */
  lemma ParseTwoHexDigits(s: string)
    requires |s| == 2 && DigitValue(s[0]) >= 0 && DigitValue(s[1]) >= 0 && !(s[0] == '0' && s[1] in "xX")
    ensures ParseInt16(s) == Num(DigitValue(s[0]) * 16 + DigitValue(s[1]))
  {
    assert !IsJsSpace(s[0]) && s[0] !in "+-";
    assert TrimStart(s) == s;
    assert DigitRun(s[1..][1..]) == 0;
    assert DigitRun(s) == 2;
    assert s[..2] == s;
    assert s[..1][..0] == [];
    assert DigitsValue(s[..1]) == DigitValue(s[0]);
    assert DigitsValue(s) == DigitValue(s[0]) * 16 + DigitValue(s[1]);
  }

  /** Text that begins with no white space, sign or digit is NaN. */
  lemma ParseNoDigit(s: string)
    requires |s| > 0 && !IsJsSpace(s[0]) && s[0] !in "+-" && DigitValue(s[0]) < 0
    ensures ParseInt16(s) == NaN
  {
  }

  /** Reading a channel's two written digits back gives the channel. */
  lemma ParseTwoDigits(v: int)
    requires 0 <= v <= 255
    ensures ParseInt16([HexDigit(v / 16), HexDigit(v % 16)]) == Num(v)
  {
    var s := [HexDigit(v / 16), HexDigit(v % 16)];
    assert DigitValue(s[0]) == v / 16 && DigitValue(s[1]) == v % 16;
    ParseTwoHexDigits(s);
  }

  /** `fromHex(c.hex)` is c for integer channels in [0, 255]. */
  lemma HexRoundTrip(c: Color)
    requires InRange(c)
    ensures FromHex(Hex(c)) == c
  {
    var s := Hex(c);
    var body := StripHash(s);
    assert body == s[1..] && |body| == 6 && Expand(body) == body;
    assert body[0..2] == [HexDigit(c.r.v / 16), HexDigit(c.r.v % 16)];
    assert body[2..4] == [HexDigit(c.g.v / 16), HexDigit(c.g.v % 16)];
    assert body[4..6] == [HexDigit(c.b.v / 16), HexDigit(c.b.v % 16)];
    ParseTwoDigits(c.r.v);
    ParseTwoDigits(c.g.v);
    ParseTwoDigits(c.b.v);
    assert FromHex(s) == Color(ParseInt16(body[0..2]), ParseInt16(body[2..4]), ParseInt16(body[4..6]));
  }

  /** The short form `#rgb` denotes the same colour as `#rrggbb`. */
  lemma ShortFormIsDoubled(s: string)
    requires |s| == 3
    ensures FromHex("#" + s) == FromHex("#" + [s[0], s[0], s[1], s[1], s[2], s[2]])
  {
    assert StripHash("#" + s) == s;
    assert StripHash("#" + [s[0], s[0], s[1], s[1], s[2], s[2]]) == [s[0], s[0], s[1], s[1], s[2], s[2]];
  }
}
