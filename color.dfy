/**
 * Colour handling of public/animations.js: the `rgbToHex` formatter, the
 * integer hex parse at the top of `shiftHue` (the part before the division
 * by 255), the `hueShift === 0` identity path, and the `getColor`
 * indirection every variant draws through.
 *
 * The HSL arithmetic and its float-to-string formatting are not part of this
 * model: a shifted colour is represented by the parsed channels and the shift
 * that the HSL branch would start from.
 */
module Color {
  import opened Options

  /** Upper-case hexadecimal digits, as `toString(16)` followed by `toUpperCase()` yields them. */
  const HexDigits: string := "0123456789ABCDEF"

  function HexDigit(d: nat): char
    requires d < 16
  {
    HexDigits[d]
  }

  predicate IsUpperHexDigit(c: char) {
    ('0' <= c <= '9') || ('A' <= c <= 'F')
  }

  /** Digit value of `c` in radix 16, case-insensitive, as `parseInt` reads it. */
  function HexValue(c: char): (v: Option<nat>)
    ensures v.Some? ==> v.value < 16
  {
    if '0' <= c <= '9' then Some(c as int - '0' as int)
    else if 'a' <= c <= 'f' then Some(c as int - 'a' as int + 10)
    else if 'A' <= c <= 'F' then Some(c as int - 'A' as int + 10)
    else None
  }

  // ---------------------------------------------------------------------------
  // Formatting: rgbToHex
  // ---------------------------------------------------------------------------

  /** `n.toString(16).toUpperCase()` for a non-negative integer: most significant digit first. */
  function Base16(n: nat): (s: string)
    ensures |s| >= 1
    ensures forall i :: 0 <= i < |s| ==> IsUpperHexDigit(s[i])
  {
    if n < 16 then [HexDigit(n)] else Base16(n / 16) + [HexDigit(n % 16)]
  }

  /** `s.padStart(2, "0")`. */
  function PadStart2(s: string): (p: string)
    ensures |p| == if |s| < 2 then 2 else |s|
    ensures |s| < 2 ==> p[2 - |s|..] == s
    ensures |s| >= 2 ==> p == s
    ensures forall i :: 0 <= i < |p| - |s| ==> p[i] == '0'
  {
    if |s| < 2 then seq(2 - |s|, _ => '0') + s else s
  }

  /** The inner `toHex` of `rgbToHex`. */
  function ToHex(n: nat): (h: string)
    ensures |h| >= 2
    ensures forall i :: 0 <= i < |h| ==> IsUpperHexDigit(h[i])
  {
    PadStart2(Base16(n))
  }

  /** `rgbToHex(r, g, b)`: a `#` followed by the three channels' `toHex`. */
  function RgbToHex(r: nat, g: nat, b: nat): (h: string)
    ensures |h| >= 7 && h[0] == '#'
    ensures forall i :: 1 <= i < |h| ==> IsUpperHexDigit(h[i])
  {
    "#" + ToHex(r) + ToHex(g) + ToHex(b)
  }

  // ---------------------------------------------------------------------------
  // Parsing: the `parseInt(hex.substr(k, 2), 16)` calls of shiftHue
  // ---------------------------------------------------------------------------

  /** The characters ECMAScript's StrWhiteSpaceChar admits (white space and line terminators). */
  predicate IsWhiteSpace(c: char) {
    c == ' ' || c == '\t' || c == '\n' || c == '\r' || c == '\U{000B}' || c == '\U{000C}'
    || c == '\U{00A0}' || c == '\U{FEFF}' || c == '\U{1680}' || ('\U{2000}' <= c <= '\U{200A}')
    || c == '\U{2028}' || c == '\U{2029}' || c == '\U{202F}' || c == '\U{205F}' || c == '\U{3000}'
  }

  /** `parseInt`'s first step: drop the longest prefix of white space. */
  function TrimStart(s: string): (t: string)
    ensures |t| <= |s| && t == s[|s| - |t|..]
    ensures forall i :: 0 <= i < |s| - |t| ==> IsWhiteSpace(s[i])
    ensures |t| > 0 ==> !IsWhiteSpace(t[0])
  {
    if |s| > 0 && IsWhiteSpace(s[0]) then TrimStart(s[1..]) else s
  }

  /** Length of the longest prefix of `s` made of radix-16 digits. */
  function DigitRun(s: string): (n: nat)
    ensures n <= |s|
    ensures forall i :: 0 <= i < n ==> HexValue(s[i]).Some?
    ensures n < |s| ==> HexValue(s[n]).None?
  {
    if |s| > 0 && HexValue(s[0]).Some? then 1 + DigitRun(s[1..]) else 0
  }

  /** The mathematical value of a string of radix-16 digits, most significant first. */
  function DigitsValue(s: string): nat
    requires forall i :: 0 <= i < |s| ==> HexValue(s[i]).Some?
  {
    if s == [] then 0 else DigitsValue(s[..|s| - 1]) * 16 + HexValue(s[|s| - 1]).value
  }

  /** The sign step of `parseInt`: whether a `-` leads, and the text after any `+` or `-`. */
  function StripSign(t: string): (r: (bool, string))
    ensures |r.1| <= |t|
  {
    if |t| > 0 && t[0] == '-' then (true, t[1..])
    else if |t| > 0 && t[0] == '+' then (false, t[1..])
    else (false, t)
  }

  /** For radix 16 `parseInt` drops a leading `0x` or `0X`. */
  function StripHexPrefix(u: string): string {
    if |u| >= 2 && u[0] == '0' && (u[1] == 'x' || u[1] == 'X') then u[2..] else u
  }

  /** The value of the leading run of hex digits; `None` (NaN) when the run is empty. */
  function LeadingValue(v: string): Option<nat> {
    var n := DigitRun(v);
    if n == 0 then None else Some(DigitsValue(v[..n]))
  }

  /** A non-empty string of upper-case hex digits, as `toString(16).toUpperCase()` writes. */
  predicate IsUpperHexString(s: string) {
    |s| > 0 && forall i :: 0 <= i < |s| ==> IsUpperHexDigit(s[i])
  }

  /** An upper-case digit string has no leading white space, sign or `0x` prefix. */
  lemma UpperHexPrefixFree(s: string)
    requires IsUpperHexString(s)
    ensures TrimStart(s) == s && StripSign(s) == (false, s) && StripHexPrefix(s) == s
  {
    assert IsUpperHexDigit(s[0]);
    assert |s| >= 2 ==> IsUpperHexDigit(s[1]);
  }

  /** Every character of an upper-case digit string belongs to the digit run. */
  lemma UpperHexRun(s: string)
    requires IsUpperHexString(s)
    ensures LeadingValue(s) == Some(DigitsValue(s))
  {
    assert DigitRun(s) == |s|;
    assert s[..|s|] == s;
  }

  /** On a non-empty string of upper-case digits every stage but the digit run is a no-op. */
  lemma DigitStringStages(s: string)
    ensures IsUpperHexString(s) ==>
      && TrimStart(s) == s && StripSign(s) == (false, s) && StripHexPrefix(s) == s
      && LeadingValue(s) == Some(DigitsValue(s))
  {
    if IsUpperHexString(s) {
      UpperHexPrefixFree(s);
      UpperHexRun(s);
    }
  }

  /**
   * `parseInt(s, 16)`: skip leading white space, take an optional sign, drop an
   * optional `0x`/`0X`, then read the longest run of hex digits; `None` stands
   * for `NaN`, returned when that run is empty.
   */
  function ParseInt16(s: string): (p: Option<int>)
    ensures IsUpperHexString(s) ==> p == Some(DigitsValue(s))
  {
    DigitStringStages(s);
    var (negative, u) := StripSign(TrimStart(s));
    match LeadingValue(StripHexPrefix(u))
    case None => None
    case Some(m) => Some(if negative then -(m as int) else m as int)
  }

  /** Position of the first `#` in `s`, or `|s|` when there is none. */
  function FirstHash(s: string): (k: nat)
    ensures k <= |s| && '#' !in s[..k]
    ensures k < |s| ==> s[k] == '#'
  {
    if s == [] || s[0] == '#' then 0
    else
      var k := FirstHash(s[1..]);
      assert s[..k + 1] == [s[0]] + s[1..][..k];
      k + 1
  }

  /** `color.replace("#", "")`: removes the first `#` only. */
  function RemoveFirstHash(s: string): (t: string)
    ensures '#' !in s ==> t == s
    ensures forall i :: 0 <= i < |s| && s[i] == '#' && '#' !in s[..i] ==> t == s[..i] + s[i + 1..]
  {
    var k := FirstHash(s);
    if k == |s| then s else s[..k] + s[k + 1..]
  }

  /** `s.substr(start, length)` for a non-negative start: clipped to the string. */
  function Substr(s: string, start: nat, length: nat): (t: string)
    ensures |t| == if start >= |s| then 0 else if start + length <= |s| then length else |s| - start
    ensures forall i :: 0 <= i < |t| ==> t[i] == s[start + i]
  {
    if start >= |s| then [] else s[start..if start + length <= |s| then start + length else |s|]
  }

  /** The three channel integers `shiftHue` parses before dividing by 255; `None` is NaN. */
  datatype Channels = Channels(r: Option<int>, g: Option<int>, b: Option<int>)

  function HexChannels(color: string): (c: Channels)
    ensures |color| == 7 && color[0] == '#' ==>
      c == Channels(ParseInt16(color[1..3]), ParseInt16(color[3..5]), ParseInt16(color[5..7]))
  {
    var hex := RemoveFirstHash(color);
    assert |color| == 7 && color[0] == '#' ==>
      && hex == color[1..]
      && Substr(hex, 0, 2) == color[1..3] && Substr(hex, 2, 2) == color[3..5] && Substr(hex, 4, 2) == color[5..7];
    Channels(ParseInt16(Substr(hex, 0, 2)), ParseInt16(Substr(hex, 2, 2)), ParseInt16(Substr(hex, 4, 2)))
  }

  // ---------------------------------------------------------------------------
  // shiftHue and getColor
  // ---------------------------------------------------------------------------

  /**
   * A fill style as a variant hands it to the canvas: either a CSS colour
   * string passed through untouched, or the `hsl(...)` colour that the HSL
   * branch of `shiftHue` derives from the parsed channels and the shift.
   */
  datatype Paint = Css(text: string) | Hsl(source: Channels, hueShift: int)

  /** `shiftHue(color, hueShift)`: the strict `=== 0` test is the only identity path. */
  function ShiftHue(color: string, hueShift: int): (p: Paint)
    ensures p == Css(color) <==> hueShift == 0
  {
    if hueShift == 0 then Css(color) else Hsl(HexChannels(color), hueShift)
  }

  /**
   * `getColor(baseColor)` of every variant: `attached` says whether the
   * variant's `engine` back-reference is set.
   */
  function GetColor(attached: bool, hueShift: int, baseColor: string): (p: Paint)
    ensures p == Css(baseColor) <==> !attached || hueShift == 0
    ensures p != Css(baseColor) ==> p == Hsl(HexChannels(baseColor), hueShift)
  {
    if attached then ShiftHue(baseColor, hueShift) else Css(baseColor)
  }

  // ---------------------------------------------------------------------------
  // Lemmas
  // ---------------------------------------------------------------------------

  /** `toString(16)` writes the digits of n: read back in radix 16 they denote n. */
  lemma {:induction false} Base16Value(n: nat)
    ensures DigitsValue(Base16(n)) == n
  {
    if n >= 16 {
      Base16Value(n / 16);
      var s := Base16(n);
      assert s[..|s| - 1] == Base16(n / 16);
      HexValueOfDigit(n % 16);
    } else {
      HexValueOfDigit(n);
      assert Base16(n)[..0] == [];
    }
  }

  /** A leading `0` does not change the value of a digit string. */
  lemma {:induction false} LeadingZeroValue(s: string)
    requires forall i :: 0 <= i < |s| ==> HexValue(s[i]).Some?
    ensures DigitsValue(['0'] + s) == DigitsValue(s)
  {
    if s != [] {
      LeadingZeroValue(s[..|s| - 1]);
      assert (['0'] + s)[..|s|] == ['0'] + s[..|s| - 1];
    }
  }

  /** `parseInt(toHex(n), 16)` gives n back for every non-negative integer, the `padStart` zero included. */
  lemma ParseToHex(n: nat)
    ensures ParseInt16(ToHex(n)) == Some(n)
  {
    var d := Base16(n);
    Base16Value(n);
    if |d| < 2 {
      assert ToHex(n) == ['0'] + d;
      LeadingZeroValue(d);
    }
  }

  /** A byte is written as exactly two upper-case digits, high nibble first. */
  lemma ToHexByte(n: nat)
    requires n < 256
    ensures ToHex(n) == [HexDigit(n / 16), HexDigit(n % 16)]
  {
    if n < 16 {
      assert Base16(n) == [HexDigit(n)];
      assert HexDigit(0) == '0';
    } else {
      assert Base16(n / 16) == [HexDigit(n / 16)];
    }
  }

  lemma HexValueOfDigit(d: nat)
    requires d < 16
    ensures HexValue(HexDigit(d)) == Some(d)
    ensures !IsWhiteSpace(HexDigit(d)) && HexDigit(d) !in "+-xX"
  {
  }

  /** Two upper-case digits parse back, in base 16, to the byte they encode. */
  lemma {:induction false} ParseTwoDigits(hi: nat, lo: nat)
    requires hi < 16 && lo < 16
    ensures ParseInt16([HexDigit(hi), HexDigit(lo)]) == Some(16 * hi + lo)
  {
    var s := [HexDigit(hi), HexDigit(lo)];
    HexValueOfDigit(hi);
    HexValueOfDigit(lo);
    assert TrimStart(s) == s;
    assert StripSign(s) == (false, s);
    assert StripHexPrefix(s) == s;
    assert DigitRun(s[2..]) == 0;
    assert DigitRun(s[1..]) == 1;
    assert DigitRun(s) == 2;
    assert s[..2] == s;
    assert s[..1] == [HexDigit(hi)];
    assert DigitsValue(s[..1][..0]) == 0;
    assert DigitsValue(s[..1]) == hi;
    assert LeadingValue(s) == Some(16 * hi + lo);
  }

  /** `rgbToHex` of three bytes is `#` followed by six upper-case hex digits. */
  lemma RgbToHexFormat(r: nat, g: nat, b: nat)
    requires r < 256 && g < 256 && b < 256
    ensures |RgbToHex(r, g, b)| == 7 && RgbToHex(r, g, b)[0] == '#'
    ensures forall i :: 1 <= i < 7 ==> IsUpperHexDigit(RgbToHex(r, g, b)[i])
  {
    ToHexByte(r);
    ToHexByte(g);
    ToHexByte(b);
  }

  /** `shiftHue` reads the three channels from the three two-character groups after the `#`. */
  lemma GroupsOfFormatted(a: string, b: string, c: string)
    requires |a| == 2 && |b| == 2 && |c| == 2
    ensures HexChannels("#" + a + b + c) == Channels(ParseInt16(a), ParseInt16(b), ParseInt16(c))
  {
    var s := "#" + a + b + c;
    assert s[1..3] == a && s[3..5] == b && s[5..7] == c;
  }

  /** Parsing the three two-digit groups of `rgbToHex(r, g, b)`, as `shiftHue` does, gives back r, g and b. */
  lemma FormatThenParse(r: nat, g: nat, b: nat)
    requires r < 256 && g < 256 && b < 256
    ensures HexChannels(RgbToHex(r, g, b)) == Channels(Some(r), Some(g), Some(b))
  {
    ToHexByte(r);
    ToHexByte(g);
    ToHexByte(b);
    GroupsOfFormatted(ToHex(r), ToHex(g), ToHex(b));
    ParseToHex(r);
    ParseToHex(g);
    ParseToHex(b);
  }

  /** A well-formed hex colour string as the variants write their base colours. */
  predicate IsHexColor(s: string) {
    |s| == 7 && s[0] == '#' && forall i :: 1 <= i < 7 ==> IsUpperHexDigit(s[i])
  }

  lemma UpperDigitIsHexDigit(c: char)
    requires IsUpperHexDigit(c)
    ensures HexValue(c).Some? && HexDigit(HexValue(c).value) == c
  {
  }

  /** The byte written by the two upper-case digits at positions i and i + 1 of a hex colour. */
  function HexByte(s: string, i: nat): (n: nat)
    requires IsHexColor(s) && 1 <= i <= 5
    ensures n < 256
  {
    16 * UpperDigitValue(s[i]) + UpperDigitValue(s[i + 1])
  }

  /** Every `#RRGGBB` string (upper-case digits) is what `rgbToHex` writes for its three bytes. */
  lemma HexColorIsFormatted(s: string)
    requires IsHexColor(s)
    ensures RgbToHex(HexByte(s, 1), HexByte(s, 3), HexByte(s, 5)) == s
  {
    PairIsFormatted(s, 1);
    PairIsFormatted(s, 3);
    PairIsFormatted(s, 5);
    FormattedFromGroups(HexByte(s, 1), HexByte(s, 3), HexByte(s, 5), s);
  }

  /** `rgbToHex` writes `s` when each channel's `toHex` is the matching group of `s`. */
  lemma FormattedFromGroups(r: nat, g: nat, b: nat, s: string)
    requires |s| == 7 && s[0] == '#'
    requires ToHex(r) == s[1..3] && ToHex(g) == s[3..5] && ToHex(b) == s[5..7]
    ensures RgbToHex(r, g, b) == s
  {
    assert s == s[..1] + s[1..3] + s[3..5] + s[5..7];
    assert s[..1] == "#";
  }

  /** The two digits at positions i and i + 1 are `toHex` of the byte they write. */
  lemma PairIsFormatted(s: string, i: nat)
    requires IsHexColor(s) && 1 <= i <= 5
    ensures ToHex(HexByte(s, i)) == s[i..i + 2]
  {
    ByteFromDigits(UpperDigitValue(s[i]), UpperDigitValue(s[i + 1]));
    assert s[i..i + 2] == [s[i], s[i + 1]];
  }

  /**
   * The converse round trip: every `#RRGGBB` string (upper-case digits) parses
   * to three bytes that `rgbToHex` writes back as the same string.
   */
  lemma ParseThenFormat(s: string)
    requires IsHexColor(s)
    ensures HexChannels(s) == Channels(Some(HexByte(s, 1)), Some(HexByte(s, 3)), Some(HexByte(s, 5)))
    ensures RgbToHex(HexByte(s, 1), HexByte(s, 3), HexByte(s, 5)) == s
  {
    HexColorIsFormatted(s);
    FormatThenParse(HexByte(s, 1), HexByte(s, 3), HexByte(s, 5));
  }

  /** Two digits compose a byte whose `toHex` is those two digits. */
  lemma ByteFromDigits(hi: nat, lo: nat)
    requires hi < 16 && lo < 16
    ensures 16 * hi + lo < 256
    ensures ToHex(16 * hi + lo) == [HexDigit(hi), HexDigit(lo)]
  {
    var n := 16 * hi + lo;
    assert n / 16 == hi && n % 16 == lo;
    ToHexByte(n);
  }

  function UpperDigitValue(c: char): (d: nat)
    requires IsUpperHexDigit(c)
    ensures d < 16 && HexDigit(d) == c
  {
    UpperDigitIsHexDigit(c);
    HexValue(c).value
  }

  /**
   * Every base colour the variants pass is an upper-case `#RRGGBB` literal:
   * with a nonzero shift `shiftHue` takes the HSL branch from three parsed bytes.
   */
  lemma ShiftHexColor(color: string, hueShift: int)
    requires IsHexColor(color) && hueShift != 0
    ensures ShiftHue(color, hueShift) == Hsl(Channels(Some(HexByte(color, 1)), Some(HexByte(color, 3)), Some(HexByte(color, 5))), hueShift)
  {
    ParseThenFormat(color);
  }

  /** The zero shift is the identity, attached or not; a detached variant never shifts. */
  lemma GetColorIdentity(attached: bool, hueShift: int, baseColor: string)
    requires hueShift == 0 || !attached
    ensures GetColor(attached, hueShift, baseColor) == Css(baseColor)
  {
  }
}
