/** Hexadecimal colour strings: the `hex_to_rgb` decoder both generator
    scripts share, and the `0x%02X` rendering of one colour channel. */
module Hex {

  /** One 8-bit colour channel, in [0, 255]. */
  type Byte = x: int | 0 <= x < 256

  /** A character `int(_, 16)` accepts as a digit (either case). */
  predicate IsHexDigit(c: char) {
    ('0' <= c <= '9') || ('a' <= c <= 'f') || ('A' <= c <= 'F')
  }

  /** A character `%X` can print: a decimal digit or `A`..`F`. */
  predicate IsUpperHexDigit(c: char) {
    ('0' <= c <= '9') || ('A' <= c <= 'F')
  }

  predicate AllHexDigits(s: string) {
    forall i :: 0 <= i < |s| ==> IsHexDigit(s[i])
  }

  /** The value of one base-16 digit. */
  function DigitValue(c: char): (d: nat)
    requires IsHexDigit(c)
    ensures d < 16
    ensures d < 10 <==> '0' <= c <= '9'
  {
    if '0' <= c <= '9' then c as int - '0' as int
    else if 'a' <= c <= 'f' then c as int - 'a' as int + 10
    else c as int - 'A' as int + 10
  }

  /** The digit `%X` prints for a value below 16. */
  function UpperDigit(d: nat): (c: char)
    requires d < 16
    ensures IsUpperHexDigit(c) && IsHexDigit(c)
    ensures DigitValue(c) == d
  {
    if d < 10 then ('0' as int + d) as char else ('A' as int + d - 10) as char
  }

  /** A hex digit in upper case; decimal digits are unchanged. */
  function ToUpper(c: char): (u: char)
    requires IsHexDigit(c)
    ensures IsUpperHexDigit(u) && IsHexDigit(u)
    ensures DigitValue(u) == DigitValue(c)
    ensures IsUpperHexDigit(c) ==> u == c
  {
    if 'a' <= c <= 'f' then (c as int - 'a' as int + 'A' as int) as char else c
  }

  /** A string of hex digits in upper case. */
  function Upper(s: string): (u: string)
    requires AllHexDigits(s)
    ensures |u| == |s|
    ensures forall i :: 0 <= i < |s| ==> u[i] == ToUpper(s[i])
  {
    seq(|s|, i requires 0 <= i < |s| => ToUpper(s[i]))
  }

  /** Only one upper-case digit has a given value. */
  lemma UpperDigitUnique(c: char, c': char)
    requires IsUpperHexDigit(c) && IsUpperHexDigit(c')
    ensures DigitValue(c) == DigitValue(c') <==> c == c'
  {
  }

  /** `%X` of the value of a digit is that digit upper-cased. */
  lemma UpperDigitOfValue(c: char)
    requires IsHexDigit(c)
    ensures UpperDigit(DigitValue(c)) == ToUpper(c)
  {
    UpperDigitUnique(UpperDigit(DigitValue(c)), ToUpper(c));
  }

  /** `int(s, 16)` for the two-character slice of one channel. */
  function ParseByte(s: string): (v: Byte)
    requires |s| == 2 && AllHexDigits(s)
    ensures v / 16 == DigitValue(s[0]) && v % 16 == DigitValue(s[1])
  {
    16 * DigitValue(s[0]) + DigitValue(s[1])
  }

  /** `f"{v:02X}"`: two upper-case digits, zero-padded. */
  function HexByte(v: Byte): (s: string)
    ensures |s| == 2 && AllHexDigits(s)
    ensures IsUpperHexDigit(s[0]) && IsUpperHexDigit(s[1])
    ensures ParseByte(s) == v
  {
    [UpperDigit(v / 16), UpperDigit(v % 16)]
  }

  /** Printing a parsed channel gives back its digits, upper-cased. */
  lemma HexByteOfParse(s: string)
    requires |s| == 2 && AllHexDigits(s)
    ensures HexByte(ParseByte(s)) == Upper(s)
  {
    var v := ParseByte(s);
    UpperDigitOfValue(s[0]);
    UpperDigitOfValue(s[1]);
    assert HexByte(v)[0] == Upper(s)[0];
    assert HexByte(v)[1] == Upper(s)[1];
  }

  /** `f"0x{v:02X}"`, the form a channel takes in the asset document. */
  function FormatComponent(v: Byte): (r: string)
    ensures |r| == 4 && r[..2] == "0x"
    ensures AllHexDigits(r[2..]) && IsUpperHexDigit(r[2]) && IsUpperHexDigit(r[3])
    ensures ParseByte(r[2..]) == v
  {
    "0x" + HexByte(v)
  }

  /** A string of `n` hash characters. */
  function Hashes(n: nat): (h: string)
    ensures |h| == n && forall i :: 0 <= i < n ==> h[i] == '#'
  {
    if n == 0 then [] else "#" + Hashes(n - 1)
  }

  /** `s.lstrip('#')`: `s` without its leading run of `#` characters. */
  function StripHashes(s: string): (t: string)
    ensures |t| <= |s|
  {
    if |s| > 0 && s[0] == '#' then StripHashes(s[1..]) else s
  }

  /** Stripping removes exactly the leading run of `#`s: what is left is a
      suffix that does not start with `#`, and what was cut is all `#`. */
  lemma {:induction false} StripHashesCutsLeadingHashes(s: string)
    ensures var t := StripHashes(s);
      && t == s[|s| - |t|..]
      && s[..|s| - |t|] == Hashes(|s| - |t|)
      && (|t| > 0 ==> t[0] != '#')
  {
    if |s| > 0 && s[0] == '#' {
      StripHashesCutsLeadingHashes(s[1..]);
      var t := StripHashes(s);
      var n := |s| - |t|;
      assert t == StripHashes(s[1..]);
      assert s[1..][n - 1..] == s[n..];
      assert s[..n] == "#" + s[1..][..n - 1];
    } else {
      assert s[..0] == Hashes(0);
    }
  }

  /** Any number of leading `#`s strip away to the same remainder. */
  lemma {:induction false} StripHashesAfterHashes(n: nat, s: string)
    ensures StripHashes(Hashes(n) + s) == StripHashes(s)
  {
    if n == 0 {
      assert Hashes(n) + s == s;
    } else {
      var h := Hashes(n) + s;
      assert h[0] == '#';
      assert h[1..] == Hashes(n - 1) + s;
      calc {
        StripHashes(h);
        StripHashes(h[1..]);
        { StripHashesAfterHashes(n - 1, s); }
        StripHashes(s);
      }
    }
  }

  /** What the decoder accepts: after the leading `#`s, exactly six hex digits. */
  predicate IsColorHex(s: string) {
    var t := StripHashes(s);
    |t| == 6 && AllHexDigits(t)
  }

  /** The spelling the embedded tables use: `#` followed by six hex digits. */
  predicate IsTableHex(s: string) {
    |s| == 7 && s[0] == '#' && forall i :: 1 <= i < 7 ==> IsHexDigit(s[i])
  }

  /** A table spelling is accepted by the decoder, which sees the six digits. */
  lemma TableHexIsColorHex(s: string)
    requires IsTableHex(s)
    ensures IsColorHex(s) && StripHashes(s) == s[1..]
  {
    assert s[1..][0] == s[1];
    assert StripHashes(s[1..]) == s[1..];
  }

  /** The three channels `hex_to_rgb` returns. */
  datatype Rgb = Rgb(red: Byte, green: Byte, blue: Byte)

  /** `hex_to_rgb`: strip the `#`s, then read slices [0:2], [2:4], [4:6] in base 16. */
  function HexToRgb(hex: string): (rgb: Rgb)
    requires IsColorHex(hex)
    ensures var t := StripHashes(hex);
      && rgb.red / 16 == DigitValue(t[0]) && rgb.red % 16 == DigitValue(t[1])
      && rgb.green / 16 == DigitValue(t[2]) && rgb.green % 16 == DigitValue(t[3])
      && rgb.blue / 16 == DigitValue(t[4]) && rgb.blue % 16 == DigitValue(t[5])
  {
    var t := StripHashes(hex);
    Rgb(ParseByte(t[0..2]), ParseByte(t[2..4]), ParseByte(t[4..6]))
  }

  /** The canonical table spelling of a colour: `#` and six upper-case digits. */
  function RgbToHex(rgb: Rgb): (hex: string)
    ensures |hex| == 7 && hex[0] == '#'
    ensures IsColorHex(hex) && StripHashes(hex) == hex[1..]
    ensures forall i :: 1 <= i < 7 ==> IsUpperHexDigit(hex[i])
  {
    var digits := HexByte(rgb.red) + HexByte(rgb.green) + HexByte(rgb.blue);
    assert forall i :: 0 <= i < 6 ==> IsUpperHexDigit(digits[i]);
    assert StripHashes(digits) == digits;
    assert ("#" + digits)[1..] == digits;
    "#" + digits
  }

  /** Decoding the canonical spelling of a colour gives the colour back. */
  lemma DecodeEncode(rgb: Rgb)
    ensures HexToRgb(RgbToHex(rgb)) == rgb
  {
    var t := StripHashes(RgbToHex(rgb));
    assert t[0..2] == HexByte(rgb.red);
    assert t[2..4] == HexByte(rgb.green);
    assert t[4..6] == HexByte(rgb.blue);
  }

  /** Re-encoding a decoded colour gives its digits upper-cased, behind one `#`. */
  lemma EncodeDecode(hex: string)
    requires IsColorHex(hex)
    ensures RgbToHex(HexToRgb(hex)) == "#" + Upper(StripHashes(hex))
  {
    var t := StripHashes(hex);
    HexByteOfParse(t[0..2]);
    HexByteOfParse(t[2..4]);
    HexByteOfParse(t[4..6]);
    UpperConcat(t[0..2], t[2..4]);
    UpperConcat(t[0..4], t[4..6]);
    assert t[0..2] + t[2..4] == t[0..4];
    assert t[0..4] + t[4..6] == t;
  }

  lemma UpperConcat(a: string, b: string)
    requires AllHexDigits(a) && AllHexDigits(b)
    ensures AllHexDigits(a + b) && Upper(a + b) == Upper(a) + Upper(b)
  {
    assert forall i :: 0 <= i < |a + b| ==> (a + b)[i] == if i < |a| then a[i] else b[i - |a|];
  }

  /** Each rendered channel is `0x` then the channel's digit pair of the input, upper-cased. */
  lemma FormatDecoded(hex: string)
    requires IsColorHex(hex)
    ensures var t := StripHashes(hex); var rgb := HexToRgb(hex);
      && FormatComponent(rgb.red) == "0x" + Upper(t[0..2])
      && FormatComponent(rgb.green) == "0x" + Upper(t[2..4])
      && FormatComponent(rgb.blue) == "0x" + Upper(t[4..6])
  {
    var t := StripHashes(hex);
    HexByteOfParse(t[0..2]);
    HexByteOfParse(t[2..4]);
    HexByteOfParse(t[4..6]);
  }

  /** Prefixing any number of `#`s changes neither validity nor the decoded colour. */
  lemma DecodeIgnoresHashes(n: nat, hex: string)
    ensures IsColorHex(Hashes(n) + hex) <==> IsColorHex(hex)
    ensures IsColorHex(hex) ==> HexToRgb(Hashes(n) + hex) == HexToRgb(hex)
  {
    StripHashesAfterHashes(n, hex);
  }
}
