/**
 * ColorCodec: conversion between the text a user types into a colour field
 * and an RGB triple, and back to the "#RRGGBB" form used everywhere on screen.
 */
module ColorCodec {
  import opened Wrappers

  /** One 8-bit colour channel. */
  type Channel = x: int | 0 <= x <= 255

  datatype Color = Color(r: Channel, g: Channel, b: Channel)

  const BLACK := Color(0, 0, 0)
  const WHITE := Color(255, 255, 255)

  /** The placeholder texts of the two colour entries. */
  const COLOR_ONE_PLACEHOLDER := "Enter Color 1 Hex Code"
  const COLOR_TWO_PLACEHOLDER := "Enter Color 2 Hex Code"

  /** The two ValueErrors the decoder raises. */
  datatype DecodeError = WrongLength | InvalidDigits
  {
    function Message(): string {
      match this
      case WrongLength => "Hex color code must be 6 characters long"
      case InvalidDigits => "Invalid hex color code"
    }
  }

  predicate IsHexDigit(ch: char) {
    '0' <= ch <= '9' || 'a' <= ch <= 'f' || 'A' <= ch <= 'F'
  }

  predicate IsUpperHexDigit(ch: char) {
    '0' <= ch <= '9' || 'A' <= ch <= 'F'
  }

  function DigitValue(ch: char): (v: nat)
    requires IsHexDigit(ch)
    ensures v < 16
  {
    if '0' <= ch <= '9' then ch as int - '0' as int
    else if 'a' <= ch <= 'f' then ch as int - 'a' as int + 10
    else ch as int - 'A' as int + 10
  }

  /** The upper-case digit of `{:X}` formatting. */
  function HexDigit(v: nat): (ch: char)
    requires v < 16
    ensures IsUpperHexDigit(ch) && IsHexDigit(ch)
    ensures DigitValue(ch) == v
  {
    if v < 10 then ('0' as int + v) as char else ('A' as int + v - 10) as char
  }

  /** The value of a two-digit base-16 number. */
  function PairValue(hi: char, lo: char): (v: Channel)
    requires IsHexDigit(hi) && IsHexDigit(lo)
    ensures v / 16 == DigitValue(hi) && v % 16 == DigitValue(lo)
  {
    16 * DigitValue(hi) + DigitValue(lo)
  }

  function ToUpper(ch: char): char {
    if 'a' <= ch <= 'z' then (ch as int - 'a' as int + 'A' as int) as char else ch
  }

  function UpperCase(s: string): (u: string)
    ensures |u| == |s| && forall i :: 0 <= i < |s| ==> u[i] == ToUpper(s[i])
  {
    seq(|s|, i requires 0 <= i < |s| => ToUpper(s[i]))
  }

  /** `s` with every leading '#' removed, as Python's `str.lstrip("#")`. */
  function LStripHash(s: string): (t: string)
    ensures |t| <= |s| && t == s[|s| - |t|..]
    ensures forall i :: 0 <= i < |s| - |t| ==> s[i] == '#'
    ensures t == [] || t[0] != '#'
  {
    if |s| > 0 && s[0] == '#' then LStripHash(s[1..]) else s
  }

  /** Python's `int(pair, 16)`, restricted to ASCII hex digits. */
  function ParsePair(s: string): (p: Option<Channel>)
    requires |s| == 2
    ensures p.Some? <==> IsHexDigit(s[0]) && IsHexDigit(s[1])
    ensures p.Some? ==> p.value == PairValue(s[0], s[1])
  {
    if IsHexDigit(s[0]) && IsHexDigit(s[1]) then Some(PairValue(s[0], s[1])) else None
  }

  predicate AllHexDigits(t: string) {
    forall i :: 0 <= i < |t| ==> IsHexDigit(t[i])
  }

  /** The length and digit checks, applied to the code once its leading '#'s are gone. */
  function DecodeCode(t: string): (r: Result<Color, DecodeError>)
    ensures r == Err(WrongLength) <==> |t| != 6
    ensures r == Err(InvalidDigits) <==> |t| == 6 && !AllHexDigits(t)
    ensures r.Ok? ==>
      && |t| == 6 && AllHexDigits(t)
      && r.value == Color(PairValue(t[0], t[1]), PairValue(t[2], t[3]), PairValue(t[4], t[5]))
  {
    if |t| != 6 then Err(WrongLength)
    else
      var r := ParsePair(t[0..2]);
      var g := ParsePair(t[2..4]);
      var b := ParsePair(t[4..6]);
      if r.None? || g.None? || b.None? then Err(InvalidDigits)
      else Ok(Color(r.value, g.value, b.value))
  }

  predicate IsPlaceholder(text: string) {
    text == COLOR_ONE_PLACEHOLDER || text == COLOR_TWO_PLACEHOLDER
  }

  /** get_rgb_from_hex: the placeholders first, then '#'-stripping, length and digits. */
  function Decode(text: string): (r: Result<Color, DecodeError>)
    ensures text == COLOR_ONE_PLACEHOLDER ==> r == Ok(BLACK)
    ensures text == COLOR_TWO_PLACEHOLDER ==> r == Ok(WHITE)
    ensures !IsPlaceholder(text) ==> r == DecodeCode(LStripHash(text))
    ensures !IsPlaceholder(text) ==>
      var t := LStripHash(text);
      && (r == Err(WrongLength) <==> |t| != 6)
      && (r == Err(InvalidDigits) <==> |t| == 6 && !AllHexDigits(t))
      && (r.Ok? ==> r.value == Color(PairValue(t[0], t[1]), PairValue(t[2], t[3]), PairValue(t[4], t[5])))
  {
    if text == COLOR_ONE_PLACEHOLDER then Ok(BLACK)
    else if text == COLOR_TWO_PLACEHOLDER then Ok(WHITE)
    else DecodeCode(LStripHash(text))
  }

  /** `{:02X}`: two upper-case digits, zero-padded. */
  function Hex2(v: Channel): string {
    [HexDigit(v / 16), HexDigit(v % 16)]
  }

  /** The `"#{:02X}{:02X}{:02X}"` format. */
  function Encode(c: Color): (s: string)
    ensures |s| == 7 && s[0] == '#'
    ensures forall i :: 1 <= i < 7 ==> IsUpperHexDigit(s[i]) && IsHexDigit(s[i])
    ensures PairValue(s[1], s[2]) == c.r
    ensures PairValue(s[3], s[4]) == c.g
    ensures PairValue(s[5], s[6]) == c.b
  {
    "#" + Hex2(c.r) + Hex2(c.g) + Hex2(c.b)
  }

  /** `n` copies of `ch`. */
  function Repeat(ch: char, n: nat): (s: string)
    ensures |s| == n && forall i :: 0 <= i < n ==> s[i] == ch
  {
    if n == 0 then [] else [ch] + Repeat(ch, n - 1)
  }

  /** Any number of leading '#' is stripped, and nothing else. */
  lemma {:induction false} StripHashes(k: nat, t: string)
    requires t == [] || t[0] != '#'
    ensures LStripHash(Repeat('#', k) + t) == t
  {
    if k == 0 {
      assert Repeat('#', k) + t == t;
    } else {
      var rest := Repeat('#', k - 1) + t;
      assert Repeat('#', k) + t == ['#'] + rest;
      StripOneHash(rest);
      StripHashes(k - 1, t);
    }
  }

  /** One leading '#' is stripped like any other. */
  lemma StripOneHash(t: string)
    ensures LStripHash(['#'] + t) == LStripHash(t)
  {
    assert (['#'] + t)[1..] == t;
  }

  /** Decoding the hex form of any colour gives that colour back. */
  lemma EncodeThenDecode(c: Color)
    ensures Decode(Encode(c)) == Ok(c)
  {
    var s := Encode(c);
    assert !IsPlaceholder(s) by {
      assert |s| != |COLOR_ONE_PLACEHOLDER| && |s| != |COLOR_TWO_PLACEHOLDER|;
    }
    assert s == Repeat('#', 1) + s[1..];
    StripHashes(1, s[1..]);
  }

  lemma DigitRoundTrip(ch: char)
    requires IsHexDigit(ch)
    ensures HexDigit(DigitValue(ch)) == ToUpper(ch)
  {
  }

  lemma PairRoundTrip(hi: char, lo: char)
    requires IsHexDigit(hi) && IsHexDigit(lo)
    ensures Hex2(PairValue(hi, lo)) == [ToUpper(hi), ToUpper(lo)]
  {
    DigitRoundTrip(hi);
    DigitRoundTrip(lo);
  }

  lemma EncodeDecodedCode(t: string)
    requires DecodeCode(t).Ok?
    ensures Encode(DecodeCode(t).value) == "#" + UpperCase(t)
  {
    var c := DecodeCode(t).value;
    var u := UpperCase(t);
    assert Hex2(c.r) == u[0..2] by { PairRoundTrip(t[0], t[1]); }
    assert Hex2(c.g) == u[2..4] by { PairRoundTrip(t[2], t[3]); }
    assert Hex2(c.b) == u[4..6] by { PairRoundTrip(t[4], t[5]); }
    assert u == u[0..2] + u[2..4] + u[4..6];
  }

  /** Re-encoding a decoded hex code gives the code upper-cased, with a single '#'. */
  lemma DecodeThenEncode(text: string)
    requires !IsPlaceholder(text)
    requires Decode(text).Ok?
    ensures Encode(Decode(text).value) == "#" + UpperCase(LStripHash(text))
  {
    EncodeDecodedCode(LStripHash(text));
  }

  /** Decoding `k` hashes followed by a code is decoding the bare code. */
  lemma DecodeAfterHashes(k: nat, t: string)
    requires t == [] || t[0] != '#'
    requires !IsPlaceholder(Repeat('#', k) + t)
    ensures Decode(Repeat('#', k) + t) == DecodeCode(t)
  {
    StripHashes(k, t);
  }

  /** The placeholder texts are longer than every code decoded in the examples. */
  lemma ShortTextIsNoPlaceholder(text: string)
    requires |text| < |COLOR_ONE_PLACEHOLDER| && |text| < |COLOR_TWO_PLACEHOLDER|
    ensures !IsPlaceholder(text)
  {
  }

  lemma DecodeBlackWithoutHash()
    ensures Decode("000000") == Ok(BLACK)
  {
    assert "000000" == Repeat('#', 0) + "000000";
    assert !IsPlaceholder("000000") by {
      ShortTextIsNoPlaceholder("000000");
    }
    DecodeAfterHashes(0, "000000");
    assert DecodeCode("000000") == Ok(BLACK) by {
      assert AllHexDigits("000000") && PairValue('0', '0') == 0;
    }
  }

  lemma DecodeWhiteWithHash()
    ensures Decode("#FFFFFF") == Ok(WHITE)
  {
    assert Hex2(255) == "FF";
    assert "#FFFFFF" == Encode(WHITE);
    EncodeThenDecode(WHITE);
  }

  lemma DecodeTooShort()
    ensures Decode("12") == Err(WrongLength)
  {
    ShortTextIsNoPlaceholder("12");
  }

  lemma DecodeNotHex()
    ensures Decode("GGGGGG") == Err(InvalidDigits)
  {
    ShortTextIsNoPlaceholder("GGGGGG");
    assert !IsHexDigit("GGGGGG"[0]);
  }

  /** `int(pair, 16)` accepts lower-case digits. */
  lemma LowerCaseCode()
    ensures DecodeCode("ff8000") == Ok(Color(255, 128, 0))
    ensures DecodeCode("ffffff") == Ok(WHITE)
  {
    assert AllHexDigits("ff8000") && AllHexDigits("ffffff");
    assert PairValue('f', 'f') == 255 && PairValue('8', '0') == 128 && PairValue('0', '0') == 0;
  }

  /** lstrip removes every leading '#', not just one. */
  lemma StripTwoHashes()
    ensures LStripHash("##ff8000") == "ff8000"
  {
    assert "##ff8000" == Repeat('#', 2) + "ff8000";
    StripHashes(2, "ff8000");
  }

  /** Both hashes are stripped, and lower-case digits are accepted. */
  lemma DecodeDoubleHashLowerCase()
    ensures Decode("##ff8000") == Ok(Color(255, 128, 0))
  {
    ShortTextIsNoPlaceholder("##ff8000");
    StripTwoHashes();
    LowerCaseCode();
  }
}
