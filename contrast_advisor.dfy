/**
 * ContrastAdvisor: the darkness test, the legible text colour and the
 * brightness-adjusted accent colour of the colour details popup.
 */
module ContrastAdvisor {
  import opened Arithmetic
  import opened Wrappers
  import opened ColorCodec

  /** 1000 times the weighted brightness (299 r + 587 g + 114 b) / 1000. */
  function Luma(c: Color): int {
    299 * c.r + 587 * c.g + 114 * c.b
  }

  function Brightness(c: Color): (y: real)
    ensures 0.0 <= y <= 255.0
  {
    Luma(c) as real / 1000.0
  }

  /**
   * is_color_dark: brightness strictly below 123. The test needs no
   * division: it is an integer comparison.
   */
  predicate IsDark(c: Color)
    ensures IsDark(c) <==> Luma(c) < 123000
  {
    Brightness(c) < 123.0
  }

  lemma BlackIsDark()
    ensures IsDark(BLACK)
  {
  }

  lemma WhiteIsNotDark()
    ensures !IsDark(WHITE)
  {
  }

  /** The threshold is strict: brightness exactly 123 is not dark, one step below is. */
  lemma DarknessThreshold()
    ensures Luma(Color(0, 174, 183)) == 123000 && !IsDark(Color(0, 174, 183))
    ensures Luma(Color(0, 174, 182)) < 123000 && IsDark(Color(0, 174, 182))
  {
  }

  /** A colour no brighter in any channel than a dark colour is dark too. */
  lemma DarkIsDownwardClosed(c: Color, d: Color)
    requires c.r <= d.r && c.g <= d.g && c.b <= d.b
    requires IsDark(d)
    ensures IsDark(c)
  {
  }

  const LIGHT_TEXT := "#EFF0F1"
  const DARK_TEXT := "#31363B"

  lemma LightTextDecodes()
    ensures Decode(LIGHT_TEXT) == Ok(Color(239, 240, 241))
  {
    assert Hex2(239) == "EF" && Hex2(240) == "F0" && Hex2(241) == "F1";
    assert LIGHT_TEXT == Encode(Color(239, 240, 241));
    EncodeThenDecode(Color(239, 240, 241));
  }

  lemma DarkTextDecodes()
    ensures Decode(DARK_TEXT) == Ok(Color(49, 54, 59))
  {
    assert Hex2(49) == "31" && Hex2(54) == "36" && Hex2(59) == "3B";
    assert DARK_TEXT == Encode(Color(49, 54, 59));
    EncodeThenDecode(Color(49, 54, 59));
  }

  /** get_legible_text_color: one of two fixed colours, on the other side of the darkness threshold. */
  function LegibleTextColor(c: Color): (t: string)
    ensures IsDark(c) ==> t == LIGHT_TEXT
    ensures !IsDark(c) ==> t == DARK_TEXT
    ensures Decode(t).Ok? && IsDark(Decode(t).value) == !IsDark(c)
  {
    LightTextDecodes();
    DarkTextDecodes();
    if IsDark(c) then LIGHT_TEXT else DARK_TEXT
  }

  function Abs(x: int): nat {
    if x < 0 then -x else x
  }

  /** Python's int() of a / d: the quotient truncated toward zero. */
  function TruncDiv(a: int, d: int): (q: int)
    requires d > 0
    ensures d * Abs(q) <= Abs(a) < d * Abs(q) + d
    ensures (0 <= a ==> 0 <= q) && (a <= 0 ==> q <= 0)
  {
    var p := Abs(a) / d;
    assert Abs(a) == d * p + Abs(a) % d;
    if a >= 0 then p else -p
  }

  /** max(min_threshold, min(255, x)). */
  function ClampChannel(x: int, minThreshold: Channel): (v: Channel)
    ensures minThreshold <= v
    ensures minThreshold <= x <= 255 ==> v == x
    ensures 255 < x ==> v == 255
    ensures x < minThreshold ==> v == minThreshold
  {
    if x > 255 then 255 else if x < minThreshold then minThreshold else x
  }

  const DEFAULT_MIN_THRESHOLD: Channel := 30

  /**
   * Each channel scaled by factorNum/factorDen, truncated and clamped to
   * [minThreshold, 255]: it is at least minThreshold, and it is the truncated
   * product whenever that is in range.
   */
  function AdjustedColor(c: Color, factorNum: int, factorDen: int, minThreshold: Channel): (a: Color)
    requires factorDen > 0
    ensures minThreshold <= a.r && minThreshold <= a.g && minThreshold <= a.b
    ensures minThreshold <= TruncDiv(c.r * factorNum, factorDen) <= 255 ==> a.r == TruncDiv(c.r * factorNum, factorDen)
    ensures minThreshold <= TruncDiv(c.g * factorNum, factorDen) <= 255 ==> a.g == TruncDiv(c.g * factorNum, factorDen)
    ensures minThreshold <= TruncDiv(c.b * factorNum, factorDen) <= 255 ==> a.b == TruncDiv(c.b * factorNum, factorDen)
  {
    Color(
      ClampChannel(TruncDiv(c.r * factorNum, factorDen), minThreshold),
      ClampChannel(TruncDiv(c.g * factorNum, factorDen), minThreshold),
      ClampChannel(TruncDiv(c.b * factorNum, factorDen), minThreshold))
  }

  /** adjust_color_brightness: the adjusted colour as a "#RRGGBB" code. */
  function AdjustBrightness(c: Color, factorNum: int, factorDen: int, minThreshold: Channel): (s: string)
    requires factorDen > 0
    ensures |s| == 7 && s[0] == '#'
    ensures Decode(s) == Ok(AdjustedColor(c, factorNum, factorDen, minThreshold))
  {
    EncodeThenDecode(AdjustedColor(c, factorNum, factorDen, minThreshold));
    Encode(AdjustedColor(c, factorNum, factorDen, minThreshold))
  }

  /** The accent factor: 1.5 for a dark colour, 0.8 otherwise, as a fraction. */
  function AccentFactor(c: Color): (f: (int, int))
    ensures f.1 > 0
    ensures IsDark(c) ==> f.0 > f.1
    ensures !IsDark(c) ==> 0 < f.0 < f.1
  {
    if IsDark(c) then (3, 2) else (4, 5)
  }

  /**
   * The background of the popup's copy button: the code of the colour scaled
   * by the accent factor, with every channel at least 30.
   */
  function AccentColor(c: Color): (s: string)
    ensures var a := AdjustedColor(c, AccentFactor(c).0, AccentFactor(c).1, DEFAULT_MIN_THRESHOLD);
      && 30 <= a.r && 30 <= a.g && 30 <= a.b
      && s == Encode(a)
  {
    AdjustBrightness(c, AccentFactor(c).0, AccentFactor(c).1, DEFAULT_MIN_THRESHOLD)
  }

  /** Scaling by a factor of at least 1 never lowers a channel. */
  lemma ScaledUp(v: Channel, num: int, den: int)
    requires 0 < den <= num
    ensures TruncDiv(v * num, den) >= v
  {
    var q := TruncDiv(v * num, den);
    MulLe(v, den, num);
    if q < v {
      MulStep(den, q, v);
    }
  }

  /** Scaling by a factor in [0, 1] never raises a channel. */
  lemma ScaledDown(v: Channel, num: int, den: int)
    requires 0 < den && 0 <= num <= den
    ensures 0 <= TruncDiv(v * num, den) <= v
  {
    var q := TruncDiv(v * num, den);
    MulLe(v, 0, num);
    MulLe(v, num, den);
    if q > v {
      MulStep(den, v, q);
    }
  }

  /** On a dark colour the accent is at least as bright in every channel, and at least 30. */
  lemma AccentLightensDarkColor(c: Color)
    requires IsDark(c)
    ensures Decode(AccentColor(c)).Ok?
    ensures var a := Decode(AccentColor(c)).value;
      && c.r <= a.r && c.g <= a.g && c.b <= a.b
      && 30 <= a.r && 30 <= a.g && 30 <= a.b
  {
    ScaledUp(c.r, 3, 2);
    ScaledUp(c.g, 3, 2);
    ScaledUp(c.b, 3, 2);
  }

  function Max30(v: Channel): Channel {
    if v < 30 then 30 else v
  }

  /** On a light colour the accent is no brighter in any channel, except for the floor of 30. */
  lemma AccentDarkensLightColor(c: Color)
    requires !IsDark(c)
    ensures Decode(AccentColor(c)).Ok?
    ensures var a := Decode(AccentColor(c)).value;
      && a.r <= Max30(c.r)
      && a.g <= Max30(c.g)
      && a.b <= Max30(c.b)
      && 30 <= a.r && 30 <= a.g && 30 <= a.b
  {
    var a := AdjustedColor(c, 4, 5, 30);
    assert AccentColor(c) == Encode(a);
    EncodeThenDecode(a);
    ScaledDown(c.r, 4, 5);
    ScaledDown(c.g, 4, 5);
    ScaledDown(c.b, 4, 5);
  }

  /** A light grey's accent is 0.8 of it. */
  lemma AccentOfLightGrey()
    ensures AccentColor(Color(200, 200, 200)) == "#A0A0A0"
  {
    var grey := Color(200, 200, 200);
    assert !IsDark(grey);
    assert AdjustedColor(grey, 4, 5, 30) == Color(160, 160, 160) by {
      assert TruncDiv(200 * 4, 5) == 160;
    }
    assert Encode(Color(160, 160, 160)) == "#A0A0A0" by {
      assert Hex2(160) == "A0";
    }
  }

  /** A dark navy's accent: blue scaled by 1.5, red and green raised to the floor of 30. */
  lemma AccentOfNavy()
    ensures AccentColor(Color(0, 0, 128)) == "#1E1EC0"
  {
    var navy := Color(0, 0, 128);
    assert IsDark(navy);
    assert AdjustedColor(navy, 3, 2, 30) == Color(30, 30, 192) by {
      assert TruncDiv(0 * 3, 2) == 0 && TruncDiv(128 * 3, 2) == 192;
    }
    assert Encode(Color(30, 30, 192)) == "#1E1EC0" by {
      assert Hex2(30) == "1E" && Hex2(192) == "C0";
    }
  }
}
