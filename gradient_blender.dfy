/**
 * GradientBlender: blend_colors, the list [start, N interpolated midpoints, end].
 * The interpolated value start + i/(N+1) * (end - start) is kept as the exact
 * fraction (start*(N+1) + i*(end - start)) / (N+1) and rounded half to even,
 * as Python's round does.
 */
module GradientBlender {
  import opened Arithmetic
  import opened ColorCodec

  /** The nearest integer to num/den; a tie goes to the even neighbour. */
  function RoundHalfEven(num: int, den: int): (r: int)
    requires den > 0
    ensures 2 * (den * r) - den <= 2 * num <= 2 * (den * r) + den
    ensures (2 * num == 2 * (den * r) - den || 2 * num == 2 * (den * r) + den) ==> r % 2 == 0
  {
    var q, rem := num / den, num % den;
    assert num == den * q + rem;
    assert den * (q + 1) == den * q + den;
    if 2 * rem < den then q
    else if 2 * rem > den then q + 1
    else if q % 2 == 0 then q
    else q + 1
  }

  /** Rounding cannot leave an integer interval that holds the exact value. */
  lemma RoundWithin(num: int, den: int, lo: int, hi: int)
    requires den > 0
    requires den * lo <= num <= den * hi
    ensures lo <= RoundHalfEven(num, den) <= hi
  {
    var r := RoundHalfEven(num, den);
    if r < lo {
      MulStep(den, r, lo);
    }
    if r > hi {
      MulStep(den, hi, r);
    }
  }

  /** Rounding is monotone: a larger numerator never rounds lower. */
  lemma RoundMonotone(a: int, b: int, den: int)
    requires den > 0 && a <= b
    ensures RoundHalfEven(a, den) <= RoundHalfEven(b, den)
  {
    var ra, rb := RoundHalfEven(a, den), RoundHalfEven(b, den);
    if ra > rb {
      MulStep(den, rb, ra);
      if ra > rb + 1 {
        MulStep(den, rb + 1, ra);
      }
    }
  }

  /** The exact value a + i/m * (b - a) lies between a and b, and so does its rounding. */
  lemma RoundedMixWithin(a: Channel, b: Channel, i: int, m: int)
    requires 0 <= i <= m && 0 < m
    ensures var v := RoundHalfEven(a * m + i * (b - a), m);
      (a <= b ==> a <= v <= b) && (b <= a ==> b <= v <= a)
  {
    var num := a * m + i * (b - a);
    if a <= b {
      assert m * a <= num <= m * b by {
        assert num - m * a == i * (b - a) >= 0;
        assert m * b - num == (m - i) * (b - a);
      }
      RoundWithin(num, m, a, b);
    }
    if b <= a {
      assert m * b <= num <= m * a by {
        assert num - m * b == (m - i) * (a - b);
        assert m * a - num == i * (a - b);
      }
      RoundWithin(num, m, b, a);
    }
  }

  /** One channel of the midpoint at step i of m: round(a + i/m * (b - a)). */
  function Mix(a: Channel, b: Channel, i: int, m: int): (v: Channel)
    requires 0 <= i <= m && 0 < m
    ensures a <= b ==> a <= v <= b
    ensures b <= a ==> b <= v <= a
  {
    RoundedMixWithin(a, b, i, m);
    RoundHalfEven(a * m + i * (b - a), m)
  }

  /** The interpolation starts at a and ends at b exactly. */
  lemma MixEndpoints(a: Channel, b: Channel, m: int)
    requires 0 < m
    ensures Mix(a, b, 0, m) == a && Mix(a, b, m, m) == b
  {
    assert a * m + 0 * (b - a) == m * a;
    RoundWithin(a * m, m, a, a);
    assert a * m + m * (b - a) == m * b;
    RoundWithin(m * b, m, b, b);
  }

  /** Along the steps, a channel moves from a towards b and never back. */
  lemma MixMonotone(a: Channel, b: Channel, i: int, j: int, m: int)
    requires 0 <= i <= j <= m && 0 < m
    ensures a <= b ==> Mix(a, b, i, m) <= Mix(a, b, j, m)
    ensures b <= a ==> Mix(a, b, j, m) <= Mix(a, b, i, m)
  {
    var ni, nj := a * m + i * (b - a), a * m + j * (b - a);
    if a <= b {
      MulLe(b - a, i, j);
      assert (b - a) * i == i * (b - a) && (b - a) * j == j * (b - a);
      RoundMonotone(ni, nj, m);
    }
    if b <= a {
      MulLe(a - b, i, j);
      assert (a - b) * i == -(i * (b - a)) && (a - b) * j == -(j * (b - a));
      RoundMonotone(nj, ni, m);
    }
  }

  /** The colour at step i of m: every channel lies between the endpoints' channels. */
  function Midpoint(c1: Color, c2: Color, i: int, m: int): (p: Color)
    requires 0 <= i <= m && 0 < m
    ensures c1.r <= p.r <= c2.r || c2.r <= p.r <= c1.r
    ensures c1.g <= p.g <= c2.g || c2.g <= p.g <= c1.g
    ensures c1.b <= p.b <= c2.b || c2.b <= p.b <= c1.b
  {
    Color(Mix(c1.r, c2.r, i, m), Mix(c1.g, c2.g, i, m), Mix(c1.b, c2.b, i, m))
  }

  /** What blend_colors returns: length N+2 (2 when N < 1), starting at c1 and ending at c2. */
  function Blend(c1: Color, c2: Color, numMidpoints: int): (s: seq<Color>)
    ensures |s| == (if numMidpoints >= 1 then numMidpoints + 2 else 2)
    ensures s[0] == c1 && s[|s| - 1] == c2
  {
    if numMidpoints >= 1 then
      [c1] + seq(numMidpoints, k requires 0 <= k < numMidpoints => Midpoint(c1, c2, k + 1, numMidpoints + 1)) + [c2]
    else
      [c1, c2]
  }

  /** blend_colors: the list is built by appending, as in the original loop. */
  method BlendColors(c1: Color, c2: Color, numMidpoints: int) returns (blended: seq<Color>)
    ensures blended == Blend(c1, c2, numMidpoints)
  {
    blended := [c1];
    if numMidpoints >= 1 {
      for i := 1 to numMidpoints + 1
        invariant |blended| == i
        invariant blended[0] == c1
        invariant forall k :: 1 <= k < i ==> blended[k] == Midpoint(c1, c2, k, numMidpoints + 1)
      {
        blended := blended + [Midpoint(c1, c2, i, numMidpoints + 1)];
      }
    }
    blended := blended + [c2];
  }

  /** Every element, endpoints included, is the interpolation at its own index. */
  lemma {:induction false} BlendIsInterpolation(c1: Color, c2: Color, numMidpoints: int, k: int)
    requires 0 <= k < |Blend(c1, c2, numMidpoints)|
    ensures var s := Blend(c1, c2, numMidpoints);
      s[k] == Midpoint(c1, c2, k, |s| - 1)
  {
    var m := |Blend(c1, c2, numMidpoints)| - 1;
    MixEndpoints(c1.r, c2.r, m);
    MixEndpoints(c1.g, c2.g, m);
    MixEndpoints(c1.b, c2.b, m);
  }

  /** Every channel of every element lies between the endpoints' channels. */
  lemma BlendBetween(c1: Color, c2: Color, numMidpoints: int, k: int)
    requires 0 <= k < |Blend(c1, c2, numMidpoints)|
    ensures var c := Blend(c1, c2, numMidpoints)[k];
      && (c1.r <= c.r <= c2.r || c2.r <= c.r <= c1.r)
      && (c1.g <= c.g <= c2.g || c2.g <= c.g <= c1.g)
      && (c1.b <= c.b <= c2.b || c2.b <= c.b <= c1.b)
  {
    BlendIsInterpolation(c1, c2, numMidpoints, k);
  }

  /** Each channel is non-decreasing along the list when it rises, non-increasing when it falls. */
  lemma BlendMonotone(c1: Color, c2: Color, numMidpoints: int, i: int, j: int)
    requires 0 <= i <= j < |Blend(c1, c2, numMidpoints)|
    ensures var s := Blend(c1, c2, numMidpoints);
      && (c1.r <= c2.r ==> s[i].r <= s[j].r) && (c2.r <= c1.r ==> s[j].r <= s[i].r)
      && (c1.g <= c2.g ==> s[i].g <= s[j].g) && (c2.g <= c1.g ==> s[j].g <= s[i].g)
      && (c1.b <= c2.b ==> s[i].b <= s[j].b) && (c2.b <= c1.b ==> s[j].b <= s[i].b)
  {
    var m := |Blend(c1, c2, numMidpoints)| - 1;
    BlendIsInterpolation(c1, c2, numMidpoints, i);
    BlendIsInterpolation(c1, c2, numMidpoints, j);
    MixMonotone(c1.r, c2.r, i, j, m);
    MixMonotone(c1.g, c2.g, i, j, m);
    MixMonotone(c1.b, c2.b, i, j, m);
  }

  /** Blending a colour with itself gives that colour at every position. */
  lemma BlendConstant(c: Color, numMidpoints: int, k: int)
    requires 0 <= k < |Blend(c, c, numMidpoints)|
    ensures Blend(c, c, numMidpoints)[k] == c
  {
    BlendBetween(c, c, numMidpoints, k);
  }

  /** One midpoint between black and white: 127.5 rounds to the even 128. */
  lemma BlendBlackWhite()
    ensures Blend(BLACK, WHITE, 1) == [BLACK, Color(128, 128, 128), WHITE]
  {
    assert RoundHalfEven(255, 2) == 128;
  }
}
