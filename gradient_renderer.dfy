/**
 * GradientRenderer: the rectangles draw_horizontal_gradient puts on the
 * canvas and generate_gradient draws into the export image, and the band a
 * click lands in. Coordinates are exact reals where the original has floats.
 */
module GradientRenderer {
  import opened Arithmetic
  import opened Wrappers
  import opened ColorCodec

  /**
   * One rectangle command. `outline == None` means no outline argument was
   * given, so the drawing library applies its own default.
   */
  datatype Rect = Rect(x0: real, y0: real, x1: real, y1: real, fill: string, outline: Option<string>)

  /** The left edge of band i: i * (width / count), the point i/count of the way across. */
  function BandEdge(i: int, width: int, count: int): (e: real)
    requires count > 0
    ensures i == 0 ==> e == 0.0
  {
    (i as real) * ((width as real) / (count as real))
  }

  /**
   * The rectangle of band i: full height, between the edges of bands i and
   * i+1. Seamless bands reach one unit further right and are outlined in
   * their own fill.
   */
  function Band(colors: seq<Color>, width: int, height: int, seamless: bool, i: int): (b: Rect)
    requires 0 <= i < |colors|
    ensures b.y0 == 0.0 && b.y1 == height as real
    ensures b.x0 == BandEdge(i, width, |colors|)
    ensures b.x1 == BandEdge(i + 1, width, |colors|) + (if seamless then 1.0 else 0.0)
    ensures b.fill == Encode(colors[i])
    ensures b.outline == (if seamless then Some(b.fill) else None)
  {
    var hex := Encode(colors[i]);
    var x0, x1 := BandEdge(i, width, |colors|), BandEdge(i + 1, width, |colors|);
    if seamless then Rect(x0, 0.0, x1 + 1.0, height as real, hex, Some(hex))
    else Rect(x0, 0.0, x1, height as real, hex, None)
  }

  /** One band per colour, left to right, each starting where the previous one ends (minus the seamless overlap). */
  function Bands(colors: seq<Color>, width: int, height: int, seamless: bool): (rs: seq<Rect>)
    ensures |rs| == |colors|
    ensures |rs| > 0 ==> rs[0].x0 == 0.0
    ensures forall i :: 0 < i < |rs| ==> rs[i - 1].x1 == rs[i].x0 + (if seamless then 1.0 else 0.0)
  {
    seq(|colors|, i requires 0 <= i < |colors| => Band(colors, width, height, seamless, i))
  }

  /** Every band's fill decodes to its colour. */
  lemma BandStyle(colors: seq<Color>, width: int, height: int, seamless: bool, i: int)
    requires 0 <= i < |colors|
    ensures Decode(Band(colors, width, height, seamless, i).fill) == Ok(colors[i])
  {
    EncodeThenDecode(colors[i]);
  }

  /** The drawing loop: one rectangle per colour, left to right. */
  method RenderBands(colors: seq<Color>, width: int, height: int, seamless: bool) returns (rects: seq<Rect>)
    ensures rects == Bands(colors, width, height, seamless)
  {
    rects := [];
    for i := 0 to |colors|
      invariant |rects| == i
      invariant forall k :: 0 <= k < i ==> rects[k] == Band(colors, width, height, seamless, k)
    {
      rects := rects + [Band(colors, width, height, seamless, i)];
    }
  }

  /** Neighbouring bands share an edge; a seamless band overlaps its right neighbour by one unit. */
  lemma BandsAdjacent(colors: seq<Color>, width: int, height: int, seamless: bool, i: int)
    requires 0 <= i < |colors| - 1
    ensures Band(colors, width, height, seamless, i).x1
         == Band(colors, width, height, seamless, i + 1).x0 + (if seamless then 1.0 else 0.0)
  {
  }

  /** Every band has the same nominal width, width / count. */
  lemma BandWidth(colors: seq<Color>, width: int, height: int, seamless: bool, i: int)
    requires 0 <= i < |colors|
    ensures var b := Band(colors, width, height, seamless, i);
      b.x1 - b.x0 == (width as real) / (|colors| as real) + (if seamless then 1.0 else 0.0)
  {
    var q := (width as real) / (|colors| as real);
    assert ((i + 1) as real) * q == (i as real) * q + q;
  }

  /** The bands start at 0 and the last one ends at the canvas width (one past it when seamless). */
  lemma BandsCover(colors: seq<Color>, width: int, height: int, seamless: bool)
    requires |colors| > 0
    ensures Band(colors, width, height, seamless, 0).x0 == 0.0
    ensures Band(colors, width, height, seamless, |colors| - 1).x1
         == width as real + (if seamless then 1.0 else 0.0)
  {
    var n := |colors| as real;
    assert n * ((width as real) / n) == width as real;
  }

  /** An integer inequality carries over to the band edges, scaled by width / count. */
  lemma EdgeOrder(k: int, x: int, width: int, count: int)
    requires width > 0 && count > 0
    ensures k * width <= x * count ==> BandEdge(k, width, count) <= x as real
    ensures x * count < k * width ==> x as real < BandEdge(k, width, count)
  {
    var w, n := width as real, count as real;
    assert BandEdge(k, width, count) * n == (k as real) * w;
    assert ((k * width) as real) == (k as real) * w;
    assert ((x * count) as real) == (x as real) * n;
  }

  lemma FloorDivBounds(a: int, w: int)
    requires w > 0
    ensures w * (a / w) <= a < w * (a / w) + w
  {
  }

  /** floor(x * count / width) is below count exactly when x < width, and brackets x by band edges. */
  lemma ScaledClick(x: int, width: int, count: int)
    requires width > 0 && x >= 0 && count >= 1
    ensures var idx := (x * count) / width;
      && 0 <= idx
      && (x < width <==> idx < count)
      && (x < width ==> BandEdge(idx, width, count) <= x as real < BandEdge(idx + 1, width, count))
  {
    var p := x * count;
    var idx := p / width;
    FloorDivBounds(p, width);
    MulLe(width, 0, x);
    if x < width {
      ClickInside(x, width, count);
    } else {
      MulLe(count, width, x);
      if idx < count {
        MulLe(width, idx + 1, count);
      }
    }
  }

  /** Left of the right edge, floor(x * count / width) is a band index whose edges bracket x. */
  lemma ClickInside(x: int, width: int, count: int)
    requires width > 0 && 0 <= x < width && count >= 1
    ensures var idx := (x * count) / width;
      && idx < count
      && BandEdge(idx, width, count) <= x as real < BandEdge(idx + 1, width, count)
  {
    var p := x * count;
    var idx := p / width;
    FloorDivBounds(p, width);
    ClickBelowCount(x, width, count);
    assert width * (idx + 1) == width * idx + width;
    EdgeOrder(idx, x, width, count);
    EdgeOrder(idx + 1, x, width, count);
  }

  lemma ClickBelowCount(x: int, width: int, count: int)
    requires width > 0 && 0 <= x < width && count >= 1
    ensures (x * count) / width < count
  {
    var p := x * count;
    var idx := p / width;
    FloorDivBounds(p, width);
    MulLe(count, x + 1, width);
    assert p < width * count;
    if idx >= count {
      MulLe(width, count, idx);
    }
  }

  /** on_gradient_click: int(x / (width / count)), capped at the last band. */
  function ClickIndex(x: int, width: int, count: int): (k: int)
    requires width > 0 && x >= 0 && count >= 1
    ensures 0 <= k < count
    ensures x == 0 ==> k == 0
    ensures x >= width ==> k == count - 1
    ensures x < width ==> BandEdge(k, width, count) <= x as real < BandEdge(k + 1, width, count)
  {
    ScaledClick(x, width, count);
    var idx := (x * count) / width;
    if idx < count - 1 then idx else count - 1
  }

  /** A click left of the canvas's right edge picks the separated band whose span holds it. */
  lemma ClickHitsBand(colors: seq<Color>, width: int, height: int, x: int)
    requires width > 0 && 0 <= x < width && |colors| >= 1
    ensures var b := Band(colors, width, height, false, ClickIndex(x, width, |colors|));
      b.x0 <= x as real < b.x1
  {
  }
}
