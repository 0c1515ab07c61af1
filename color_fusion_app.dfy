/**
 * ColorFusionApp: the state the application keeps between events (the last
 * valid gradient and what the canvas shows), the click popup and the export.
 * Widget reads (entry texts, slider value, checkbox, canvas size) are passed
 * in as parameters.
 */
module ColorFusionApp {
  import opened Wrappers
  import opened ColorCodec
  import opened GradientBlender
  import opened ContrastAdvisor
  import opened GradientRenderer

  /** The slider's initial number of intermediate colours. */
  const INITIAL_STEPS := 10
  /** The side of the exported square image. */
  const EXPORT_SIZE := 2160

  /** An entry holding its placeholder or nothing is read as the given default. */
  function InputOrDefault(text: string, placeholder: string, default: string): (s: string)
    ensures text == placeholder || text == "" ==> s == default
    ensures text != placeholder && text != "" ==> s == text
  {
    if text == placeholder || text == "" then default else text
  }

  /**
   * The two endpoint decodes of update_gradient_display: both colours when
   * both entries decode, otherwise the error of the first entry that fails.
   */
  function DecodeInputs(text1: string, text2: string): (r: Result<(Color, Color), DecodeError>)
    ensures var d1 := Decode(InputOrDefault(text1, COLOR_ONE_PLACEHOLDER, "#000000"));
      var d2 := Decode(InputOrDefault(text2, COLOR_TWO_PLACEHOLDER, "#ffffff"));
      && (r.Ok? <==> d1.Ok? && d2.Ok?)
      && (r.Ok? ==> r.value == (d1.value, d2.value))
      && (d1.Err? ==> r == Err(d1.error))
      && (d1.Ok? && d2.Err? ==> r == Err(d2.error))
  {
    var d1 := Decode(InputOrDefault(text1, COLOR_ONE_PLACEHOLDER, "#000000"));
    var d2 := Decode(InputOrDefault(text2, COLOR_TWO_PLACEHOLDER, "#ffffff"));
    if d1.Err? then Err(d1.error)
    else if d2.Err? then Err(d2.error)
    else Ok((d1.value, d2.value))
  }

  lemma DecodeDefaultBlack()
    ensures Decode("#000000") == Ok(BLACK)
  {
    assert Hex2(0) == "00";
    assert "#000000" == Encode(BLACK);
    EncodeThenDecode(BLACK);
  }

  lemma DecodeDefaultWhite()
    ensures Decode("#ffffff") == Ok(WHITE)
  {
    ShortTextIsNoPlaceholder("#ffffff");
    StripDefaultWhite();
    LowerCaseCode();
  }

  lemma StripDefaultWhite()
    ensures LStripHash("#ffffff") == "ffffff"
  {
    assert "#ffffff" == Repeat('#', 1) + "ffffff";
    StripHashes(1, "ffffff");
  }

  /** Empty or placeholder entries blend black into white. */
  lemma DefaultInputs(text1: string, text2: string)
    requires text1 == COLOR_ONE_PLACEHOLDER || text1 == ""
    requires text2 == COLOR_TWO_PLACEHOLDER || text2 == ""
    ensures DecodeInputs(text1, text2) == Ok((BLACK, WHITE))
  {
    assert InputOrDefault(text1, COLOR_ONE_PLACEHOLDER, "#000000") == "#000000";
    assert InputOrDefault(text2, COLOR_TWO_PLACEHOLDER, "#ffffff") == "#ffffff";
    DecodeDefaultBlack();
    DecodeDefaultWhite();
  }

  /** What the gradient canvas shows. */
  datatype Canvas = Blank | Drawn(rects: seq<Rect>) | ErrorText(message: string)

  /** The colour details popup, without its HSL line. */
  datatype ColorDetails = ColorDetails(hex: string, rgb: Color, textColor: string, buttonColor: string)

  /** show_color_details_popup: decode the clicked hex code and derive the popup's colours. */
  function ShowColorDetails(hex: string): (r: Result<ColorDetails, DecodeError>)
    ensures r.Ok? <==> Decode(hex).Ok?
    ensures r.Ok? ==>
      && r.value.hex == hex && r.value.rgb == Decode(hex).value
      && r.value.textColor == LegibleTextColor(r.value.rgb)
      && r.value.buttonColor == AccentColor(r.value.rgb)
      && Decode(r.value.textColor).Ok?
      && IsDark(Decode(r.value.textColor).value) == !IsDark(r.value.rgb)
  {
    match Decode(hex)
    case Err(e) => Err(e)
    case Ok(rgb) => Ok(ColorDetails(hex, rgb, LegibleTextColor(rgb), AccentColor(rgb)))
  }

  class ColorFusionView {
    /** The last gradient blended without error; None until the first one. */
    var lastValidGradient: Option<seq<Color>>
    var canvas: Canvas

    /** From construction on, a gradient of at least two colours is stored. */
    ghost predicate Valid()
      reads this
    {
      lastValidGradient.Some? && |lastValidGradient.value| >= 2
    }

    /** Python's truth value of last_valid_gradient: present and non-empty. */
    predicate HasStoredGradient()
      reads this
    {
      lastValidGradient.Some? && |lastValidGradient.value| > 0
    }

    /** __init__: starts empty, then draws once from the placeholder entries. */
    constructor (width: int, height: int)
      ensures Valid()
      ensures lastValidGradient == Some(Blend(BLACK, WHITE, INITIAL_STEPS))
      ensures canvas == Drawn(Bands(Blend(BLACK, WHITE, INITIAL_STEPS), width, height, false))
    {
      lastValidGradient := None;
      canvas := Blank;
      new;
      DefaultInputs(COLOR_ONE_PLACEHOLDER, COLOR_TWO_PLACEHOLDER);
      UpdateGradientDisplay(COLOR_ONE_PLACEHOLDER, COLOR_TWO_PLACEHOLDER, INITIAL_STEPS, width, height, true);
    }

    /** draw_horizontal_gradient: clear the canvas and draw one band per colour. */
    method DrawHorizontalGradient(colors: seq<Color>, width: int, height: int, separations: bool)
      requires |colors| > 0
      modifies this`canvas
      ensures canvas == Drawn(Bands(colors, width, height, !separations))
    {
      var rects := RenderBands(colors, width, height, !separations);
      canvas := Drawn(rects);
    }

    /** handle_gradient_error: redraw the stored gradient, or show the error text. */
    method HandleGradientError(error: DecodeError, width: int, height: int, separations: bool)
      modifies this`canvas
      ensures HasStoredGradient() ==> canvas == Drawn(Bands(lastValidGradient.value, width, height, !separations))
      ensures !HasStoredGradient() ==> canvas == ErrorText("Error: " + error.Message())
    {
      if HasStoredGradient() {
        DrawHorizontalGradient(lastValidGradient.value, width, height, separations);
      } else {
        canvas := ErrorText("Error: " + error.Message());
      }
    }

    /** update_gradient_display: blend and store on success, fall back on a decode error. */
    method UpdateGradientDisplay(text1: string, text2: string, steps: int, width: int, height: int, separations: bool)
      modifies this
      ensures DecodeInputs(text1, text2).Ok? ==>
        var (c1, c2) := DecodeInputs(text1, text2).value;
        && lastValidGradient == Some(Blend(c1, c2, steps))
        && canvas == Drawn(Bands(Blend(c1, c2, steps), width, height, !separations))
      ensures DecodeInputs(text1, text2).Err? ==>
        && lastValidGradient == old(lastValidGradient)
        && canvas == if old(HasStoredGradient())
                     then Drawn(Bands(old(lastValidGradient).value, width, height, !separations))
                     else ErrorText("Error: " + DecodeInputs(text1, text2).error.Message())
      ensures DecodeInputs(text1, text2).Ok? || old(Valid()) ==> Valid()
    {
      var hex1 := InputOrDefault(text1, COLOR_ONE_PLACEHOLDER, "#000000");
      var hex2 := InputOrDefault(text2, COLOR_TWO_PLACEHOLDER, "#ffffff");
      var rgb1 := Decode(hex1);
      if rgb1.Err? {
        HandleGradientError(rgb1.error, width, height, separations);
        return;
      }
      var rgb2 := Decode(hex2);
      if rgb2.Err? {
        HandleGradientError(rgb2.error, width, height, separations);
        return;
      }
      var blended := BlendColors(rgb1.value, rgb2.value, steps);
      lastValidGradient := Some(blended);
      DrawHorizontalGradient(blended, width, height, separations);
    }

    /** on_gradient_click: the stored colour under x, shown in the details popup. */
    method OnGradientClick(x: int, width: int) returns (details: ColorDetails)
      requires Valid() && width > 0 && x >= 0
      ensures var g := lastValidGradient.value;
        var k := ClickIndex(x, width, |g|);
        && details.rgb == g[k]
        && details.hex == Encode(g[k])
        && details.textColor == LegibleTextColor(g[k])
        && details.buttonColor == AccentColor(g[k])
    {
      var g := lastValidGradient.value;
      var colorIndex := ClickIndex(x, width, |g|);
      var hex := Encode(g[colorIndex]);
      EncodeThenDecode(g[colorIndex]);
      details := ShowColorDetails(hex).value;
    }
  }

  /** The export's `entry or default`: only an empty entry is replaced. */
  function ExportEntry(entry: string, default: string): (s: string)
    ensures entry == "" ==> s == default
    ensures entry != "" ==> s == entry
  {
    if entry == "" then default else entry
  }

  /**
   * The export's suggested file name, from the raw entry texts: the first
   * code, the separator, the second code and the extension, in that order.
   */
  function ExportFilename(entry1: string, entry2: string): (name: string)
    ensures var h1, h2 := ExportEntry(entry1, "#000000"), ExportEntry(entry2, "#ffffff");
      && |name| == |h1| + |h2| + 16
      && name[..|h1|] == h1
      && name[|h1|..|h1| + 12] == "_fused_with_"
      && name[|h1| + 12..|name| - 4] == h2
      && name[|name| - 4..] == ".png"
  {
    var hex1 := ExportEntry(entry1, "#000000");
    var hex2 := ExportEntry(entry2, "#ffffff");
    hex1 + "_fused_with_" + hex2 + ".png"
  }

  /** For hex-coded entries, both codes can be read back from the file name. */
  lemma ExportFilenameRecoversColors(c1: Color, c2: Color)
    ensures var name := ExportFilename(Encode(c1), Encode(c2));
      && |name| == 30
      && Decode(name[..7]) == Ok(c1)
      && name[7..19] == "_fused_with_"
      && Decode(name[19..26]) == Ok(c2)
      && name[26..] == ".png"
  {
    var e1, e2 := Encode(c1), Encode(c2);
    var sep, ext := "_fused_with_", ".png";
    var name := ExportFilename(e1, e2);
    assert e1 != "" && e2 != "";
    assert name == e1 + sep + e2 + ext;
    assert |sep| == 12 && |ext| == 4;
    assert name[..7] == e1;
    assert name[7..19] == sep;
    assert name[19..26] == e2;
    assert name[26..] == ext;
    EncodeThenDecode(c1);
    EncodeThenDecode(c2);
  }

  /** Empty entries are named after the default colours. */
  lemma ExportFilenameDefaults()
    ensures ExportFilename("", "") == "#000000_fused_with_#ffffff.png"
  {
    assert ExportFilename("", "") == "#000000" + "_fused_with_" + "#ffffff" + ".png";
  }

  /** A placeholder is not an empty entry, so it is kept as typed. */
  lemma ExportFilenameKeepsPlaceholder()
    ensures ExportFilename(COLOR_ONE_PLACEHOLDER, "#123456")
         == "Enter Color 1 Hex Code_fused_with_#123456.png"
  {
    assert ExportFilename(COLOR_ONE_PLACEHOLDER, "#123456")
        == COLOR_ONE_PLACEHOLDER + "_fused_with_" + "#123456" + ".png";
  }

  /** The export image: white background under the band rectangles. */
  datatype Raster = Raster(width: int, height: int, background: string, rects: seq<Rect>)

  /** generate_gradient: decode both codes, blend, and draw separated bands without outline. */
  method GenerateGradient(hex1: string, hex2: string, steps: int, width: int, height: int)
    returns (image: Result<Raster, DecodeError>)
    ensures Decode(hex1).Err? ==> image == Err(Decode(hex1).error)
    ensures Decode(hex1).Ok? && Decode(hex2).Err? ==> image == Err(Decode(hex2).error)
    ensures Decode(hex1).Ok? && Decode(hex2).Ok? ==>
      var colors := Blend(Decode(hex1).value, Decode(hex2).value, steps);
      image == Ok(Raster(width, height, "#FFFFFF", Bands(colors, width, height, false)))
  {
    var rgb1 := Decode(hex1);
    if rgb1.Err? {
      return Err(rgb1.error);
    }
    var rgb2 := Decode(hex2);
    if rgb2.Err? {
      return Err(rgb2.error);
    }
    var colors := BlendColors(rgb1.value, rgb2.value, steps);
    var rects := RenderBands(colors, width, height, false);
    image := Ok(Raster(width, height, "#FFFFFF", rects));
  }

  datatype ExportOutcome = Cancelled | Saved(path: string, image: Raster) | Failed(message: string)

  /**
   * export_gradient_as_png: suggest a name, take the path the dialog returned
   * ("" when cancelled), and render the 2160 x 2160 image, or report the error.
   */
  method ExportGradientAsPng(entry1: string, entry2: string, steps: int, chosenPath: string)
    returns (suggested: string, outcome: ExportOutcome)
    ensures suggested == ExportFilename(entry1, entry2)
    ensures chosenPath == "" ==> outcome == Cancelled
    ensures chosenPath != "" ==>
      var hex1, hex2 := ExportEntry(entry1, "#000000"), ExportEntry(entry2, "#ffffff");
      match (Decode(hex1), Decode(hex2))
      case (Err(e), _) => outcome == Failed("Failed to save file: " + e.Message())
      case (Ok(_), Err(e)) => outcome == Failed("Failed to save file: " + e.Message())
      case (Ok(c1), Ok(c2)) =>
        outcome == Saved(chosenPath, Raster(EXPORT_SIZE, EXPORT_SIZE, "#FFFFFF",
                                            Bands(Blend(c1, c2, steps), EXPORT_SIZE, EXPORT_SIZE, false)))
  {
    var hex1 := ExportEntry(entry1, "#000000");
    var hex2 := ExportEntry(entry2, "#ffffff");
    suggested := ExportFilename(entry1, entry2);
    if chosenPath == "" {
      return suggested, Cancelled;
    }
    var image := GenerateGradient(hex1, hex2, steps, EXPORT_SIZE, EXPORT_SIZE);
    match image
    case Err(e) => outcome := Failed("Failed to save file: " + e.Message());
    case Ok(raster) => outcome := Saved(chosenPath, raster);
  }
}
