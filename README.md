# Color Fusion: a Dafny model of the colour and gradient logic

Color Fusion is a Tk desktop tool. The user types two hex colours and picks a
number of intermediate steps with a slider. The tool shows the linear RGB
gradient between the two colours as a strip of bands. Clicking a band opens a
popup with that colour's details, and the gradient can be exported as a
2160 x 2160 PNG. This project models the logic inside `ColorFusionApp` that the
widgets call, and proves properties of it:

- `ColorCodec` (color_codec.dfy): `get_rgb_from_hex` and the
  `"#{:02X}{:02X}{:02X}"` format, modelled once as `Encode`. The two
  placeholder texts decode to black and white. Every leading `#` is stripped.
  A wrong length and a non-hex pair are the two `ValueError`s.
- `GradientBlender` (gradient_blender.dfy): `blend_colors`, the list
  `[start, N midpoints, end]`. Each midpoint channel is
  `round(a + i/(N+1) * (b - a))`, computed on the exact fraction and rounded
  half to even, as Python's `round` does.
- `ContrastAdvisor` (contrast_advisor.dfy): `is_color_dark`,
  `get_legible_text_color`, `adjust_color_brightness`, and the accent factor
  of the details popup.
- `GradientRenderer` (gradient_renderer.dfy): the band rectangles of
  `draw_horizontal_gradient` and `generate_gradient`, with exact real
  coordinates, and the band index of `on_gradient_click`.
- `ColorFusionApp` (color_fusion_app.dfy): the class `ColorFusionView`. Its
  fields are `lastValidGradient` (the original's `last_valid_gradient`) and
  `canvas` (what the gradient canvas shows). The module also holds the
  details popup, the export file name, `generate_gradient` and
  `export_gradient_as_png`.
- `Wrappers` (wrappers.dfy): `Option` and `Result`; `Arithmetic` (arithmetic.dfy):
  monotonicity of multiplication, used by the nonlinear proofs.

Widget reads are parameters of the methods: entry texts, slider value,
separations checkbox and canvas size. So is the path the save dialog returns
(`""` when cancelled).

Where the code and its description disagree, the model follows the code:

- `lstrip("#")` strips every leading `#`, not just one.
- `round` is half to even, not half away from zero: one midpoint between black
  and white is 128 either way, because 127.5 rounds to even 128.
- In separated mode a band has no outline argument, so Tk draws its default
  border. In seamless mode the band is one unit wider and its outline equals
  its fill.
- The click index is capped at the last band but not clamped below 0.
- The docstring of `get_legible_text_color` names `#FFFFFF`/`#000000`; the
  code returns `#EFF0F1`/`#31363B`.
- The drawing at color_fusion.py:351 divides by the number of colours, not by
  the width. A zero canvas width is harmless there; only the click
  (color_fusion.py:389) divides by the width.
- The export name is built from the raw entry text. An entry still showing
  its placeholder puts the placeholder text into the file name.

Float arithmetic is replaced by exact arithmetic. These two things make that
safe:

- `int(c * 1.5)` is exact in floating point.
- For channels 0..255, `int(c * 0.8)` equals the exact `floor(4c/5)`. When
  `4c/5` is an integer, the float product is not below it, because the double
  nearest 0.8 is above 0.8. Otherwise `4c/5` is at least 0.2 away from an
  integer.

The interpolation ratio `i/(N+1)` and the band widths are floats in the
original. On an exact tie or an exact band boundary, the float result may
land on the other side of the model's exact result, because IEEE-754
rounding of the ratio or the width can move a value that is exactly on the
boundary slightly to either side.

## Model

| member | source | states |
|---|---|---|
| ColorCodec.Decode | color_fusion.py:492-508 | placeholder 1 gives (0,0,0) and placeholder 2 gives (255,255,255), checked before stripping; otherwise, after all leading `#` are stripped, a length other than 6 is `WrongLength`, six characters with a non-hex one is `InvalidDigits`, and success gives the three base-16 pairs |
| ColorCodec.DecodeCode | color_fusion.py:499-508 | the length and digit checks: `WrongLength` exactly when the length is not 6, `InvalidDigits` exactly when some of the six characters is not a hex digit, otherwise the pair values |
| ColorCodec.PairValue | color_fusion.py:503-505 | the value of two hex digits is the unique number below 256 whose base-16 digits they are: value / 16 is the first digit's value and value % 16 the second's |
| ColorCodec.ParsePair | color_fusion.py:503-508 | `int(pair, 16)` of a two-character slice succeeds exactly when both characters are hex digits, and then gives their pair value |
| ColorCodec.LStripHash | color_fusion.py:497 | the result is a suffix of the input, everything removed was `#`, and the result does not start with `#` |
| ColorCodec.StripHashes | color_fusion.py:497 | any number k of leading `#` before a code not starting with `#` is removed, and nothing else |
| ColorCodec.StripOneHash | color_fusion.py:497 | a leading `#` is stripped and the rest is stripped the same way |
| ColorCodec.DecodeAfterHashes | color_fusion.py:497-508 | decoding k hashes followed by a code is decoding the bare code |
| ColorCodec.HexDigit | color_fusion.py:354-356 | the `{:X}` digit of v < 16 is an upper-case hex digit whose value is v |
| ColorCodec.Encode | color_fusion.py:354-356 | the code is 7 characters, starts with `#`, the rest are upper-case hex digits, and each zero-padded pair has the value of its channel |
| ColorCodec.EncodeThenDecode | color_fusion.py:497-506 | for every colour, decoding its `#RRGGBB` code gives the colour back |
| ColorCodec.EncodeDecodedCode | color_fusion.py:499-506 | encoding what a six-digit code decodes to gives `#` plus the code upper-cased |
| ColorCodec.DecodeThenEncode | color_fusion.py:497-506 | for every non-placeholder text that decodes, re-encoding gives `#` plus the stripped text upper-cased |
| ColorCodec.ShortTextIsNoPlaceholder | color_fusion.py:492-495 | a text shorter than both placeholders is not special-cased |
| ColorCodec.DecodeBlackWithoutHash | color_fusion.py:497-506 | "000000" decodes to (0,0,0) |
| ColorCodec.DecodeWhiteWithHash | color_fusion.py:497-506 | "#FFFFFF" decodes to (255,255,255) |
| ColorCodec.DecodeTooShort | color_fusion.py:499-500 | "12" fails with the length error |
| ColorCodec.DecodeNotHex | color_fusion.py:502-508 | "GGGGGG" fails with the digit error |
| ColorCodec.LowerCaseCode | color_fusion.py:503-506 | lower-case digits are accepted: "ff8000" is (255,128,0) and "ffffff" is (255,255,255) |
| ColorCodec.StripTwoHashes | color_fusion.py:497 | lstrip removes both hashes of "##ff8000", not just one |
| ColorCodec.DecodeDoubleHashLowerCase | color_fusion.py:497-506 | "##ff8000" decodes to (255,128,0): every `#` is stripped and lower-case digits are accepted |
| GradientBlender.RoundHalfEven | color_fusion.py:517-519 | the result is within 1/2 of num/den, and on a tie it is even (Python's `round`) |
| GradientBlender.RoundWithin | color_fusion.py:517-519 | rounding stays inside any integer interval that holds the exact value |
| GradientBlender.RoundMonotone | color_fusion.py:517-519 | a larger exact value never rounds lower |
| GradientBlender.Mix | color_fusion.py:515-519 | the channel at step i of m lies between the two endpoint channels, so it is in [0,255] |
| GradientBlender.MixEndpoints | color_fusion.py:515-519 | at step 0 the channel is the start channel, at step m the end channel |
| GradientBlender.MixMonotone | color_fusion.py:515-519 | the channel moves from the start towards the end and never back as the step grows |
| GradientBlender.Midpoint | color_fusion.py:515-520 | the colour at step i of m has every channel between the corresponding channels of the two endpoints |
| GradientBlender.BlendColors | color_fusion.py:510-524 | the loop that appends the midpoints builds exactly the blend list |
| GradientBlender.Blend | color_fusion.py:510-524 | the blend list has length N+2 when N >= 1 and 2 otherwise; element 0 is the start colour and the last element the end colour |
| GradientBlender.BlendIsInterpolation | color_fusion.py:511-523 | every element, endpoints included, is the rounded interpolation at its index over length-1 steps |
| GradientBlender.BlendBetween | color_fusion.py:514-521 | every channel of every element lies between the endpoints' channels |
| GradientBlender.BlendMonotone | color_fusion.py:514-521 | each channel is non-decreasing along the list when start <= end and non-increasing when start >= end |
| GradientBlender.BlendConstant | color_fusion.py:510-524 | blending a colour with itself gives that colour at every position, for every N |
| GradientBlender.BlendBlackWhite | color_fusion.py:514-521 | one midpoint between black and white gives [(0,0,0), (128,128,128), (255,255,255)] |
| ContrastAdvisor.Brightness | color_fusion.py:476 | the weighted brightness lies in [0,255] |
| ContrastAdvisor.IsDark | color_fusion.py:474-477 | a colour is dark exactly when 299r + 587g + 114b < 123000, i.e. when its brightness is below 123 |
| ContrastAdvisor.BlackIsDark | color_fusion.py:474-477 | (0,0,0) is dark |
| ContrastAdvisor.WhiteIsNotDark | color_fusion.py:474-477 | (255,255,255) is not dark |
| ContrastAdvisor.DarknessThreshold | color_fusion.py:477 | brightness exactly 123, e.g. (0,174,183), is not dark, and (0,174,182) just below is |
| ContrastAdvisor.DarkIsDownwardClosed | color_fusion.py:474-477 | a colour no brighter in any channel than a dark colour is dark |
| ContrastAdvisor.LightTextDecodes | color_fusion.py:332 | "#EFF0F1" is the colour (239,240,241) |
| ContrastAdvisor.DarkTextDecodes | color_fusion.py:332 | "#31363B" is the colour (49,54,59) |
| ContrastAdvisor.LegibleTextColor | color_fusion.py:319-332 | "#EFF0F1" for a dark colour, "#31363B" otherwise; the text colour is always on the other side of the darkness threshold |
| ContrastAdvisor.TruncDiv | color_fusion.py:468-470 | `int()` of a/d: the magnitude is the floor of the magnitudes and the sign follows a (truncation toward zero) |
| ContrastAdvisor.ClampChannel | color_fusion.py:468-470 | `max(t, min(255, x))`: x itself when it is in [t,255], 255 above, t below |
| ContrastAdvisor.AdjustBrightness | color_fusion.py:465-472 | the result is a 7-character `#RRGGBB` code that decodes to the adjusted colour |
| ContrastAdvisor.AdjustedColor | color_fusion.py:467-471 | every adjusted channel is at least min_threshold, and it equals the truncated product whenever that lies in [min_threshold,255] |
| ContrastAdvisor.AccentFactor | color_fusion.py:443-445 | the factor is a positive fraction, above 1 (3/2) for a dark colour and below 1 (4/5) otherwise |
| ContrastAdvisor.AccentColor | color_fusion.py:442-445 | the copy button's colour is the `#RRGGBB` code of the colour adjusted by the accent factor, and all three of its channels are at least 30 |
| ContrastAdvisor.ScaledUp | color_fusion.py:468-470 | scaling a channel by a factor >= 1 and truncating never lowers it |
| ContrastAdvisor.ScaledDown | color_fusion.py:468-470 | scaling a channel by a factor in [0,1] and truncating never raises it or makes it negative |
| ContrastAdvisor.AccentLightensDarkColor | color_fusion.py:442-445 | the accent of a dark colour is at least as bright in every channel, and every channel is at least 30 |
| ContrastAdvisor.AccentDarkensLightColor | color_fusion.py:442-445 | the accent of a light colour is no brighter in any channel than max(30, channel), and every channel is at least 30 |
| ContrastAdvisor.AccentOfLightGrey | color_fusion.py:443-445 | (200,200,200) gets the accent "#A0A0A0" |
| ContrastAdvisor.AccentOfNavy | color_fusion.py:443-445 | (0,0,128) gets the accent "#1E1EC0": blue scaled by 1.5, the other channels raised to 30 |
| GradientRenderer.BandEdge | color_fusion.py:351-362 | the edge of band i is i times the band width `width / len`; the first band's edge is 0 |
| GradientRenderer.EdgeOrder | color_fusion.py:351-362 | edge k lies at or left of an integer x exactly as k * width <= x * len, with no division involved |
| GradientRenderer.Band | color_fusion.py:353-375 | band i spans the full height between the edges of bands i and i+1 and is filled with the colour's code; a seamless band reaches one unit further right and is outlined in its fill, a separated band has no outline argument |
| GradientRenderer.Bands | color_fusion.py:351-375 | one band per colour; the first starts at 0 and each starts where the previous one ends, minus the one-unit overlap in seamless mode |
| GradientRenderer.RenderBands | color_fusion.py:353-375 | the drawing loop emits one rectangle per colour, in order, each the band of its index |
| GradientRenderer.BandStyle | color_fusion.py:354-364 | the fill of every band decodes back to that band's colour |
| GradientRenderer.BandsAdjacent | color_fusion.py:359-375 | band i's right edge is band i+1's left edge, plus 1 in seamless mode |
| GradientRenderer.BandWidth | color_fusion.py:351-375 | every band is width/len wide, plus 1 in seamless mode |
| GradientRenderer.BandsCover | color_fusion.py:351-375 | the first band starts at 0 and the last ends at the width (one past it in seamless mode) |
| GradientRenderer.ScaledClick | color_fusion.py:387-390 | floor(x*len/w) is below len exactly when x < w, and then lies between the edges around x |
| GradientRenderer.ClickIndex | color_fusion.py:387-393 | for w > 0 and x >= 0 the index is in [0,len-1], 0 at x = 0, len-1 for x >= w, and for x < w the band from i*w/len to (i+1)*w/len holds x |
| GradientRenderer.ClickHitsBand | color_fusion.py:387-393 | a click left of the right edge lies inside the separated rectangle of the chosen band |
| ColorFusionApp.InputOrDefault | color_fusion.py:282-283 | an entry holding its placeholder or nothing is replaced by the default code; any other text is kept |
| ColorFusionApp.DecodeInputs | color_fusion.py:281-286 | the pair of colours exactly when both entries decode; otherwise the error of the first entry that fails |
| ColorFusionApp.DecodeDefaultBlack | color_fusion.py:282 | the default "#000000" decodes to black |
| ColorFusionApp.DecodeDefaultWhite | color_fusion.py:283 | the default "#ffffff" decodes to white |
| ColorFusionApp.StripDefaultWhite | color_fusion.py:497 | the single `#` of the default "#ffffff" is stripped |
| ColorFusionApp.DefaultInputs | color_fusion.py:281-286 | empty or placeholder entries decode to black and white |
| ColorFusionApp.ShowColorDetails | color_fusion.py:411-451 | the popup exists exactly when the hex decodes; it shows that hex and colour, the legible text colour of the colour (on the other side of the darkness threshold) and its accent colour |
| ColorFusionApp.ColorFusionView.constructor | color_fusion.py:203-207 | after construction a gradient is stored: the blend of black and white with 10 midpoints, drawn in separated mode |
| ColorFusionApp.ColorFusionView.DrawHorizontalGradient | color_fusion.py:347-375 | the canvas is cleared and then holds exactly the bands of the given colours |
| ColorFusionApp.ColorFusionView.HandleGradientError | color_fusion.py:297-304 | with a non-empty stored gradient the canvas shows it again; otherwise it shows "Error: " and the error text; the stored gradient is unchanged |
| ColorFusionApp.ColorFusionView.UpdateGradientDisplay | color_fusion.py:273-295 | on success the stored gradient becomes the new blend and is drawn; on a decode error (first entry first) the stored gradient is unchanged and the error fallback is shown; a stored gradient stays stored |
| ColorFusionApp.ColorFusionView.OnGradientClick | color_fusion.py:387-399 | the popup shows the stored colour at the click index, its hex code, its legible text colour and its accent |
| ColorFusionApp.ExportFilename | color_fusion.py:538-540 | the name is the first code (an empty entry becomes "#000000"), then "_fused_with_", then the second code (an empty entry becomes "#ffffff"), then ".png" |
| ColorFusionApp.ExportFilenameRecoversColors | color_fusion.py:538-540 | for hex-coded entries the name is 30 characters and both colours decode back from their positions |
| ColorFusionApp.ExportFilenameDefaults | color_fusion.py:538-540 | empty entries give "#000000_fused_with_#ffffff.png" |
| ColorFusionApp.ExportFilenameKeepsPlaceholder | color_fusion.py:538-540 | `or` replaces only an empty entry, so a placeholder is kept verbatim in the name |
| ColorFusionApp.GenerateGradient | color_fusion.py:559-592 | either decode error is returned, first code first; otherwise a white image of the given size with the separated bands of the blend |
| ColorFusionApp.ExportGradientAsPng | color_fusion.py:526-557 | the suggested name is the export name; an empty dialog result cancels; a decode error becomes "Failed to save file: " and its text; otherwise the 2160 x 2160 image for the chosen path |

## Left out

- Widget construction, layout, theming, the resize handler and the scale length (color_fusion.py:55-219, 240-248): toolkit calls. Widget reads are parameters.
- `PlaceholderEntry` focus and typing behaviour (color_fusion.py:595-626): widget events. Its two placeholder texts are the constants `COLOR_ONE_PLACEHOLDER` and `COLOR_TWO_PLACEHOLDER`.
- The colour-picker dialog `pick_color` (color_fusion.py:250-271): a dialog.
- `fill_random_color` (color_fusion.py:221-238): calls `random.randint`. Its hex format is `Encode`.
- The clipboard and the button-text timer (color_fusion.py:456-463): I/O and a clock.
- The HSL line of the popup (color_fusion.py:412, 436): floating-point work done by `colorsys`. `ColorDetails` has no HSL field.
- Where `display_error_message` puts its text (color_fusion.py:306-317): only the message is modelled.
- The save dialog, `messagebox` and `Image.save` (color_fusion.py:541-557): the dialog's answer is the `chosenPath` parameter. A failed write is not modelled, so `Failed` only carries decode errors.
- The unused `color2` argument of `draw_horizontal_gradient`: it never affects the drawing.
- Decode: accepts only ASCII hex digits in a pair. Python's `int(pair, 16)` also accepts a sign, surrounding whitespace and non-ASCII digits ("-f" gives -15).
- GradientBlender.Mix: rounds the exact value. The original rounds a float, which at an exact .5 tie may round the other way.
- GradientRenderer.Band: exact real edges. The original's float band edges may differ in the last bits.
- GradientRenderer.ClickIndex: requires width > 0, because the original raises an uncaught ZeroDivisionError at color_fusion.py:389. It also requires x >= 0, because the original does not clamp below 0. On an exact band boundary, the float quotient may pick the band to the left.
- ColorFusionApp.ColorFusionView.DrawHorizontalGradient: requires a non-empty colour list, because an empty list would raise ZeroDivisionError at color_fusion.py:351. Every caller passes at least two colours.
- ContrastAdvisor.AdjustBrightness: the factor is an exact fraction (3/2 or 4/5 in the original), and `min_threshold` is restricted to [0,255].
- Exceptions other than the decoder's ValueError are not modelled.
