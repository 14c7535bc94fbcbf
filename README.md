# Oasis poster generator — a verified model of its core

The poster generator (`Oasis.py`) is a small web app that lays out a festival
poster on A3 or A4 paper at 72 pixels per inch: a background colour, a
texture darkened onto it, a photo along the bottom, a logo near the top, two
centred lines of white text and a black frame. This project models the
deterministic core of that program in Dafny and proves properties of it:

- `Units` — `mm_to_pixels` (truncating millimetre-to-pixel conversion),
  `get_scale_factor` (A3 layout shrunk to any other paper), the canvas and
  frame sizes.
- `Colour` — `cmyk_to_rgb` and `rgb_to_cmyk`, including the division by zero
  the latter raises for inputs whose brightest channel is 0 but which are not
  black, and the bounded loss of their round trip.
- `Blend` — `apply_blend_darken`, pixel by pixel over rectangular rasters:
  the darker of base and overlay, mixed in by `fill` percent, alpha scaled by
  `opacity` percent.
- `Poster` — the geometry of `create_poster`: canvas, background and texture
  stage, photo rectangle, logo rectangle, text anchors and frame.
- `Arith` and `Wrappers` — Python's `int()` (truncation toward zero) and
  `min` over exact rationals, and an `Option` type.

Python floats are modelled as exact rationals (`real`), `int(x)` as
truncation toward zero, and `//` by 2 of a non-negative or negative integer
as Dafny's `/` (both floor for a positive divisor). Network loading, image
decoding, resampling, pasting and glyph drawing are the imaging library's
and the network's business: the model takes their results (the resized
texture, the intrinsic size of the photo, whether the logo loaded (it is
resized to a fixed footprint whatever its own size), the measured width of each text line) as inputs.

## Model

| member | source | states |
|---|---|---|
| Arith.Trunc | Oasis.py:29 | Python's `int()`: for a non-negative value the largest integer not above it, for a negative value the smallest integer not below it |
| Units.MmToPixels | Oasis.py:27-29 | for non-negative lengths and resolutions the result is non-negative and is the number of whole pixels that fit: `px * 25.4 <= mm * dpi < (px + 1) * 25.4` |
| Units.MmToPixelsZero | Oasis.py:27-29 | a zero length is zero pixels at any resolution |
| Units.MmToPixelsMonotone | Oasis.py:27-29 | a longer length never converts to fewer pixels |
| Units.ScaleFactor | Oasis.py:31-36 | the factor lies in (0, 1]; it is 1 exactly for "A3"; for every other paper name it maps the A3 width 297 mm onto the A4 width 210 mm |
| Units.CanvasPx | Oasis.py:101-107 | A3 (297 x 420 mm) gives an 841 x 1190 px canvas; any other paper name is A4 (210 x 297 mm) and gives 595 x 841 px |
| Units.BorderPx | Oasis.py:192-193 | the 10 mm frame is 28 px wide |
| Units.ScaledA3WidthIsCanvasWidth | Oasis.py:127-129 | the A3 width scaled to the paper converts to exactly the canvas width on both paper sizes |
| Colour.InkToChannel | Oasis.py:40-49 | one screen channel from an ink and black percentage: a byte for in-range inks, 0 under full black, 255 with no ink at all |
| Colour.CmykToRgb | Oasis.py:38-49 | in-range inks give a byte colour; full black gives black; no ink gives white |
| Colour.InkToChannelMonotone | Oasis.py:45-49 | more ink or more black never gives a lighter channel |
| Colour.CmykToRgbMonotone | Oasis.py:38-49 | red falls with cyan and black, green with magenta and black, blue with yellow and black |
| Colour.KeyFraction | Oasis.py:56-60 | the black fraction is one less the brightest channel over 255 |
| Colour.RgbToCmyk | Oasis.py:51-66 | black gives full black ink; white gives no ink; the conversion fails (division by zero) exactly for non-black inputs whose brightest channel is 0 |
| Colour.InkPercent | Oasis.py:61-63 | one ink as the truncated percentage of `(v - k) / (1 - k)`; its contract is stated by `Colour.ChannelInkPercent`: for a byte channel it is the truncated `100 * (max - v) / max`, between 0 and 100, and 0 for the brightest channel |
| Colour.RgbToCmykInRange | Oasis.py:51-66 | for every byte colour the conversion succeeds, every ink is a percentage, and the brightest channel's ink is 0 |
| Colour.ChannelInkPercent | Oasis.py:60-63 | a channel's ink is the truncated percentage `100 * (max - v) / max`, between 0 and 100, and 0 for the brightest channel |
| Colour.ChannelRoundTrip | Oasis.py:38-66 | one channel converted to ink and black and back comes back no darker and at most 5 levels lighter |
| Colour.RoundTrip | Oasis.py:38-66 | every byte colour converted to CMYK and back comes back channel by channel no darker and at most 5 levels lighter |
| Blend.Opaque | Oasis.py:81 | converting an RGB pixel to RGBA keeps its colour and makes it fully opaque |
| Blend.DropAlpha | Oasis.py:117 | converting an RGBA pixel to RGB keeps its colour and gives a byte colour; making it opaque again only resets alpha |
| Blend.Mix | Oasis.py:87-88 | the exact blended channel `base * (1 - f) + darker * f` with `f = fill / 100`; its properties are the lemmas `Blend.MixBetween` (between the darker value and the base), `Blend.MixEnds` (base at fill 0, darker at fill 100) and `Blend.MixMonotone` (falls as fill grows) |
| Blend.MixBetween | Oasis.py:86-88 | with fill between 0 and 100 percent, the mix of base and darker lies between the darker value and the base |
| Blend.MixEnds | Oasis.py:86-88 | no fill leaves the base; full fill gives the darker value |
| Blend.MixMonotone | Oasis.py:86-88 | more fill moves the mix further towards the darker value |
| Blend.DarkenChannel | Oasis.py:83-88 | a blended channel never lightens the base and never goes below the darker of base and overlay; 0 percent fill keeps the base, 100 percent gives the darker one |
| Blend.DarkenMonotoneInFill | Oasis.py:86-88 | more fill never gives a lighter channel |
| Blend.ScaleAlpha | Oasis.py:91 | the blend's alpha never exceeds the overlay's; full opacity keeps it, zero opacity gives 0 |
| Blend.DarkenPixel | Oasis.py:83-94 | each colour channel lies between the darker of base and overlay and the base, with the fill end cases exact; alpha is bounded by the overlay's and equal to it at full opacity |
| Blend.BlendDarken | Oasis.py:78-95 | the result has the base's shape and each pixel is the blend of the base and overlay pixels at the same place |
| Blend.BlendNeverLightens | Oasis.py:78-95 | over a whole raster no channel of the base gets lighter, no fill keeps every colour, and full opacity copies every alpha |
| Blend.OpaqueImage | Oasis.py:81 | converting an RGB raster to RGBA keeps its shape and colours and makes every pixel opaque |
| Blend.DropAlphaImage | Oasis.py:117 | converting an RGBA raster to RGB keeps its shape and colours |
| Poster.Centred | Oasis.py:136 | the floor-divided left margin is at most the right margin, which is at most one more |
| Poster.Fill | Oasis.py:110 | a new canvas has the requested size and every pixel in the background colour |
| Poster.Line1TopPx | Oasis.py:173-174 | the first text line starts 1040 px down on A3 and 735 px down on A4 |
| Poster.Line2OffsetPxAsWritten | Oasis.py:176-177 | as written, the gap to the second line is 204 px on every paper |
| Poster.PointsToPixels | Oasis.py:176 | not a model of code: the corrected half of the line-2 finding, reading the comment's "72pt" as printer's points converted to whole pixels at 72 per inch, truncated |
| Poster.Line2OffsetPx | Oasis.py:176-178 | corrected half of the line-2 finding: a gap of 72 pt is 72 px |
| Poster.Line2OffCanvasAsWritten | Oasis.py:173-178 | as written, the second line starts at or below the bottom edge of the canvas on every paper |
| Poster.Line2OnCanvas | Oasis.py:173-178 | with a 72 pt gap the second line starts below the first and on the canvas on every paper |
| Poster.Textured | Oasis.py:112-117 | the texture stage keeps the raster's shape, gives each pixel the darken blend of the opaque background and the texture at 100 percent opacity and 95 percent fill, and lightens no channel |
| Poster.PhotoRect | Oasis.py:126-137 | the photo spans the full canvas width from x = 0, its bottom edge is the canvas's bottom edge, and its height is its aspect-scaled height truncated |
| Poster.LogoRect | Oasis.py:147-160 | the logo is 617 x 281 px at (112, 60) on A3 and 436 x 198 px at (79, 42) on A4, centred horizontally with its vertical middle on the logo line |
| Poster.CreatePoster | Oasis.py:97-202 | canvas size per paper; background in the colour or darkened by the texture and never lighter than the colour; photo and logo present exactly when loaded, placed as above; both text lines centred on their measured widths, line 2 204 px below line 1 as written, so it starts at or below the canvas's bottom edge; frame rectangle from (0, 0) to (W, H) with stroke width 28 |

## Left out

- Streamlit page, widgets, colour pickers, HSV sliders and the download button: user interface, not core logic.
- Fetching the photo, logo, texture and font over the network and the fallbacks when a fetch fails: network I/O; the model takes whether each asset arrived as an input.
- Image decoding, LANCZOS resampling, alpha-composited pasting, text measurement, glyph drawing and the frame's rasterisation: imaging-library code; the model decides the rectangles, anchors and stroke width those calls receive, and the texture arrives already resized to the canvas and in RGBA. The frame's far corner (W, H) is one past the last pixel and the library's rectangle corners are inclusive, so only 27 px of the right and bottom stroke bands land on the canvas; the model records the call's arguments, not the painted pixels.
- Font choice and the two text sizes: they only change the measured text widths, which are inputs.
- Floating point: all arithmetic is exact. Where the source's binary floating point lands a product just below an integer that the exact value reaches, `int()` and the `uint8` cast give one level less than the model. The colour round trip is one such place: in floats `255 * (1 - 0.8)` is just below 51, so `cmyk_to_rgb(80, 0, 0, 0)` gives red 50 where the model gives 51, and the program takes (51, 255, 255) to (80, 0, 0, 0) and back to (50, 255, 255), one level darker. `Colour.RoundTrip`'s "no darker" holds for exact arithmetic only. A blended channel whose base and darker value are equal is another.
- Blend.BlendDarken: requires opacity and fill between 0 and 100 and rasters of the same shape; the program only calls it with 100 and 95 on a canvas-sized texture, and outside that range the float-to-`uint8` cast is unspecified.
- Colour.CmykToRgb: the result is stated for any integers but proved to be a byte colour only for inks between 0 and 100, which is all the app produces.
- The two paper sizes do not have exactly equal height-to-width ratios (420/297 against 297/210); the code applies one scale, 210/297, to every A3 measure, and the model does the same.

## Findings

`Poster.CreatePoster` models the code as written, with the 204 px gap; the corrected placement is stated on its own by `Poster.Line2OnCanvas`.

| source | as written | input that shows it | evidently intended | confidence | as-written member | corrected member |
|---|---|---|---|---|---|---|
| Oasis.py:176-178 | the gap between the two text lines is `int(72 * MM_TO_INCH * DPI)`, treating the 72 of "72pt" as millimetres: 204 px | paper "A3": line 1 starts at 1040 px, line 2 at 1244 px, below the 1190 px canvas (A4: 735 + 204 = 939 > 841), so line 2 is never visible | line 2 on the canvas below line 1; reading "72pt" as printer's points gives 72 px at 72 pixels per inch (A3: line 2 at 1112 px; A4: at 807 px), though with the default 161 pt first line a 72 px top-to-top gap would overlap line 1, so the exact intended gap is uncertain | high that line 2 is off the canvas, uncertain about the intended gap; not executed | Poster.Line2OffCanvasAsWritten | Poster.Line2OnCanvas |
