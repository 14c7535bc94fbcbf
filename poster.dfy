/**
 * The pixel geometry of `create_poster` (Oasis.py:97-202): the canvas for
 * the paper size, the background filled and darkened by the texture, and
 * where the photo, the logo, the two text lines and the black frame go.
 * Decoding, resampling, pasting and glyph drawing belong to the imaging
 * library; the model takes what it needs from them (asset sizes, the
 * resized texture, the measured text widths) as inputs.
 */
module Poster {
  import opened Arith
  import opened Wrappers
  import opened Units
  import opened Colour
  import opened Blend

  /** Layout constants, in A3 millimetres unless stated otherwise. */
  const PhotoWidthMm: int := 297
  const LogoTopMm: real := 70.6
  const LogoWidthMm: real := 217.76
  const LogoHeightMm: real := 99.14
  const Line1TopMm: int := 367
  /** The texture is blended fully opaque at 95 percent fill. */
  const TextureOpacity: int := 100
  const TextureFill: int := 95
  /** Printer's points per inch. */
  const PointsPerInch: int := 72

  /** A positive pixel count: decoded images are never empty. */
  type Extent = x: int | 1 <= x witness 1

  /** The intrinsic size of a decoded photo. */
  datatype AssetSize = AssetSize(width: Extent, height: Extent)

  /** A pasted image: its top-left corner and its size in pixels. */
  datatype Rect = Rect(x: int, y: int, width: int, height: int)

  datatype Point = Point(x: int, y: int)

  /**
   * Everything `create_poster` decides: the canvas size, its pixels after the
   * fill and the texture blend, where the photo and the logo are pasted (when
   * present), where each text line's box starts, and the frame rectangle
   * (corner to corner) with its stroke width.
   */
  datatype Placement = Placement(
    width: int, height: int,
    pixels: seq<seq<Rgb>>,
    photo: Option<Rect>,
    logo: Option<Rect>,
    line1: Point, line2: Point,
    frameFrom: Point, frameTo: Point, border: int)

  /**
   * The left offset that centres `inner` pixels in `outer` pixels with
   * Python's floor division: the left margin is at most the right margin,
   * which is at most one more.
   */
  function Centred(outer: int, inner: int): (x: int)
    ensures x <= outer - inner - x <= x + 1
  {
    (outer - inner) / 2
  }

  /** `Image.new('RGB', (width, height), colour)`: a raster of one colour. */
  function Fill(width: nat, height: nat, colour: Rgb): (img: seq<seq<Rgb>>)
    ensures IsRaster(img, width, height)
    ensures forall i, j :: 0 <= i < height && 0 <= j < width ==> img[i][j] == colour
  {
    seq(height, _ => seq(width, _ => colour))
  }

  /** The top of the first text line: 1040 px on A3, 735 px on the smaller paper. */
  function Line1TopPx(paperSize: string): (y: int)
    ensures paperSize == "A3" ==> y == 1040
    ensures paperSize != "A3" ==> y == 735
  {
    MmToPixels(Line1TopMm as real * ScaleFactor(paperSize))
  }

  /**
   * The gap between the two text lines as written: the 72 of "72pt" is
   * converted as if it were millimetres, giving 204 px on every paper size.
   */
  function Line2OffsetPxAsWritten(): (dy: int)
    ensures dy == 204
  {
    MmToPixels(72.0)
  }

  /** Converting printer's points to pixels at the poster's resolution. */
  function PointsToPixels(pt: int): (px: int)
    ensures 0 <= pt ==> px as real * PointsPerInch as real <= (pt * Dpi) as real < (px + 1) as real * PointsPerInch as real
  {
    Trunc((pt * Dpi) as real / PointsPerInch as real)
  }

  /**
   * The gap between the two text lines as the comment beside it and the
   * on-screen note describe it: 72 points, which at 72 pixels per inch is
   * 72 px on every paper size.
   */
  function Line2OffsetPx(): (dy: int)
    ensures dy == 72
  {
    PointsToPixels(72)
  }

  /**
   * As written, the second line starts below the bottom of the canvas on
   * both paper sizes (1244 > 1190 on A3, 939 > 841 otherwise), so whatever
   * text it holds is never visible.
   */
  lemma Line2OffCanvasAsWritten(paperSize: string)
    ensures Line1TopPx(paperSize) + Line2OffsetPxAsWritten() >= CanvasPx(paperSize).1
  {
  }

  /** With a 72 pt gap the second line starts below the first and on the canvas. */
  lemma Line2OnCanvas(paperSize: string)
    ensures 0 <= Line1TopPx(paperSize) < Line1TopPx(paperSize) + Line2OffsetPx() < CanvasPx(paperSize).1
  {
  }

  /**
   * The texture stage (Oasis.py:114-117): the RGB background made opaque,
   * darkened by the canvas-sized texture at full opacity and 95 percent
   * fill, and converted back to RGB. No pixel becomes lighter.
   */
  function Textured(pixels: seq<seq<Rgb>>, texture: Image): (out: seq<seq<Rgb>>)
    requires SameShape(pixels, texture)
    requires forall i, j :: 0 <= i < |pixels| && 0 <= j < |pixels[i]| ==> pixels[i][j].InRange()
    ensures SameShape(out, pixels)
    ensures forall i, j :: 0 <= i < |out| && 0 <= j < |out[i]| ==>
      out[i][j] == DropAlpha(DarkenPixel(Opaque(pixels[i][j]), texture[i][j], TextureOpacity, TextureFill))
    ensures forall i, j :: 0 <= i < |out| && 0 <= j < |out[i]| ==>
      out[i][j].r <= pixels[i][j].r && out[i][j].g <= pixels[i][j].g && out[i][j].b <= pixels[i][j].b
  {
    var base := OpaqueImage(pixels);
    DropAlphaImage(BlendDarken(base, texture, TextureOpacity, TextureFill))
  }

  /**
   * The photo stage (Oasis.py:127-137): scaled to the A3 width times the
   * paper's scale, which is the whole canvas width on either paper, its
   * height following the photo's aspect ratio up to truncation, and placed
   * centred with its bottom edge on the canvas's bottom edge.
   */
  function PhotoRect(paperSize: string, size: AssetSize): (r: Rect)
    ensures r.x == 0 && r.width == CanvasPx(paperSize).0
    ensures r.y + r.height == CanvasPx(paperSize).1
    ensures var exact := r.width as real * (size.height as real / size.width as real);
      r.height as real <= exact < (r.height + 1) as real
  {
    var (widthPx, heightPx) := CanvasPx(paperSize);
    var newWidthPx := MmToPixels(PhotoWidthMm as real * ScaleFactor(paperSize));
    ScaledA3WidthIsCanvasWidth(paperSize);
    var aspectRatio := size.height as real / size.width as real;
    var newHeightPx := Trunc(newWidthPx as real * aspectRatio);
    AspectHeight(newWidthPx, size);
    Rect(Centred(widthPx, newWidthPx), heightPx - newHeightPx, newWidthPx, newHeightPx)
  }

  /** Scaling a non-negative width by an asset's aspect ratio gives a non-negative height. */
  lemma AspectHeight(width: int, size: AssetSize)
    requires 0 <= width
    ensures 0.0 <= width as real * (size.height as real / size.width as real)
  {
    var q := size.height as real / size.width as real;
    assert 0.0 <= q;
    MulMonotone(0.0, width as real, q);
  }

  /**
   * The logo stage (Oasis.py:147-160): a fixed footprint (217.76 x 99.14 mm
   * of A3, scaled), centred horizontally, with its vertical middle on the
   * logo line 70.6 mm (scaled) from the top. Its own size does not matter.
   */
  function LogoRect(paperSize: string): (r: Rect)
    ensures paperSize == "A3" ==> r == Rect(112, 60, 617, 281)
    ensures paperSize != "A3" ==> r == Rect(79, 42, 436, 198)
    ensures r.y + r.height / 2 == MmToPixels(LogoTopMm * ScaleFactor(paperSize))
    ensures r.x <= CanvasPx(paperSize).0 - r.width - r.x <= r.x + 1
  {
    var scale := ScaleFactor(paperSize);
    var logoTopPx := MmToPixels(LogoTopMm * scale);
    var logoWidthPx := MmToPixels(LogoWidthMm * scale);
    var logoHeightPx := MmToPixels(LogoHeightMm * scale);
    Rect(Centred(CanvasPx(paperSize).0, logoWidthPx), logoTopPx - logoHeightPx / 2, logoWidthPx, logoHeightPx)
  }

  /**
   * `create_poster`, stage by stage, as written: the second text line keeps
   * the 204 px gap of `Line2OffsetPxAsWritten`. The texture arrives already
   * resized to the canvas; the photo as its intrinsic size; the logo only as
   * whether it loaded, since it is resized to a fixed footprint; each
   * text line as the width of its measured box.
   */
  method CreatePoster(paperSize: string, bg: Rgb, texture: Option<Image>,
                      photo: Option<AssetSize>, logoLoaded: bool,
                      line1Width: int, line2Width: int)
    returns (p: Placement)
    requires bg.InRange()
    requires texture.Some? ==> IsRaster(texture.value, CanvasPx(paperSize).0, CanvasPx(paperSize).1)
    // canvas: fixed size per paper
    ensures paperSize == "A3" ==> p.width == 841 && p.height == 1190
    ensures paperSize != "A3" ==> p.width == 595 && p.height == 841
    // background: the colour, darkened by the texture where there is one
    ensures IsRaster(p.pixels, p.width, p.height)
    ensures texture.None? ==>
      forall i, j :: 0 <= i < p.height && 0 <= j < p.width ==> p.pixels[i][j] == bg
    ensures texture.Some? ==>
      forall i, j :: 0 <= i < p.height && 0 <= j < p.width ==>
        p.pixels[i][j] == DropAlpha(DarkenPixel(Opaque(bg), texture.value[i][j], TextureOpacity, TextureFill))
    ensures forall i, j :: 0 <= i < p.height && 0 <= j < p.width ==>
      p.pixels[i][j].r <= bg.r && p.pixels[i][j].g <= bg.g && p.pixels[i][j].b <= bg.b
    // photo: full canvas width, aspect kept up to truncation, bottom edge on the canvas bottom
    ensures p.photo.Some? <==> photo.Some?
    ensures photo.Some? ==>
      var r := p.photo.value;
      r.x == 0 && r.width == p.width && r.y + r.height == p.height &&
      r.height as real <= r.width as real * (photo.value.height as real / photo.value.width as real) < (r.height + 1) as real
    // logo: fixed footprint, centred, its vertical middle on the logo line
    ensures p.logo.Some? <==> logoLoaded
    ensures logoLoaded && paperSize == "A3" ==> p.logo == Some(Rect(112, 60, 617, 281))
    ensures logoLoaded && paperSize != "A3" ==> p.logo == Some(Rect(79, 42, 436, 198))
    // text: each line centred; line 2 a fixed gap below line 1, which as
    // written puts it at or below the bottom edge of the canvas
    ensures p.line1.y == Line1TopPx(paperSize)
    ensures p.line2.y == p.line1.y + 204
    ensures p.line2.y >= p.height
    ensures p.line1.x <= p.width - line1Width - p.line1.x <= p.line1.x + 1
    ensures p.line2.x <= p.width - line2Width - p.line2.x <= p.line2.x + 1
    // frame: the canvas outline, 28 px wide
    ensures p.frameFrom == Point(0, 0) && p.frameTo == Point(p.width, p.height)
    ensures p.border == 28
  {
    var (widthPx, heightPx) := CanvasPx(paperSize);

    // base image in the background colour
    var pixels := Fill(widthPx, heightPx, bg);

    // texture, darkened onto the base
    if texture.Some? {
      pixels := Textured(pixels, texture.value);
    }

    // photo at the bottom, logo near the top
    var photoRect: Option<Rect> := None;
    if photo.Some? {
      photoRect := Some(PhotoRect(paperSize, photo.value));
    }
    var logoRect: Option<Rect> := None;
    if logoLoaded {
      logoRect := Some(LogoRect(paperSize));
    }

    // text lines, each centred on its own measured width
    var line1TopPx := Line1TopPx(paperSize);
    var line2TopPx := line1TopPx + Line2OffsetPxAsWritten();
    Line2OffCanvasAsWritten(paperSize);
    var line1 := Point(Centred(widthPx, line1Width), line1TopPx);
    var line2 := Point(Centred(widthPx, line2Width), line2TopPx);

    // the frame along the canvas edge
    var borderPx := BorderPx();
    p := Placement(widthPx, heightPx, pixels, photoRect, logoRect, line1, line2,
                   Point(0, 0), Point(widthPx, heightPx), borderPx);
  }
}
