/**
 * Unit conversion of the poster generator (Oasis.py:12-36): millimetres to
 * pixels at a fixed resolution, and the scale factor that shrinks the
 * layout authored for A3 onto any other paper size.
 */
module Units {
  import opened Arith

  const A3WidthMm: int := 297
  const A3HeightMm: int := 420
  const A4WidthMm: int := 210
  const A4HeightMm: int := 297
  /** Pixels per inch. */
  const Dpi: int := 72
  const MmToInch: real := 1.0 / 25.4
  const BorderMm: int := 10

  /**
   * `mm_to_pixels`: the millimetre length at `dpi` pixels per inch, truncated.
   * For non-negative inputs the result is the number of whole pixels that fit.
   */
  function MmToPixels(mm: real, dpi: int := Dpi): (px: int)
    ensures 0.0 <= mm && 0 <= dpi ==> 0 <= px
    ensures 0.0 <= mm && 0 <= dpi ==>
      px as real * 25.4 <= mm * dpi as real < (px + 1) as real * 25.4
  {
    Trunc(mm * MmToInch * dpi as real)
  }

  /** A zero length is zero pixels wide. */
  lemma MmToPixelsZero(dpi: int)
    ensures MmToPixels(0.0, dpi) == 0
  {
  }

  /** A longer length never converts to fewer pixels. */
  lemma MmToPixelsMonotone(mm1: real, mm2: real, dpi: int)
    requires mm1 <= mm2 && 0 <= dpi
    ensures MmToPixels(mm1, dpi) <= MmToPixels(mm2, dpi)
  {
    var d := dpi as real;
    var a, b := mm1 * MmToInch, mm2 * MmToInch;
    assert a <= b;
    MulMonotone(a, b, d);
    TruncMonotone(a * d, b * d);
  }

  /**
   * `get_scale_factor`: 1 for "A3"; for any other paper name the ratio of
   * the A4 width to the A3 width, so that 297 mm of A3 become 210 mm.
   */
  function ScaleFactor(paperSize: string): (s: real)
    ensures 0.0 < s <= 1.0
    ensures s == 1.0 <==> paperSize == "A3"
    ensures paperSize != "A3" ==> A3WidthMm as real * s == A4WidthMm as real
  {
    if paperSize == "A3" then 1.0 else A4WidthMm as real / A3WidthMm as real
  }

  /** The paper's width and height in millimetres (Oasis.py:101-104). */
  function PaperMm(paperSize: string): (wh: (int, int))
    ensures paperSize == "A3" ==> wh == (A3WidthMm, A3HeightMm)
    ensures paperSize != "A3" ==> wh == (A4WidthMm, A4HeightMm)
  {
    if paperSize == "A3" then (A3WidthMm, A3HeightMm) else (A4WidthMm, A4HeightMm)
  }

  /** The canvas in pixels: 841 x 1190 for A3, 595 x 841 for everything else. */
  function CanvasPx(paperSize: string): (wh: (int, int))
    ensures paperSize == "A3" ==> wh == (841, 1190)
    ensures paperSize != "A3" ==> wh == (595, 841)
  {
    var (w, h) := PaperMm(paperSize);
    (MmToPixels(w as real), MmToPixels(h as real))
  }

  /** Width of the black frame in pixels: 10 mm is 28 px. */
  function BorderPx(): (px: int)
    ensures px == 28
  {
    MmToPixels(BorderMm as real)
  }

  /**
   * A length authored in A3 millimetres, scaled to the paper and converted:
   * on A3 and on the smaller paper the 297 mm width of A3 becomes the full
   * canvas width, so a full-width element stays full width.
   */
  lemma ScaledA3WidthIsCanvasWidth(paperSize: string)
    ensures MmToPixels(A3WidthMm as real * ScaleFactor(paperSize)) == CanvasPx(paperSize).0
  {
    if paperSize != "A3" {
      assert A3WidthMm as real * ScaleFactor(paperSize) == 210.0;
    }
  }
}
