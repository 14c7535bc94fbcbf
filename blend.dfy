/**
 * The Darken blend of the poster generator (Oasis.py:78-95), pixel by pixel
 * over rectangular rasters of 8-bit RGBA pixels (row-major: a raster is a
 * sequence of rows).
 */
module Blend {
  import opened Arith
  import opened Colour

  /** One 8-bit channel. */
  type Byte = x: int | 0 <= x <= 255

  datatype Rgba = Rgba(r: Byte, g: Byte, b: Byte, a: Byte)

  /** A raster of RGBA pixels, one sequence per row. */
  type Image = seq<seq<Rgba>>

  /** `img` has `height` rows of `width` pixels each. */
  predicate IsRaster<T>(img: seq<seq<T>>, width: int, height: int) {
    |img| == height && forall i :: 0 <= i < |img| ==> |img[i]| == width
  }

  /** Two rasters with the same rows of the same lengths. */
  predicate SameShape<T, U>(a: seq<seq<T>>, b: seq<seq<U>>) {
    |a| == |b| && forall i :: 0 <= i < |a| ==> |a[i]| == |b[i]|
  }

  /** Converting an RGB pixel to RGBA makes it fully opaque. */
  function Opaque(c: Rgb): (p: Rgba)
    requires c.InRange()
    ensures p.a == 255 && (p.r, p.g, p.b) == (c.r, c.g, c.b)
  {
    Rgba(c.r, c.g, c.b, 255)
  }

  /** Converting an RGBA pixel to RGB discards its alpha. */
  function DropAlpha(p: Rgba): (c: Rgb)
    ensures c.InRange() && Opaque(c) == p.(a := 255)
  {
    Rgb(p.r, p.g, p.b)
  }

  /** The exact value of a blended channel: `b` moved `fill` percent of the way towards `m`. */
  function Mix(b: int, m: int, fill: int): real {
    b as real * (1.0 - fill as real / 100.0) + m as real * (fill as real / 100.0)
  }

  /** For `m <= b` and a fill between 0 and 100 percent the mix lies between `m` and `b`. */
  lemma MixBetween(b: int, m: int, fill: int)
    requires m <= b && 0 <= fill <= 100
    ensures m as real <= Mix(b, m, fill) <= b as real
  {
    var f := fill as real / 100.0;
    ConvexForm(b as real, m as real, f);
    ShareBounds(b as real - m as real, f);
  }

  /** No fill leaves `b`; full fill reaches `m`. */
  lemma MixEnds(b: int, m: int)
    ensures Mix(b, m, 0) == b as real && Mix(b, m, 100) == m as real
  {
  }

  /** A larger fill moves the mix further down towards `m <= b`. */
  lemma MixMonotone(b: int, m: int, fill1: int, fill2: int)
    requires m <= b && fill1 <= fill2
    ensures Mix(b, m, fill2) <= Mix(b, m, fill1)
  {
    var f1, f2 := fill1 as real / 100.0, fill2 as real / 100.0;
    ConvexForm(b as real, m as real, f1);
    ConvexForm(b as real, m as real, f2);
    MulMonotone(f1, f2, b as real - m as real);
  }

  /** The mix is `b` less the share `f` of the gap between `b` and `m`. */
  lemma ConvexForm(b: real, m: real, f: real)
    ensures b * (1.0 - f) + m * f == b - f * (b - m)
  {
  }

  /** A share between 0 and 1 of a non-negative gap lies between 0 and the gap. */
  lemma ShareBounds(d: real, f: real)
    requires 0.0 <= d && 0.0 <= f <= 1.0
    ensures 0.0 <= f * d <= d
  {
    MulMonotone(0.0, f, d);
    MulMonotone(f, 1.0, d);
  }

  /**
   * One colour channel of the blend: the base mixed with the darker of base
   * and overlay, `fill` percent of the way, truncated. The result never
   * lightens the base and never goes below the darker of the two; no fill
   * keeps the base and full fill gives the darker one exactly.
   */
  function DarkenChannel(base: Byte, overlay: Byte, fill: int): (v: Byte)
    requires 0 <= fill <= 100
    ensures Min(base, overlay) <= v <= base
    ensures fill == 0 ==> v == base
    ensures fill == 100 ==> v == Min(base, overlay)
  {
    var darker := Min(base, overlay);
    MixBetween(base, darker, fill);
    TruncBetween(darker, Mix(base, darker, fill), base);
    MixEnds(base, darker);
    TruncOfInt(base);
    TruncOfInt(darker);
    Trunc(Mix(base, darker, fill))
  }

  /** More fill never gives a lighter channel. */
  lemma DarkenMonotoneInFill(base: Byte, overlay: Byte, fill1: int, fill2: int)
    requires 0 <= fill1 <= fill2 <= 100
    ensures DarkenChannel(base, overlay, fill2) <= DarkenChannel(base, overlay, fill1)
  {
    var darker := Min(base, overlay);
    MixMonotone(base, darker, fill1, fill2);
    TruncMonotone(Mix(base, darker, fill2), Mix(base, darker, fill1));
  }

  /**
   * The blend's alpha: the overlay's alpha scaled by `opacity` percent,
   * truncated. Never above the overlay's alpha; full opacity keeps it.
   */
  function ScaleAlpha(a: Byte, opacity: int): (v: Byte)
    requires 0 <= opacity <= 100
    ensures v <= a
    ensures opacity == 100 ==> v == a
    ensures opacity == 0 ==> v == 0
  {
    var scaled := a as real * opacity as real / 100.0;
    MulMonotone(0.0, opacity as real, a as real);
    MulMonotone(opacity as real, 100.0, a as real);
    TruncOfInt(a);
    TruncMonotone(scaled, a as real);
    Trunc(scaled)
  }

  /**
   * One pixel of the blend. Every colour channel lies between the darker of
   * base and overlay and the base; alpha is the overlay's scaled by opacity.
   */
  function DarkenPixel(base: Rgba, overlay: Rgba, opacity: int, fill: int): (p: Rgba)
    requires 0 <= opacity <= 100 && 0 <= fill <= 100
    ensures Min(base.r, overlay.r) <= p.r <= base.r
    ensures Min(base.g, overlay.g) <= p.g <= base.g
    ensures Min(base.b, overlay.b) <= p.b <= base.b
    ensures fill == 0 ==> (p.r, p.g, p.b) == (base.r, base.g, base.b)
    ensures fill == 100 ==>
      (p.r, p.g, p.b) == (Min(base.r, overlay.r), Min(base.g, overlay.g), Min(base.b, overlay.b))
    ensures p.a <= overlay.a && (opacity == 100 ==> p.a == overlay.a)
  {
    Rgba(DarkenChannel(base.r, overlay.r, fill),
         DarkenChannel(base.g, overlay.g, fill),
         DarkenChannel(base.b, overlay.b, fill),
         ScaleAlpha(overlay.a, opacity))
  }

  /**
   * `apply_blend_darken`: the blend of two rasters of the same shape, pixel
   * by pixel. The result has the base's shape, and each of its pixels is the
   * blend of the base and overlay pixels at the same place.
   */
  function BlendDarken(base: Image, overlay: Image, opacity: int, fill: int): (out: Image)
    requires SameShape(base, overlay)
    requires 0 <= opacity <= 100 && 0 <= fill <= 100
    ensures SameShape(out, base)
    ensures forall i, j :: 0 <= i < |out| && 0 <= j < |out[i]| ==>
      out[i][j] == DarkenPixel(base[i][j], overlay[i][j], opacity, fill)
  {
    seq(|base|, i requires 0 <= i < |base| =>
      seq(|base[i]|, j requires 0 <= j < |base[i]| =>
        DarkenPixel(base[i][j], overlay[i][j], opacity, fill)))
  }

  /**
   * Over whole rasters: the blend never lightens any channel of the base, no
   * fill leaves the base's colours unchanged, and full opacity copies the
   * overlay's alpha.
   */
  lemma BlendNeverLightens(base: Image, overlay: Image, opacity: int, fill: int)
    requires SameShape(base, overlay)
    requires 0 <= opacity <= 100 && 0 <= fill <= 100
    ensures var out := BlendDarken(base, overlay, opacity, fill);
      forall i, j :: 0 <= i < |out| && 0 <= j < |out[i]| ==>
        out[i][j].r <= base[i][j].r && out[i][j].g <= base[i][j].g && out[i][j].b <= base[i][j].b &&
        (fill == 0 ==> DropAlpha(out[i][j]) == DropAlpha(base[i][j])) &&
        (opacity == 100 ==> out[i][j].a == overlay[i][j].a)
  {
  }

  /** `convert('RGBA')` of an RGB raster: every pixel made opaque. */
  function OpaqueImage(img: seq<seq<Rgb>>): (out: Image)
    requires forall i, j :: 0 <= i < |img| && 0 <= j < |img[i]| ==> img[i][j].InRange()
    ensures SameShape(out, img)
    ensures forall i, j :: 0 <= i < |out| && 0 <= j < |out[i]| ==>
      out[i][j].a == 255 && DropAlpha(out[i][j]) == img[i][j]
  {
    seq(|img|, i requires 0 <= i < |img| =>
      seq(|img[i]|, j requires 0 <= j < |img[i]| => Opaque(img[i][j])))
  }

  /** `convert('RGB')` of an RGBA raster: every pixel loses its alpha. */
  function DropAlphaImage(img: Image): (out: seq<seq<Rgb>>)
    ensures SameShape(out, img)
    ensures forall i, j :: 0 <= i < |out| && 0 <= j < |out[i]| ==>
      out[i][j].InRange() && Opaque(out[i][j]) == img[i][j].(a := 255)
  {
    seq(|img|, i requires 0 <= i < |img| =>
      seq(|img[i]|, j requires 0 <= j < |img[i]| => DropAlpha(img[i][j])))
  }
}
