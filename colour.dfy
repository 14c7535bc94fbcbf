/**
 * Colour conversion of the poster generator (Oasis.py:38-66): the naive
 * subtractive conversion between screen RGB (0..255 per channel) and print
 * CMYK (0..100 per ink, in percent), truncating each result to an integer.
 */
module Colour {
  import opened Arith
  import opened Wrappers

  datatype Rgb = Rgb(r: int, g: int, b: int) {
    /** Every channel is a byte. */
    predicate InRange() {
      0 <= r <= 255 && 0 <= g <= 255 && 0 <= b <= 255
    }
  }

  datatype Cmyk = Cmyk(c: int, m: int, y: int, k: int) {
    /** Every ink is a percentage. */
    predicate InRange() {
      0 <= c <= 100 && 0 <= m <= 100 && 0 <= y <= 100 && 0 <= k <= 100
    }
  }

  function Max3(a: int, b: int, c: int): (m: int)
    ensures a <= m && b <= m && c <= m
    ensures m == a || m == b || m == c
  {
    if a >= b && a >= c then a else if b >= c then b else c
  }

  /**
   * One screen channel from one ink percentage `v` and the black percentage
   * `k`: the light that passes both inks, truncated.
   */
  function InkToChannel(v: int, k: int): (ch: int)
    ensures 0 <= v <= 100 && 0 <= k <= 100 ==> 0 <= ch <= 255
    ensures k == 100 ==> ch == 0
    ensures v == 0 && k == 0 ==> ch == 255
  {
    InkLightRange(v, k);
    Trunc(255.0 * (1.0 - v as real / 100.0) * (1.0 - k as real / 100.0))
  }

  /** Ink percentages in range let between none and all of the light through. */
  lemma InkLightRange(v: int, k: int)
    ensures 0 <= v <= 100 && 0 <= k <= 100 ==>
      0.0 <= 255.0 * (1.0 - v as real / 100.0) * (1.0 - k as real / 100.0) <= 255.0
  {
    if 0 <= v <= 100 && 0 <= k <= 100 {
      var lit0 := 255.0 * (1.0 - v as real / 100.0);
      var kf := 1.0 - k as real / 100.0;
      assert 0.0 <= lit0 <= 255.0 && 0.0 <= kf <= 1.0;
      MulMonotone(0.0, lit0, kf);
      MulMonotone(lit0, 255.0, kf);
      assert lit0 * kf <= 255.0 * kf <= 255.0;
      assert lit0 * kf == 255.0 * (1.0 - v as real / 100.0) * (1.0 - k as real / 100.0);
    }
  }

  /**
   * `cmyk_to_rgb`: each screen channel depends on its own ink and black only.
   * Inks in range give bytes; full black gives black; no ink gives white.
   */
  function CmykToRgb(c: int, m: int, y: int, k: int): (rgb: Rgb)
    ensures Cmyk(c, m, y, k).InRange() ==> rgb.InRange()
    ensures k == 100 ==> rgb == Rgb(0, 0, 0)
    ensures (c, m, y, k) == (0, 0, 0, 0) ==> rgb == Rgb(255, 255, 255)
  {
    Rgb(InkToChannel(c, k), InkToChannel(m, k), InkToChannel(y, k))
  }

  /** More ink or more black never gives a lighter channel. */
  lemma InkToChannelMonotone(v1: int, k1: int, v2: int, k2: int)
    requires 0 <= v1 <= v2 <= 100 && 0 <= k1 <= k2 <= 100
    ensures InkToChannel(v2, k2) <= InkToChannel(v1, k1)
  {
    var a1, a2 := 1.0 - v1 as real / 100.0, 1.0 - v2 as real / 100.0;
    var b1, b2 := 1.0 - k1 as real / 100.0, 1.0 - k2 as real / 100.0;
    var l1, l2 := 255.0 * a1, 255.0 * a2;
    ProductMonotone(l2, l1, b2, b1);
    assert l2 * b2 == 255.0 * (1.0 - v2 as real / 100.0) * (1.0 - k2 as real / 100.0);
    assert l1 * b1 == 255.0 * (1.0 - v1 as real / 100.0) * (1.0 - k1 as real / 100.0);
    TruncMonotone(l2 * b2, l1 * b1);
  }

  /**
   * Red depends only on cyan and black and falls as either grows; likewise
   * green on magenta and black, blue on yellow and black.
   */
  lemma CmykToRgbMonotone(p: Cmyk, q: Cmyk)
    requires p.InRange() && q.InRange()
    ensures p.c <= q.c && p.k <= q.k ==> CmykToRgb(q.c, q.m, q.y, q.k).r <= CmykToRgb(p.c, p.m, p.y, p.k).r
    ensures p.m <= q.m && p.k <= q.k ==> CmykToRgb(q.c, q.m, q.y, q.k).g <= CmykToRgb(p.c, p.m, p.y, p.k).g
    ensures p.y <= q.y && p.k <= q.k ==> CmykToRgb(q.c, q.m, q.y, q.k).b <= CmykToRgb(p.c, p.m, p.y, p.k).b
  {
    if p.c <= q.c && p.k <= q.k { InkToChannelMonotone(p.c, p.k, q.c, q.k); }
    if p.m <= q.m && p.k <= q.k { InkToChannelMonotone(p.m, p.k, q.m, q.k); }
    if p.y <= q.y && p.k <= q.k { InkToChannelMonotone(p.y, p.k, q.y, q.k); }
  }

  /** The fraction of black: the least of the three ink fractions `1 - channel/255`. */
  function KeyFraction(r: int, g: int, b: int): (k: real)
    ensures k == 1.0 - Max3(r, g, b) as real / 255.0
  {
    MinReal3(1.0 - r as real / 255.0, 1.0 - g as real / 255.0, 1.0 - b as real / 255.0)
  }

  /** One ink percentage from its fraction `v` and the black fraction `k`; `1 - k` must not be 0. */
  function InkPercent(v: real, k: real): int
    requires k != 1.0
  {
    Trunc((v - k) / (1.0 - k) * 100.0)
  }

  /**
   * `rgb_to_cmyk`. Black is answered directly with full black ink, and white
   * needs no ink at all. `None` stands for the division by zero the
   * conversion raises when `1 - k` is 0, which happens exactly for non-black
   * inputs whose largest channel is 0 (so never for bytes).
   */
  function RgbToCmyk(r: int, g: int, b: int): (res: Option<Cmyk>)
    ensures (r, g, b) == (0, 0, 0) ==> res == Some(Cmyk(0, 0, 0, 100))
    ensures res.None? <==> (r, g, b) != (0, 0, 0) && Max3(r, g, b) == 0
    ensures (r, g, b) == (255, 255, 255) ==> res == Some(Cmyk(0, 0, 0, 0))
  {
    if (r, g, b) == (0, 0, 0) then Some(Cmyk(0, 0, 0, 100))
    else
      var c := 1.0 - r as real / 255.0;
      var m := 1.0 - g as real / 255.0;
      var y := 1.0 - b as real / 255.0;
      var k := KeyFraction(r, g, b);
      if 1.0 - k == 0.0 then None
      else Some(Cmyk(InkPercent(c, k), InkPercent(m, k), InkPercent(y, k), Trunc(k * 100.0)))
  }

  /**
   * For every byte colour the conversion succeeds (the divisor `1 - k` is
   * positive unless the colour is black), every ink is a percentage, and the
   * ink of the brightest channel is 0.
   */
  lemma RgbToCmykInRange(r: int, g: int, b: int)
    requires Rgb(r, g, b).InRange()
    ensures (r, g, b) != (0, 0, 0) ==> 1.0 - KeyFraction(r, g, b) > 0.0
    ensures RgbToCmyk(r, g, b).Some?
    ensures var x := RgbToCmyk(r, g, b).value;
      x.InRange() &&
      (r == Max3(r, g, b) ==> x.c == 0) &&
      (g == Max3(r, g, b) ==> x.m == 0) &&
      (b == Max3(r, g, b) ==> x.y == 0)
  {
    if (r, g, b) != (0, 0, 0) {
      var mx := Max3(r, g, b);
      ChannelInkPercent(r, mx);
      ChannelInkPercent(g, mx);
      ChannelInkPercent(b, mx);
    }
  }

  /**
   * The ink percentage of a channel `v` when the brightest channel is `mx`:
   * it is the truncation of `100 * (mx - v) / mx`, so 0 for the brightest.
   */
  lemma ChannelInkPercent(v: int, mx: int)
    requires 0 <= v <= mx && 1 <= mx <= 255
    ensures var k := 1.0 - mx as real / 255.0;
      k != 1.0 &&
      InkPercent(1.0 - v as real / 255.0, k) == Trunc((mx - v) as real / mx as real * 100.0) &&
      0 <= InkPercent(1.0 - v as real / 255.0, k) <= 100 &&
      (v == mx ==> InkPercent(1.0 - v as real / 255.0, k) == 0)
  {
    var k := 1.0 - mx as real / 255.0;
    var vf := 1.0 - v as real / 255.0;
    assert vf - k == (mx - v) as real / 255.0;
    assert 1.0 - k == mx as real / 255.0;
    assert (vf - k) / (1.0 - k) == (mx - v) as real / mx as real;
    var p := (mx - v) as real / mx as real;
    assert 0.0 <= p <= 1.0;
    MulMonotone(p, 1.0, 100.0);
  }

  /**
   * Truncating a percentage drops less than one percent: the fraction of
   * light `1 - p` it lets through grows by less than 0.01.
   */
  lemma TruncatedInkLetsThrough(p: real)
    requires 0.0 <= p <= 1.0
    ensures var a := 1.0 - Trunc(p * 100.0) as real / 100.0;
      1.0 - p <= a < 1.0 - p + 0.01
  {
  }

  /** The fraction `(mx - v) / mx` that `rgb_to_cmyk` computes for a channel, as `1 - v / mx`. */
  lemma InkFraction(v: int, mx: int)
    requires 0 <= v <= mx && 1 <= mx
    ensures (mx - v) as real / mx as real == 1.0 - v as real / mx as real
  {
    var t := (mx - v) as real / mx as real;
    var u := v as real / mx as real;
    assert t * mx as real == (mx - v) as real;
    assert u * mx as real == v as real;
    assert (t - (1.0 - u)) * mx as real == 0.0;
    CancelFactor(t - (1.0 - u), mx as real);
  }

  /** `v / mx` of the brightest channel times `mx / 255` is `v / 255`. */
  lemma FractionsCancel(v: int, mx: int)
    requires 1 <= mx
    ensures (v as real / mx as real) * (mx as real / 255.0) == v as real / 255.0
  {
    var u := v as real / mx as real;
    assert u * mx as real == v as real;
  }

  /** Two light fractions each raised by less than 0.01 raise their product by at most 0.0201. */
  lemma LightProductBounds(u: real, w: real, a: real, b: real)
    requires 0.0 <= u <= 1.0 && 0.0 <= w <= 1.0
    requires u <= a <= u + 0.01 && w <= b <= w + 0.01
    ensures u * w <= a * b <= u * w + 0.0201
  {
    ProductMonotone(u, a, w, b);
    ProductMonotone(a, u + 0.01, b, w + 0.01);
    assert (u + 0.01) * (w + 0.01) == u * w + 0.01 * u + 0.01 * w + 0.0001;
  }

  /**
   * The light fractions that come back for a channel `v` under brightest
   * channel `mx`: each is the exact fraction (`v / mx` for the ink,
   * `mx / 255` for black) raised by less than 0.01 by truncation.
   */
  lemma ChannelLightBounds(v: int, mx: int)
    requires 0 <= v <= mx && 1 <= mx <= 255
    ensures var ink := Trunc((mx - v) as real / mx as real * 100.0);
      var key := Trunc((1.0 - mx as real / 255.0) * 100.0);
      var u, w := v as real / mx as real, mx as real / 255.0;
      u <= 1.0 - ink as real / 100.0 <= u + 0.01 &&
      w <= 1.0 - key as real / 100.0 <= w + 0.01
  {
    var u := v as real / mx as real;
    InkFraction(v, mx);
    assert 0.0 <= u <= 1.0;
    TruncatedInkLetsThrough(1.0 - u);
    TruncatedInkLetsThrough(1.0 - mx as real / 255.0);
  }

  /** The exact light that comes back for a channel lies in `[v, v + 6)`. */
  lemma ChannelLightComesBack(v: int, mx: int)
    requires 0 <= v <= mx && 1 <= mx <= 255
    ensures var ink := Trunc((mx - v) as real / mx as real * 100.0);
      var key := Trunc((1.0 - mx as real / 255.0) * 100.0);
      var lit := 255.0 * (1.0 - ink as real / 100.0) * (1.0 - key as real / 100.0);
      v as real <= lit < (v + 6) as real
  {
    var ink := Trunc((mx - v) as real / mx as real * 100.0);
    var key := Trunc((1.0 - mx as real / 255.0) * 100.0);
    var u, w := v as real / mx as real, mx as real / 255.0;
    var a, b := 1.0 - ink as real / 100.0, 1.0 - key as real / 100.0;
    ChannelLightBounds(v, mx);
    assert 0.0 <= u <= 1.0 && 0.0 <= w <= 1.0;
    LightProductBounds(u, w, a, b);
    FractionsCancel(v, mx);
    assert 255.0 * a * b == 255.0 * (a * b);
  }

  /**
   * One channel of the round trip: a byte `v` whose brightest sibling is `mx`
   * goes to the ink percentage and black percentage `rgb_to_cmyk` computes,
   * and back. Both truncations drop ink, so the channel comes back no darker,
   * and at most 5 levels lighter.
   */
  lemma ChannelRoundTrip(v: int, mx: int)
    requires 0 <= v <= mx && 1 <= mx <= 255
    ensures var ink := Trunc((mx - v) as real / mx as real * 100.0);
      var key := Trunc((1.0 - mx as real / 255.0) * 100.0);
      v <= InkToChannel(ink, key) <= v + 5
  {
    ChannelLightComesBack(v, mx);
    var ink := Trunc((mx - v) as real / mx as real * 100.0);
    var key := Trunc((1.0 - mx as real / 255.0) * 100.0);
    ChannelFromLight(ink, key, v);
  }

  /** A channel whose exact light lies in `[v, v + 6)` truncates to `v .. v + 5`. */
  lemma ChannelFromLight(ink: int, key: int, v: int)
    requires var lit := 255.0 * (1.0 - ink as real / 100.0) * (1.0 - key as real / 100.0);
      0 <= v && v as real <= lit < (v + 6) as real
    ensures v <= InkToChannel(ink, key) <= v + 5
  {
    var lit := 255.0 * (1.0 - ink as real / 100.0) * (1.0 - key as real / 100.0);
    TruncOfInt(v);
    TruncMonotone(v as real, lit);
  }

  /**
   * `rgb_to_cmyk` followed by `cmyk_to_rgb` is lossy but bounded: every byte
   * colour comes back with each channel no darker and at most 5 levels
   * lighter than it was; black comes back exactly.
   */
  lemma RoundTrip(r: int, g: int, b: int)
    requires Rgb(r, g, b).InRange()
    ensures var x := RgbToCmyk(r, g, b).value;
      var back := CmykToRgb(x.c, x.m, x.y, x.k);
      r <= back.r <= r + 5 && g <= back.g <= g + 5 && b <= back.b <= b + 5
  {
    if (r, g, b) != (0, 0, 0) {
      var mx := Max3(r, g, b);
      ChannelInkPercent(r, mx);
      ChannelInkPercent(g, mx);
      ChannelInkPercent(b, mx);
      ChannelRoundTrip(r, mx);
      ChannelRoundTrip(g, mx);
      ChannelRoundTrip(b, mx);
    }
  }
}
