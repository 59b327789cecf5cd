/**
 The coordinate mapper of the scatter plot: the linear scales between data
 space [0,1] x [0,1] and the pixel space of the drawing surface, which is
 `W` pixels wide and `H` pixels high (margins excluded). The y axis is
 inverted: data 0 is at the bottom (pixel row H), data 1 at the top (row 0).
 */
module Scales {

  /** A width or height of the drawing surface, in pixels. */
  type Extent = r: real | r > 0.0 witness 1.0

  /** The position of `v` within [d0, d1]: 0 at d0, 1 at d1. */
  function Normalize(d0: real, d1: real, v: real): (t: real)
    requires d0 != d1
    ensures v == d0 ==> t == 0.0
    ensures v == d1 ==> t == 1.0
  {
    var x := d1 - d0;
    assert x / x == 1.0;
    (v - d0) / x
  }

  /** The number at position `t` between `a` (t = 0) and `b` (t = 1). */
  function Interpolate(a: real, b: real, t: real): (r: real)
    ensures t == 0.0 ==> r == a
    ensures t == 1.0 ==> r == b
  {
    a * (1.0 - t) + b * t
  }

  /**
   A linear scale with domain [d0, d1] and range [r0, r1], as built by
   `scaleLinear([d0, d1], [r0, r1])`: it maps d0 to r0, d1 to r1 and
   interpolates (and extrapolates, since it does not clamp) in between.
   */
  function Linear(d0: real, d1: real, r0: real, r1: real, v: real): (p: real)
    requires d0 != d1
    ensures v == d0 ==> p == r0
    ensures v == d1 ==> p == r1
  {
    Interpolate(r0, r1, Normalize(d0, d1, v))
  }

  /** Swapping domain and range inverts a linear scale. */
  lemma LinearInverse(d0: real, d1: real, r0: real, r1: real, v: real)
    requires d0 != d1 && r0 != r1
    ensures Linear(r0, r1, d0, d1, Linear(d0, d1, r0, r1, v)) == v
  {
    var t := Normalize(d0, d1, v);
    var p := Linear(d0, d1, r0, r1, v);
    assert p == r0 + t * (r1 - r0);
    assert p - r0 == t * (r1 - r0);
    assert Normalize(r0, r1, p) == t;
    assert Interpolate(d0, d1, t) == d0 + t * (d1 - d0);
    assert t * (d1 - d0) == v - d0;
  }

  /** xsc: data x in [0,1] to pixel column in [0,W]. */
  function XScale(w: Extent, v: real): (p: real)
    ensures v == 0.0 ==> p == 0.0
    ensures v == 1.0 ==> p == w
  {
    Linear(0.0, 1.0, 0.0, w, v)
  }

  /** ysc: data y in [0,1] to pixel row in [H,0]. */
  function YScale(h: Extent, v: real): (p: real)
    ensures v == 0.0 ==> p == h
    ensures v == 1.0 ==> p == 0.0
  {
    Linear(0.0, 1.0, h, 0.0, v)
  }

  /** xsci: pixel column in [0,W] back to data x in [0,1]. */
  function XInvert(w: Extent, p: real): (v: real)
    ensures p == 0.0 ==> v == 0.0
    ensures p == w ==> v == 1.0
  {
    Linear(0.0, w, 0.0, 1.0, p)
  }

  /** ysci: pixel row in [H,0] back to data y in [0,1]. */
  function YInvert(h: Extent, p: real): (v: real)
    ensures p == h ==> v == 0.0
    ensures p == 0.0 ==> v == 1.0
  {
    Linear(h, 0.0, 0.0, 1.0, p)
  }

  /** Multiplication by a non-zero factor can be cancelled. */
  lemma Cancel(a: real, b: real, c: real)
    requires c != 0.0 && a * c == b * c
    ensures a == b
  {
    assert (a - b) * c == 0.0;
  }

  /**
   A linear scale is a lerp: equal steps in the domain give equal steps in
   the range, the range's extent per unit of the domain's.
   */
  lemma LinearIsAffine(d0: real, d1: real, r0: real, r1: real, u: real, v: real)
    requires d0 != d1
    ensures Linear(d0, d1, r0, r1, v) - Linear(d0, d1, r0, r1, u) == (v - u) * ((r1 - r0) / (d1 - d0))
  {
    var tu, tv := Normalize(d0, d1, u), Normalize(d0, d1, v);
    assert Linear(d0, d1, r0, r1, v) - Linear(d0, d1, r0, r1, u) == (tv - tu) * (r1 - r0);
    assert (tv - tu) * (d1 - d0) == v - u;
    assert ((v - u) * ((r1 - r0) / (d1 - d0))) * (d1 - d0) == (v - u) * (r1 - r0);
    assert ((tv - tu) * (r1 - r0)) * (d1 - d0) == (v - u) * (r1 - r0);
    Cancel((tv - tu) * (r1 - r0), (v - u) * ((r1 - r0) / (d1 - d0)), d1 - d0);
  }

  /** The four scales in closed form: xsc(v) = W v, ysc(v) = H - H v, xsci(p) = p / W, ysci(p) = 1 - p / H. */
  lemma ScaleClosedForms(w: Extent, h: Extent, v: real, p: real)
    ensures XScale(w, v) == w * v
    ensures YScale(h, v) == h - h * v
    ensures XInvert(w, p) == p / w
    ensures YInvert(h, p) == 1.0 - p / h
  {
    var t := Normalize(h, 0.0, p);
    assert t * (0.0 - h) == p - h;
    assert (p / h) * h == p;
    assert (1.0 - p / h) * (0.0 - h) == p - h;
    Cancel(t, 1.0 - p / h, 0.0 - h);
  }

  /** xsc maps [0,1] into [0,W] and ysc maps [0,1] into [0,H] (the latter upside down). */
  lemma ScaleIntervals(w: Extent, h: Extent, v: real)
    requires 0.0 <= v <= 1.0
    ensures 0.0 <= XScale(w, v) <= w
    ensures 0.0 <= YScale(h, v) <= h
  {
    ScaleClosedForms(w, h, v, 0.0);
    assert 0.0 <= w * v <= w * 1.0;
    assert 0.0 <= h * v <= h * 1.0;
  }

  /** xsci undoes xsc and xsc undoes xsci, for every value (no clamping). */
  lemma XRoundTrip(w: Extent, v: real, p: real)
    ensures XInvert(w, XScale(w, v)) == v && XScale(w, XInvert(w, p)) == p
  {
    LinearInverse(0.0, 1.0, 0.0, w, v);
    LinearInverse(0.0, w, 0.0, 1.0, p);
  }

  /** ysci undoes ysc and ysc undoes ysci, for every value (no clamping). */
  lemma YRoundTrip(h: Extent, v: real, p: real)
    ensures YInvert(h, YScale(h, v)) == v && YScale(h, YInvert(h, p)) == p
  {
    LinearInverse(0.0, 1.0, h, 0.0, v);
    LinearInverse(h, 0.0, 0.0, 1.0, p);
  }

  /** A pixel displacement of the pointer is a displacement of the same size on the x scale. */
  lemma XShift(w: Extent, v: real, d: real)
    ensures XScale(w, XInvert(w, XScale(w, v) + d)) == XScale(w, v) + d
    ensures d == 0.0 ==> XInvert(w, XScale(w, v) + d) == v
  {
    XRoundTrip(w, v, XScale(w, v) + d);
  }

  /** A pixel displacement of the pointer is a displacement of the same size on the y scale. */
  lemma YShift(h: Extent, v: real, d: real)
    ensures YScale(h, YInvert(h, YScale(h, v) + d)) == YScale(h, v) + d
    ensures d == 0.0 ==> YInvert(h, YScale(h, v) + d) == v
  {
    YRoundTrip(h, v, YScale(h, v) + d);
  }
}
