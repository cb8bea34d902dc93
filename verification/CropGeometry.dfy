/** Cropping and shrinking an image to a requested size. */
module CropGeometrySpec {

  /** `Scaled` holds the destination size, where the scaled source's corner lies in it, and the scale. */
  datatype Crop = Unchanged | Scaled(width: int, height: int, offsetX: real, offsetY: real, scale: real)

  /** The part of the source that ends up in the destination: its size and its corner. */
  datatype Window = Window(width: real, height: real, left: real, top: real)

  function Min(a: int, b: int): int {
    if a < b then a else b
  }

  predicate Sizes(a: int, b: int, x: int, y: int) {
    a > 0 && b > 0 && x > 0 && y > 0
  }

  /** The length that is to `v` as `a` is to `u`. */
  function Proportional(a: int, v: int, u: int): (n: real)
    requires a > 0 && v > 0 && u > 0
    ensures n > 0.0 && n * u as real == a as real * v as real
  {
    a as real * v as real / u as real
  }

  /** The window spanning the source's width, for a `u` by `v` destination. */
  function FullWidth(a: int, b: int, u: int, v: int): Window
    requires Sizes(a, b, u, v)
  {
    var nb := Proportional(a, v, u);
    Window(a as real, nb, 0.0, (b as real - nb) / 2.0)
  }

  function FullHeight(a: int, b: int, u: int, v: int): Window
    requires Sizes(a, b, u, v)
  {
    var na := Proportional(b, u, v);
    Window(na, b as real, (a as real - na) / 2.0, 0.0)
  }

  function WindowOf(a: int, b: int, x: int, y: int): (w: Window)
    requires Sizes(a, b, x, y)
    ensures w.width > 0.0
  {
    if a * y < b * x then FullWidth(a, b, Min(a, x), Min(b, y)) else FullHeight(a, b, Min(a, x), Min(b, y))
  }

  /** The arguments of the scaling call that draws window `w` as `u` by `v`. */
  function Draw(w: Window, u: int, v: int): Crop
    requires w.width > 0.0
  {
    var scale := u as real / w.width;
    Scaled(u, v, -w.left * scale, -w.top * scale, scale)
  }

  /** An `a` by `b` source and a requested `x` by `y`. */
  function CropResize(a: int, b: int, x: int, y: int): Crop
    requires Sizes(a, b, x, y)
  {
    if a < x && b < y then Unchanged else Draw(WindowOf(a, b, x, y), Min(a, x), Min(b, y))
  }

  lemma Mono(m: int, n: int, k: int)
    requires k > 0
    ensures (m <= n <==> m * k <= n * k) && (m < n <==> m * k < n * k)
  {}

  lemma RealMono(a: real, b: real, c: real)
    requires c > 0.0
    ensures (a <= b <==> a * c <= b * c) && (a == b <==> a * c == b * c)
  {}

  lemma Products(a: int, b: int)
    ensures a as real * b as real == (a * b) as real
  {}

  /** The side compared against the request also decides against the destination. */
  lemma ConstrainedSide(a: int, b: int, x: int, y: int)
    requires Sizes(a, b, x, y) && !(a < x && b < y)
    ensures a * y < b * x ==> a * Min(b, y) <= b * Min(a, x)
    ensures a * y >= b * x ==> b * Min(a, x) <= a * Min(b, y)
  {
    if a < x {
      Mono(y, b, a);
    } else if b < y {
      Mono(x, a, b);
    }
  }

  /** The proportional length is within the side it is taken from. */
  lemma ProportionalFits(a: int, v: int, u: int, b: int)
    requires a > 0 && v > 0 && u > 0 && a * v <= b * u
    ensures Proportional(a, v, u) <= b as real
  {
    Products(a, v);
    Products(b, u);
    RealMono(Proportional(a, v, u), b as real, u as real);
  }

  /** The window has the destination's aspect ratio, lies centred inside the source and spans one of its sides. */
  predicate Centred(w: Window, a: real, b: real, u: real, v: real) {
    0.0 < w.width <= a && 0.0 < w.height <= b && w.width * v == w.height * u &&
    (w.width == a || w.height == b) &&
    0.0 <= w.left && w.left + w.width + w.left == a &&
    0.0 <= w.top && w.top + w.height + w.top == b
  }

  lemma FullWidthFits(a: int, b: int, u: int, v: int)
    requires Sizes(a, b, u, v) && a * v <= b * u
    ensures Centred(FullWidth(a, b, u, v), a as real, b as real, u as real, v as real)
  {
    ProportionalFits(a, v, u, b);
  }

  lemma FullHeightFits(a: int, b: int, u: int, v: int)
    requires Sizes(a, b, u, v) && b * u <= a * v
    ensures Centred(FullHeight(a, b, u, v), a as real, b as real, u as real, v as real)
  {
    ProportionalFits(b, u, v, a);
  }

  lemma WindowFits(a: int, b: int, x: int, y: int)
    requires Sizes(a, b, x, y) && !(a < x && b < y)
    ensures Centred(WindowOf(a, b, x, y), a as real, b as real, Min(a, x) as real, Min(b, y) as real)
  {
    ConstrainedSide(a, b, x, y);
    if a * y < b * x {
      FullWidthFits(a, b, Min(a, x), Min(b, y));
    } else {
      FullHeightFits(a, b, Min(a, x), Min(b, y));
    }
  }

  /** A `p` by `q` window inside the source with the destination's aspect ratio. */
  predicate Eligible(p: real, q: real, a: real, b: real, u: real, v: real) {
    p <= a && q <= b && p * v == q * u
  }

  lemma LargestCentred(w: Window, a: real, b: real, u: real, v: real, p: real, q: real)
    requires Centred(w, a, b, u, v) && u > 0.0 && v > 0.0 && Eligible(p, q, a, b, u, v)
    ensures p <= w.width && q <= w.height
  {
    RealMono(p, w.width, v);
    RealMono(q, w.height, u);
  }

  /** No window of the destination's aspect ratio inside the source is larger. */
  lemma WindowIsLargest(a: int, b: int, x: int, y: int, p: real, q: real)
    requires Sizes(a, b, x, y) && !(a < x && b < y)
    requires Eligible(p, q, a as real, b as real, Min(a, x) as real, Min(b, y) as real)
    ensures p <= WindowOf(a, b, x, y).width && q <= WindowOf(a, b, x, y).height
  {
    WindowFits(a, b, x, y);
    LargestCentred(WindowOf(a, b, x, y), a as real, b as real, Min(a, x) as real, Min(b, y) as real, p, q);
  }

  /** The window maps exactly onto the destination; the scaled source covers it, centre on centre. */
  predicate Covers(r: Crop, w: Window, a: real, b: real)
    requires r.Scaled?
  {
    var (u, v) := (r.width as real, r.height as real);
    w.width * r.scale == u && w.height * r.scale == v &&
    r.offsetX <= 0.0 && r.offsetX + a * r.scale >= u && r.offsetX + a * r.scale + r.offsetX == u &&
    r.offsetY <= 0.0 && r.offsetY + b * r.scale >= v && r.offsetY + b * r.scale + r.offsetY == v
  }

  lemma Placed(a: real, na: real, left: real, u: real, s: real)
    requires 0.0 < s && na * s == u && 0.0 <= left && left + na + left == a
    ensures -left * s <= 0.0 && -left * s + a * s >= u && -left * s + a * s + -left * s == u
  {
    assert a * s == left * s + na * s + left * s;
    assert left * s >= 0.0;
  }

  lemma ScaleMaps(na: real, nb: real, u: real, v: real)
    requires na > 0.0 && nb > 0.0 && u > 0.0 && na * v == nb * u
    ensures u / na > 0.0 && na * (u / na) == u && nb * (u / na) == v
  {
    var s := u / na;
    assert na * s == u;
    assert na * (nb * s) == na * v;
    RealMono(nb * s, v, na);
  }

  lemma DrawCovers(w: Window, a: real, b: real, u: int, v: int)
    requires u > 0 && Centred(w, a, b, u as real, v as real)
    ensures Draw(w, u, v).scale > 0.0 && Covers(Draw(w, u, v), w, a, b)
  {
    var s := Draw(w, u, v).scale;
    ScaleMaps(w.width, w.height, u as real, v as real);
    Placed(a, w.width, w.left, u as real, s);
    Placed(b, w.height, w.top, v as real, s);
  }

  /** A source smaller both ways is returned as it is; otherwise the result is the smaller of source and
      request on each side and shows exactly the window. */
  lemma CropCovers(a: int, b: int, x: int, y: int)
    requires Sizes(a, b, x, y)
    ensures a < x && b < y ==> CropResize(a, b, x, y) == Unchanged
    ensures !(a < x && b < y) ==> var r := CropResize(a, b, x, y);
      r.Scaled? && r.width == Min(a, x) && r.height == Min(b, y) && r.scale > 0.0 &&
      Covers(r, WindowOf(a, b, x, y), a as real, b as real)
  {
    if !(a < x && b < y) {
      WindowFits(a, b, x, y);
      DrawCovers(WindowOf(a, b, x, y), a as real, b as real, Min(a, x), Min(b, y));
    }
  }

  lemma ScaleBound(r: Crop, w: Window, a: real, b: real)
    requires r.Scaled? && r.scale > 0.0 && Covers(r, w, a, b)
    requires Centred(w, a, b, r.width as real, r.height as real)
    requires r.width as real <= a && r.height as real <= b
    ensures r.scale <= 1.0 && (r.scale == 1.0 <==> r.width as real == a || r.height as real == b)
  {
    var s := r.scale;
    RealMono(s, 1.0, w.width);
    RealMono(s, 1.0, w.height);
    RealMono(w.width, a, s);
    RealMono(w.height, b, s);
  }

  /** Nothing is ever enlarged, and nothing is resampled exactly when the request reaches the source on a side. */
  lemma NeverEnlarges(a: int, b: int, x: int, y: int)
    requires Sizes(a, b, x, y) && !(a < x && b < y)
    ensures var r := CropResize(a, b, x, y); r.Scaled? && r.scale <= 1.0 && (r.scale == 1.0 <==> a <= x || b <= y)
  {
    WindowFits(a, b, x, y);
    CropCovers(a, b, x, y);
    ScaleBound(CropResize(a, b, x, y), WindowOf(a, b, x, y), a as real, b as real);
  }
}
