/** Scaling an image to a requested box while it is being loaded. */
module FitBoxSpec {

  datatype Box = Box(width: int, height: int, preserve: bool)
  datatype Size = Size(width: int, height: int)

  /** Conversion of a C `double` to `int`: toward zero. */
  function Truncate(x: real): int {
    if x >= 0.0 then x.Floor else -((-x).Floor)
  }

  lemma FloorBelow(x: int, q: real, n: int, d: int)
    requires d > 0 && q * d as real == n as real && x as real <= q
    ensures x * d <= n
  {
    Grows(x as real, q, d as real);
    Products(x, d);
  }

  lemma FloorAbove(y: int, q: real, n: int, d: int)
    requires d > 0 && q * d as real == n as real && q < y as real
    ensures n < y * d
  {
    Grows(q, y as real, d as real);
    Products(y, d);
  }

  lemma FloorBounds(x: int, q: real, n: int, d: int)
    requires d > 0 && q * d as real == n as real && x == q.Floor
    ensures x * d <= n < (x + 1) * d
  {
    FloorBelow(x, q, n, d);
    FloorAbove(x + 1, q, n, d);
  }

  lemma Grows(a: real, b: real, e: real)
    requires e > 0.0 && a <= b
    ensures a * e <= b * e && (a < b ==> a * e < b * e)
  {}

  lemma Products(a: int, b: int)
    ensures a as real * b as real == (a * b) as real
  {}

  lemma Quotient(a: int, b: int, d: int)
    requires a >= 0 && b >= 0 && d > 0
    ensures var q := a as real * b as real / d as real;
      q >= 0.0 && q * d as real == (a * b) as real
  {
    Products(a, b);
  }

  /** `x` is the integer nearest to `n / d`, halves going up. */
  predicate Nearest(x: int, n: int, d: int) {
    x * (2 * d) <= 2 * n + d < (x + 1) * (2 * d)
  }

  /** `x` is the integer part of `n / d`. */
  predicate Whole(x: int, n: int, d: int) {
    x * d <= n < (x + 1) * d
  }

  /** The proportional side, rounded to the nearest pixel. */
  function Rounded(a: int, b: int, d: int): (r: int)
    requires a >= 0 && b >= 0 && d > 0
    ensures Nearest(r, a * b, d)
  {
    var q := a as real * b as real / d as real;
    var r := Truncate(0.5 + q);
    assert Nearest(r, a * b, d) by {
      Quotient(a, b, d);
      assert (0.5 + q) * (2 * d) as real == (2 * (a * b) + d) as real;
      FloorBounds(r, 0.5 + q, 2 * (a * b) + d, 2 * d);
    }
    r
  }

  /** The proportional side, its fraction dropped. */
  function Truncated(a: int, b: int, d: int): (r: int)
    requires a >= 0 && b >= 0 && d > 0
    ensures Whole(r, a * b, d)
  {
    var q := a as real * b as real / d as real;
    assert Whole(Truncate(q), a * b, d) by {
      Quotient(a, b, d);
      FloorBounds(Truncate(q), q, a * b, d);
    }
    Truncate(q)
  }

  predicate Positive(s: Size) {
    s.width > 0 && s.height > 0
  }

  function AtLeastOne(s: Size): Size {
    Size(if s.width > 1 then s.width else 1, if s.height > 1 then s.height else 1)
  }

  /** The image is taller, for its width, than the box. */
  predicate Taller(image: Size, box: Box)
    ensures Taller(image, box) <==> image.height * box.width > image.width * box.height
  {
    Products(image.height, box.width);
    Products(image.width, box.height);
    image.height as real * box.width as real > image.width as real * box.height as real
  }

  /** The size before the clamp to one pixel. A negative side of the box is unconstrained. */
  function Scaled(image: Size, box: Box): Size
    requires Positive(image)
  {
    var (w, h) := (image.width, image.height);
    if box.preserve && (box.width > 0 || box.height > 0) then
      if box.width < 0 then Size(Truncated(w, box.height, h), box.height)
      else if box.height < 0 then Size(box.width, Truncated(h, box.width, w))
      else if Taller(image, box) then Size(Rounded(w, box.height, h), box.height)
      else Size(box.width, Rounded(h, box.width, w))
    else
      Size(if box.width > 0 then box.width else w, if box.height > 0 then box.height else h)
  }

  function Fit(image: Size, box: Box): Size
    requires Positive(image)
  {
    AtLeastOne(Scaled(image, box))
  }

  // Properties

  lemma LessByProduct(a: int, b: int, d: int)
    requires d > 0 && a * d < b * d
    ensures a < b
  {}

  lemma NearestFits(x: int, n: int, d: int, limit: int)
    requires d > 0 && n >= 0 && Nearest(x, n, d) && n <= limit * d
    ensures 0 <= x <= limit
  {
    LessByProduct(0, x + 1, 2 * d);
    assert (limit + 1) * (2 * d) == 2 * (limit * d) + 2 * d;
    LessByProduct(x, limit + 1, 2 * d);
  }

  lemma NearestOfMultiple(x: int, y: int, d: int)
    requires d > 0 && Nearest(x, y * d, d)
    ensures x == y
  {
    assert (y + 1) * (2 * d) == 2 * (y * d) + 2 * d && y * (2 * d) == 2 * (y * d);
    LessByProduct(x, y + 1, 2 * d);
    LessByProduct(y, x + 1, 2 * d);
  }

  lemma WholeOfMultiple(x: int, y: int, d: int)
    requires d > 0 && Whole(x, y * d, d)
    ensures x == y
  {
    assert (y + 1) * d == y * d + d;
    LessByProduct(x, y + 1, d);
    LessByProduct(y, x + 1, d);
  }

  /** Into a box with both sides given, the image fits, touches one side, keeps its ratio to within half a
      pixel before the clamp, and is at least one pixel each way. */
  lemma FitsBox(image: Size, box: Box)
    requires Positive(image) && box.preserve && box.width > 0 && box.height > 0
    ensures var r := Fit(image, box);
      1 <= r.width <= box.width && 1 <= r.height <= box.height && (r.width == box.width || r.height == box.height)
    ensures var r := Scaled(image, box);
      (r.height == box.height && Nearest(r.width, image.width * box.height, image.height)) ||
      (r.width == box.width && Nearest(r.height, image.height * box.width, image.width))
  {
    var (w, h) := (image.width, image.height);
    if Taller(image, box) {
      NearestFits(Rounded(w, box.height, h), w * box.height, h, box.width);
    } else {
      NearestFits(Rounded(h, box.width, w), h * box.width, w, box.height);
    }
  }

  /** The image scaled by `scale` is within `slack` pixels of fitting into `s`. */
  predicate FitsScaled(scale: real, image: Size, s: Size, slack: real) {
    scale * image.width as real <= s.width as real + slack && scale * image.height as real <= s.height as real + slack
  }

  /** No uniform scaling that fits the box is larger than the result by more than the rounding. */
  lemma LargestFit(image: Size, box: Box, scale: real)
    requires Positive(image) && box.preserve && box.width > 0 && box.height > 0
    requires FitsScaled(scale, image, Size(box.width, box.height), 0.0)
    ensures FitsScaled(scale, image, Fit(image, box), 0.5)
  {
    if Taller(image, box) {
      TallerFit(image, box);
      TallerScaled(image, box, scale, Fit(image, box));
    } else {
      WiderFit(image, box);
      WiderScaled(image, box, scale, Fit(image, box));
    }
  }

  lemma TallerScaled(image: Size, box: Box, scale: real, r: Size)
    requires Positive(image) && FitsScaled(scale, image, Size(box.width, box.height), 0.0)
    requires r.height == box.height && 2 * (image.width * box.height) + image.height < (r.width + 1) * (2 * image.height)
    ensures FitsScaled(scale, image, r, 0.5)
  {
    ScaleBound(scale, image.width, image.height, box.height, r.width);
  }

  lemma WiderScaled(image: Size, box: Box, scale: real, r: Size)
    requires Positive(image) && FitsScaled(scale, image, Size(box.width, box.height), 0.0)
    requires r.width == box.width && 2 * (image.height * box.width) + image.width < (r.height + 1) * (2 * image.width)
    ensures FitsScaled(scale, image, r, 0.5)
  {
    ScaleBound(scale, image.height, image.width, box.width, r.height);
  }

  lemma TallerFit(image: Size, box: Box)
    requires Positive(image) && box.preserve && box.width > 0 && box.height > 0 && Taller(image, box)
    ensures var r := Fit(image, box);
      r.height == box.height && 2 * (image.width * box.height) + image.height < (r.width + 1) * (2 * image.height)
  {
    var x := Rounded(image.width, box.height, image.height);
    Wider(x + 1, Fit(image, box).width + 1, 2 * image.height);
  }

  lemma WiderFit(image: Size, box: Box)
    requires Positive(image) && box.preserve && box.width > 0 && box.height > 0 && !Taller(image, box)
    ensures var r := Fit(image, box);
      r.width == box.width && 2 * (image.height * box.width) + image.width < (r.height + 1) * (2 * image.width)
  {
    var x := Rounded(image.height, box.width, image.width);
    Wider(x + 1, Fit(image, box).height + 1, 2 * image.width);
  }

  lemma Wider(m: int, n: int, d: int)
    requires m <= n && d > 0
    ensures m * d <= n * d
  {}

  lemma ScaleBound(scale: real, a: int, d: int, limit: int, x: int)
    requires a > 0 && d > 0 && scale * d as real <= limit as real && 2 * (a * limit) + d < (x + 1) * (2 * d)
    ensures scale * a as real <= x as real + 0.5
  {
    var ra, rd := a as real, d as real;
    assert 2 * (a * limit) < (2 * x + 1) * d;
    Products(a, limit);
    Products(2 * x + 1, d);
    ScaledBelow(scale, ra, rd, limit as real, (2 * x + 1) as real / 2.0);
  }

  lemma ScaledBelow(scale: real, a: real, d: real, limit: real, t: real)
    requires a > 0.0 && d > 0.0 && scale * d <= limit && a * limit <= t * d
    ensures scale * a <= t
  {
    Grows(scale * d, limit, a);
    assert (scale * a) * d <= t * d;
    if scale * a > t {
      Grows(t, scale * a, d);
    }
  }

  lemma RefitTaller(r: Size, box: Box)
    requires Positive(r) && box.preserve && box.width > 0 && box.height == r.height && Taller(r, box)
    ensures Fit(r, box) == r
  {
    NearestOfMultiple(Rounded(r.width, r.height, r.height), r.width, r.height);
  }

  lemma RefitWider(r: Size, box: Box)
    requires Positive(r) && box.preserve && box.width == r.width && box.height > 0 && !Taller(r, box)
    ensures Fit(r, box) == r
  {
    NearestOfMultiple(Rounded(r.height, r.width, r.width), r.height, r.width);
  }

  lemma TouchingSide(r: Size, box: Box)
    requires Positive(r) && r.width <= box.width && r.height <= box.height
    requires r.width == box.width || r.height == box.height
    ensures if Taller(r, box) then r.height == box.height else r.width == box.width
  {
    Wider(r.width, box.width, r.height);
    Wider(r.height, box.height, r.width);
  }

  /** Fitting a fitted image again changes nothing, for every box. */
  lemma RefitIsIdentity(image: Size, box: Box)
    requires Positive(image)
    ensures Positive(Fit(image, box)) && Fit(Fit(image, box), box) == Fit(image, box)
  {
    var r := Fit(image, box);
    if box.preserve && (box.width > 0 || box.height > 0) {
      if box.width < 0 {
        WholeOfMultiple(Truncated(r.width, box.height, r.height), r.width, r.height);
      } else if box.height < 0 {
        WholeOfMultiple(Truncated(r.height, box.width, r.width), r.height, r.width);
      } else if box.width == 0 || box.height == 0 {
        ZeroSideGivesOnePixel(image, box);
        ZeroSideGivesOnePixel(r, box);
      } else {
        FitsBox(image, box);
        TouchingSide(r, box);
        if Taller(r, box) { RefitTaller(r, box); } else { RefitWider(r, box); }
      }
    }
  }

  /** With the ratio kept, a zero side collapses the image to one pixel, whatever the other side is. */
  lemma ZeroSideGivesOnePixel(image: Size, box: Box)
    requires Positive(image) && box.preserve
    requires (box.width == 0 && box.height > 0) || (box.width > 0 && box.height == 0)
    ensures Fit(image, box) == Size(1, 1)
  {
    Products(image.height, box.width);
    Products(image.width, box.height);
    if box.width == 0 {
      NearestOfMultiple(Rounded(image.height, box.width, image.width), 0, image.width);
    } else {
      NearestOfMultiple(Rounded(image.width, box.height, image.height), 0, image.height);
    }
  }

  /** With one side unconstrained the other is met exactly and the ratio is kept from below. */
  lemma OneSidedFit(image: Size, box: Box)
    requires Positive(image) && box.preserve
    ensures box.width < 0 < box.height ==> var r := Fit(image, box);
      r.height == box.height && (Whole(r.width, image.width * box.height, image.height) ||
        (r.width == 1 && image.width * box.height < image.height))
    ensures box.height < 0 < box.width ==> var r := Fit(image, box);
      r.width == box.width && (Whole(r.height, image.height * box.width, image.width) ||
        (r.height == 1 && image.height * box.width < image.width))
  {
    if box.width < 0 < box.height {
      WholeBelowOne(Truncated(image.width, box.height, image.height), image.width * box.height, image.height);
    } else if box.height < 0 < box.width {
      WholeBelowOne(Truncated(image.height, box.width, image.width), image.height * box.width, image.width);
    }
  }

  lemma WholeBelowOne(x: int, n: int, d: int)
    requires d > 0 && n >= 0 && Whole(x, n, d)
    ensures x >= 0 && (x == 0 ==> n < d)
  {
    LessByProduct(0, x + 1, d);
  }

  /** Without keeping the ratio, or with no side to keep it to, each side is the box's if the box has one
      and the image's own otherwise. */
  lemma FreeFit(image: Size, box: Box)
    requires Positive(image) && (!box.preserve || (box.width <= 0 && box.height <= 0))
    ensures Fit(image, box).width == if box.width > 0 then box.width else image.width
    ensures Fit(image, box).height == if box.height > 0 then box.height else image.height
  {}
}
