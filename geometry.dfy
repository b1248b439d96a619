// Integer semantics of Java, pixel and unit rectangles, display orientation
// and the ellipse that masks a detected rectangle.

module Wrappers {
  datatype Option<+T> = None | Some(value: T)
}

/** Java's `/` and `%` on `int`: both round toward zero (JLS 15.17.2-3),
    whereas Dafny's are Euclidean. Only positive divisors occur in the model. */
module JavaInt {

  function Div(a: int, b: int): int
    requires b > 0
  {
    if a >= 0 then a / b else -((-a) / b)
  }

  /** The remainder takes the sign of the dividend and is smaller than the divisor. */
  function Rem(a: int, b: int): (r: int)
    requires b > 0
    ensures -b < r < b
    ensures a >= 0 ==> r >= 0
    ensures a < 0 ==> r <= 0
  {
    if a >= 0 then a % b else -((-a) % b)
  }

  /** Quotient and remainder recompose the dividend (JLS 15.17.3). */
  lemma DivRemIdentity(a: int, b: int)
    requires b > 0
    ensures Div(a, b) * b + Rem(a, b) == a
  {
    if a < 0 {
      var e := -a;
      assert (e / b) * b + e % b == e;
      assert Div(a, b) * b == -((e / b) * b);
    }
  }

  /** The two remainders differ in sign, but agree on being zero. */
  lemma RemZeroIffEuclideanZero(a: int, b: int)
    requires b > 0
    ensures Rem(a, b) == 0 <==> a % b == 0
  {
    if a < 0 {
      var e := -a;
      assert e == (e / b) * b + e % b;
      assert a == (a / b) * b + a % b;
      if e % b == 0 {
        assert a % b == (-(e / b) - a / b) * b;
        ZeroMultiple(-(e / b) - a / b, b);
      }
      if a % b == 0 {
        assert e % b == (-(a / b) - e / b) * b;
        ZeroMultiple(-(a / b) - e / b, b);
      }
    }
  }

  lemma ZeroMultiple(k: int, b: int)
    requires b > 0 && -b < k * b < b
    ensures k == 0
  {
  }

  /** The remainder the preview class computes for display orientation 0. */
  lemma TruncatedRemainderOfMinusNinety()
    ensures Rem(0 - 90, 180) == -90
    ensures (0 - 90) % 180 == 90
  {
  }
}

module Geometry {
  import JavaInt

  /** A strictly positive frame dimension, as a camera reports it. */
  type Dimension = n: int | n > 0 witness 1

  /** An `org.opencv.core.Rect` as a detector returns it, in pixels. */
  datatype PixelRect = PixelRect(x: int, y: int, width: int, height: int)

  /** `TARGET_FACE` (0) and `TARGET_BODY` (1). */
  datatype TargetKind = Face | Body

  /** An `android.graphics.RectF` whose coordinates are fractions of the frame. */
  datatype UnitRect = UnitRect(left: real, top: real, right: real, bottom: real)

  datatype Target = Target(kind: TargetKind, box: UnitRect)

  /** A rectangle in viewport pixels, as the overlay draws it. */
  datatype ViewRect = ViewRect(left: real, top: real, right: real, bottom: real)

  predicate WithinUnitSquare(u: UnitRect) {
    0.0 <= u.left <= u.right <= 1.0 && 0.0 <= u.top <= u.bottom <= 1.0
  }

  predicate WithinFrame(r: PixelRect, w: int, h: int) {
    0 <= r.x && 0 <= r.width && r.x + r.width <= w &&
    0 <= r.y && 0 <= r.height && r.y + r.height <= h
  }

  // ---------------------------------------------------------------------
  // Orientation

  /** The preview swaps width and height when `(orientation - 90) % 180 == 0`
      with Java's truncated remainder. */
  predicate SwapsDimensions(orientation: int) {
    JavaInt.Rem(orientation - 90, 180) == 0
  }

  /** The logical (width, height) of a frame after orientation correction. */
  function LogicalSize(width: Dimension, height: Dimension, orientation: int): (Dimension, Dimension) {
    if SwapsDimensions(orientation) then (height, width) else (width, height)
  }

  /** Testing with Java's remainder or with Dafny's gives the same answer. */
  lemma SwapsIffEuclideanTest(orientation: int)
    ensures SwapsDimensions(orientation) <==> (orientation - 90) % 180 == 0
  {
    JavaInt.RemZeroIffEuclideanZero(orientation - 90, 180);
  }

  /** Of the four display orientations, exactly 90 and 270 swap. */
  lemma SwapsAtOddQuarterTurns()
    ensures !SwapsDimensions(0) && SwapsDimensions(90)
    ensures !SwapsDimensions(180) && SwapsDimensions(270)
  {
    assert JavaInt.Rem(-90, 180) == -90;
    assert JavaInt.Rem(90, 180) == 90;
  }

  lemma LogicalSizeTwiceRestores(width: Dimension, height: Dimension, orientation: int)
    ensures var (w, h) := LogicalSize(width, height, orientation);
            LogicalSize(w, h, orientation) == (width, height)
  {
  }

  /** Applying the four orientation cases in turn gives back the original dimensions. */
  lemma FullTurnRestoresSize(width: Dimension, height: Dimension)
    ensures var (w1, h1) := LogicalSize(width, height, 0);
            var (w2, h2) := LogicalSize(w1, h1, 90);
            var (w3, h3) := LogicalSize(w2, h2, 180);
            LogicalSize(w3, h3, 270) == (width, height)
  {
    SwapsAtOddQuarterTurns();
  }

  // ---------------------------------------------------------------------
  // Unit rectangles

  /** `addTarget`: the pixel rectangle divided by the logical frame size. */
  function ToUnitRect(w: Dimension, h: Dimension, r: PixelRect): (u: UnitRect)
    ensures WithinFrame(r, w, h) ==> WithinUnitSquare(u)
  {
    var left := r.x as real / w as real;
    var top := r.y as real / h as real;
    var right := left + r.width as real / w as real;
    var bottom := top + r.height as real / h as real;
    UnitFractionBounds(r.x, r.width, w);
    UnitFractionBounds(r.y, r.height, h);
    UnitRect(left, top, right, bottom)
  }

  lemma UnitFractionBounds(p: int, extent: int, size: Dimension)
    ensures 0 <= p && 0 <= extent && p + extent <= size ==>
      0.0 <= p as real / size as real <= p as real / size as real + extent as real / size as real <= 1.0
  {
    var s := size as real;
    if 0 <= p && 0 <= extent && p + extent <= size {
      assert p as real / s + extent as real / s == (p + extent) as real / s;
      FractionInUnit(p as real, s);
      FractionInUnit((p + extent) as real, s);
      assert 0.0 <= extent as real / s;
    }
  }

  lemma FractionInUnit(n: real, d: real)
    requires d > 0.0 && 0.0 <= n <= d
    ensures 0.0 <= n / d <= 1.0
  {
    assert (n / d) * d == n;
  }

  /** The overlay scales a unit rectangle to viewport pixels. */
  function ScaleToView(width: real, height: real, u: UnitRect): ViewRect {
    ViewRect(width * u.left, height * u.top, width * u.right, height * u.bottom)
  }

  /** Scaling a unit rectangle back to the frame it came from recovers the pixel rectangle. */
  lemma UnitRectRoundTrip(w: Dimension, h: Dimension, r: PixelRect)
    ensures ScaleToView(w as real, h as real, ToUnitRect(w, h, r))
         == ViewRect(r.x as real, r.y as real, (r.x + r.width) as real, (r.y + r.height) as real)
  {
    var W, H := w as real, h as real;
    assert W * (r.x as real / W + r.width as real / W) == (r.x + r.width) as real;
    assert H * (r.y as real / H + r.height as real / H) == (r.y + r.height) as real;
  }

  /** Unit rectangles are NOT clamped: a detection reaching past the frame edge
      gives a right edge beyond 1. */
  lemma UnitRectIsNotClamped()
    ensures ToUnitRect(10, 10, PixelRect(5, 5, 10, 10)).right == 1.5
  {
  }

  /** A 50x50 face at (100, 100) in a 640x480 frame. */
  lemma LandscapeScenario()
    ensures ToUnitRect(640, 480, PixelRect(100, 100, 50, 50))
         == UnitRect(0.15625, 100.0 / 480.0, 0.234375, 0.3125)
  {
  }

  /** The same face when the logical size is swapped to 480x640. */
  lemma PortraitScenario()
    ensures ToUnitRect(480, 640, PixelRect(100, 100, 50, 50))
         == UnitRect(100.0 / 480.0, 0.15625, 0.3125, 0.234375)
  {
  }

  // ---------------------------------------------------------------------
  // Mask ellipses

  /** Centre (cx, cy) and semi-axes (ax, ay) of a filled ellipse. */
  datatype Ellipse = Ellipse(cx: int, cy: int, ax: int, ay: int)

  /** `addMask`: centre `(x + w/2, y + h/2)` and semi-axes `(w/2, h/2)` with
      Java integer division. For a non-negative extent the ellipse starts at the
      rectangle's edge and stops at most one pixel short of the opposite edge. */
  function MaskEllipse(r: PixelRect): (e: Ellipse)
    ensures r.width >= 0 ==> e.cx - e.ax == r.x && r.x + r.width - 1 <= e.cx + e.ax <= r.x + r.width
    ensures r.height >= 0 ==> e.cy - e.ay == r.y && r.y + r.height - 1 <= e.cy + e.ay <= r.y + r.height
  {
    var ax := JavaInt.Div(r.width, 2);
    var ay := JavaInt.Div(r.height, 2);
    Ellipse(r.x + ax, r.y + ay, ax, ay)
  }
}
