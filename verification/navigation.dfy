/**
 * The integer side of GLView: the cyclic model index, the multi-view
 * quadrants, the step count of a wheel event and the window-zoom ratio.
 * Widget sizes are non-negative; pixel positions may lie anywhere.
 */
module Navigation {
  import opened Wrappers

  // ---------------------------------------------------------------------------
  // The model index

  /**
   * GLView::changeModel. The one-based index steps forward or back and is
   * wrapped into [1, count]: past the end it becomes 1, below 1 it becomes
   * count.
   */
  function ChangeModel(index: int, count: int, forward: bool): (r: int)
    ensures 1 <= count && 1 <= index <= count ==> 1 <= r <= count
    ensures 1 <= count && 1 <= index <= count && forward ==> r == index % count + 1
    ensures 1 <= count && 1 <= index <= count && !forward ==> r == (index - 2) % count + 1
  {
    ModelIndexMod(index, count);
    var i := if forward then index + 1 else index - 1;
    var i := if i > count then 1 else i;
    if i < 1 then count else i
  }

  /** The remainders the wrap-around needs, for an index in range. */
  lemma ModelIndexMod(index: int, count: int)
    ensures 1 <= count && 1 <= index <= count ==>
      && index % count == (if index == count then 0 else index)
      && (index - 2) % count == (if index == 1 then count - 1 else index - 2)
  {
    if 1 <= count && 1 <= index <= count {
      if index == count {
        ModUnique(index, count, 1, 0);
      } else {
        ModUnique(index, count, 0, index);
      }
      if index == 1 {
        ModUnique(-1, count, -1, count - 1);
      } else {
        ModUnique(index - 2, count, 0, index - 2);
      }
    }
  }

  /** Forward from the last model gives the first, and back from the first gives the last. */
  lemma ChangeModelWraps(count: int)
    requires 1 <= count
    ensures ChangeModel(count, count, true) == 1
    ensures ChangeModel(1, count, false) == count
  {
  }

  /** A step forward and a step back, in either order, come back to the same model. */
  lemma ChangeModelRoundTrip(index: int, count: int)
    requires 1 <= count && 1 <= index <= count
    ensures ChangeModel(ChangeModel(index, count, true), count, false) == index
    ensures ChangeModel(ChangeModel(index, count, false), count, true) == index
  {
  }

  /** k steps forward. */
  function ForwardSteps(index: int, count: int, k: nat): int {
    if k == 0 then index else ChangeModel(ForwardSteps(index, count, k - 1), count, true)
  }

  /** k steps forward advance the index by k modulo the number of models. */
  lemma {:induction false} ForwardStepsModular(index: int, count: int, k: nat)
    requires 1 <= count && 1 <= index <= count
    ensures ForwardSteps(index, count, k) == (index - 1 + k) % count + 1
  {
    if k > 0 {
      ForwardStepsModular(index, count, k - 1);
      var j := (index - 1 + k - 1) % count;
      assert ForwardSteps(index, count, k) == (j + 1) % count + 1;
      ModSucc(index - 1 + k - 1, count);
    }
  }

  lemma ModSucc(a: int, n: int)
    requires 1 <= n
    ensures (a % n + 1) % n == (a + 1) % n
  {
    var q, m := a / n, a % n;
    assert a == q * n + m;
    if m + 1 == n {
      ModUnique(a + 1, n, q + 1, 0);
      ModUnique(m + 1, n, 1, 0);
    } else {
      ModUnique(a + 1, n, q, m + 1);
      ModUnique(m + 1, n, 0, m + 1);
    }
  }

  /** Quotient and remainder are unique. */
  lemma ModUnique(a: int, n: int, q: int, m: int)
    requires 0 < n && 0 <= m < n && a == q * n + m
    ensures a / n == q && a % n == m
  {
    var q0, m0 := a / n, a % n;
    assert a == q0 * n + m0;
    assert (q - q0) * n == m0 - m by {
      MulSub(q, q0, n);
    }
    ZeroFactor(q - q0, n);
  }

  lemma MulSub(a: int, b: int, n: int)
    ensures (a - b) * n == a * n - b * n
  {
  }

  /** A multiple of n strictly between -n and n is zero. */
  lemma ZeroFactor(k: int, n: int)
    requires 0 < n && -n < k * n < n
    ensures k == 0
  {
    if k >= 1 {
      MulMono(1, k, n);
    } else if k <= -1 {
      MulMono(k, -1, n);
    }
  }

  /** Multiplying by a non-negative factor keeps the order. */
  lemma MulMono(a: int, b: int, n: int)
    requires a <= b && 0 <= n
    ensures a * n <= b * n
  {
    MulSub(b, a, n);
    assert 0 <= (b - a) * n;
  }

  /** Cycling through all count models comes back to the start. */
  lemma ForwardFullCycle(index: int, count: int)
    requires 1 <= count && 1 <= index <= count
    ensures ForwardSteps(index, count, count) == index
  {
    ForwardStepsModular(index, count, count);
    ModUnique(index - 1 + count, count, 1, index - 1);
  }

  // ---------------------------------------------------------------------------
  // Rectangles

  datatype Point = Point(x: int, y: int)

  /** A QRect by its top-left corner and size. */
  datatype Rect = Rect(x: int, y: int, width: int, height: int)

  /** A default-constructed QRect: the corners (0, 0) and (-1, -1), so nothing inside. */
  const EmptyRect := Rect(0, 0, 0, 0)

  function IntAbs(a: int): nat {
    if a < 0 then -a else a
  }

  /** C++ integer division, which truncates toward zero. */
  function TruncDiv(a: int, b: int): (q: int)
    requires b != 0
    ensures 0 < b ==> (0 <= a ==> q * b <= a < (q + 1) * b) && (a < 0 ==> (q - 1) * b < a <= q * b)
    ensures 0 < b && 0 <= a ==> q == a / b
    ensures IntAbs(q) == IntAbs(a) / IntAbs(b)
    ensures 0 < q ==> (0 < a) == (0 < b)
    ensures q < 0 ==> (0 < a) != (0 < b)
  {
    var k := IntAbs(a) / IntAbs(b);
    DivBracket(IntAbs(a), IntAbs(b));
    if (0 <= a) == (0 < b) then k else -k
  }

  /** Euclidean division of naturals brackets the dividend between multiples of the divisor. */
  lemma DivBracket(n: nat, d: nat)
    requires 0 < d
    ensures (n / d) * d <= n < (n / d) * d + d
    ensures 0 <= n / d && (n == 0 ==> n / d == 0)
  {
  }

  /** QRect::center: the midpoint of the first and last pixel, halved toward zero. */
  function Center(r: Rect): (c: Point)
    ensures 0 <= r.x + r.x + r.width - 1 ==> c.x == (r.x + r.x + r.width - 1) / 2
    ensures 0 <= r.y + r.y + r.height - 1 ==> c.y == (r.y + r.y + r.height - 1) / 2
    ensures var sx := r.x + r.x + r.width - 1;
      if 0 <= sx then 2 * c.x <= sx <= 2 * c.x + 1 else 2 * c.x - 1 <= sx <= 2 * c.x
    ensures var sy := r.y + r.y + r.height - 1;
      if 0 <= sy then 2 * c.y <= sy <= 2 * c.y + 1 else 2 * c.y - 1 <= sy <= 2 * c.y
  {
    Point(TruncDiv(r.x + (r.x + r.width - 1), 2), TruncDiv(r.y + (r.y + r.height - 1), 2))
  }

  /** QRect::contains for a pixel: the pixel lies between the first and the last column and row. */
  predicate Contains(r: Rect, p: Point) {
    r.x <= p.x <= r.x + r.width - 1 && r.y <= p.y <= r.y + r.height - 1
  }

  /** The empty rectangle is centred on the origin. */
  lemma EmptyRectCenter()
    ensures Center(EmptyRect) == Point(0, 0)
    ensures forall p: Point :: !Contains(EmptyRect, p)
  {
  }

  // ---------------------------------------------------------------------------
  // Multi-view quadrants

  /**
   * GLView::getClientRectFromPoint, in window coordinates (y down). In
   * multi-view each of four tests picks a quadrant; a pixel on a midline
   * passes none of them and gets the empty rectangle.
   */
  function ClientRect(multiView: bool, w: nat, h: nat, p: Point): (r: Rect)
    ensures !multiView ==> r == Rect(0, 0, w, h)
    ensures multiView && (p.x == w / 2 || p.y == h / 2) ==> r == EmptyRect
    ensures multiView && p.x != w / 2 && p.y != h / 2 ==>
      && r.width == w / 2 && r.height == h / 2
      && r.x == (if p.x < w / 2 then 0 else w / 2)
      && r.y == (if p.y < h / 2 then 0 else h / 2)
  {
    if !multiView then Rect(0, 0, w, h)
    else
      var r := EmptyRect;
      var r := if p.x < w / 2 && p.y > h / 2 then Rect(0, h / 2, w / 2, h / 2) else r;
      var r := if p.x < w / 2 && p.y < h / 2 then Rect(0, 0, w / 2, h / 2) else r;
      var r := if p.x > w / 2 && p.y < h / 2 then Rect(w / 2, 0, w / 2, h / 2) else r;
      if p.x > w / 2 && p.y > h / 2 then Rect(w / 2, h / 2, w / 2, h / 2) else r
  }

  /**
   * GLView::getViewportFromPoint: the same quadrants in OpenGL viewport
   * coordinates, whose y axis points up.
   */
  function Viewport(multiView: bool, w: nat, h: nat, p: Point): (r: Rect)
    ensures !multiView ==> r == Rect(0, 0, w, h)
    ensures multiView && (p.x == w / 2 || p.y == h / 2) ==> r == EmptyRect
  {
    if !multiView then Rect(0, 0, w, h)
    else
      var r := EmptyRect;
      var r := if p.x < w / 2 && p.y > h / 2 then Rect(0, 0, w / 2, h / 2) else r;
      var r := if p.x < w / 2 && p.y < h / 2 then Rect(0, h / 2, w / 2, h / 2) else r;
      var r := if p.x > w / 2 && p.y < h / 2 then Rect(w / 2, h / 2, w / 2, h / 2) else r;
      if p.x > w / 2 && p.y > h / 2 then Rect(w / 2, 0, w / 2, h / 2) else r
  }

  /**
   * The viewport is the client rectangle mirrored top to bottom: the same
   * column and size, with the row flipped within the window.
   */
  lemma ViewportMirrorsClientRect(multiView: bool, w: nat, h: nat, p: Point)
    ensures var c := ClientRect(multiView, w, h, p);
      var v := Viewport(multiView, w, h, p);
      && v.x == c.x && v.width == c.width && v.height == c.height
      && (multiView && p.x != w / 2 && p.y != h / 2 ==> v.y == h / 2 - c.y)
      && (!multiView || p.x == w / 2 || p.y == h / 2 ==> v == c)
  {
  }

  /**
   * At most one quadrant test holds for any pixel, so the order of the four
   * assignments does not matter.
   */
  lemma QuadrantTestsExclusive(w: nat, h: nat, p: Point)
    ensures var tests := [p.x < w / 2 && p.y > h / 2, p.x < w / 2 && p.y < h / 2,
                          p.x > w / 2 && p.y < h / 2, p.x > w / 2 && p.y > h / 2];
      forall i, j :: 0 <= i < j < 4 ==> !(tests[i] && tests[j])
  {
  }

  /** With an even width and height, a pixel of the window off the midlines lies in its own quadrant. */
  lemma ClientRectContainsPixel(w: nat, h: nat, p: Point)
    requires w % 2 == 0 && h % 2 == 0
    requires 0 <= p.x < w && 0 <= p.y < h && p.x != w / 2 && p.y != h / 2
    ensures Contains(ClientRect(true, w, h, p), p)
  {
  }

  /** With an odd width the last column belongs to no quadrant. */
  lemma OddWidthMissesLastColumn(w: nat, h: nat, y: int)
    requires w % 2 == 1 && 3 <= w && y != h / 2
    ensures !Contains(ClientRect(true, w, h, Point(w - 1, y)), Point(w - 1, y))
  {
  }

  // ---------------------------------------------------------------------------
  // Wheel steps

  /**
   * qRound in Qt 5: the nearest integer to n / d, with halves rounded up.
   */
  function RoundDiv(n: int, d: int): (r: int)
    requires 0 < d
    ensures 2 * d * r <= 2 * n + d < 2 * d * (r + 1)
  {
    (2 * n + d) / (2 * d)
  }

  /**
   * The whole steps of a wheel event: the vertical angle delta, in eighths
   * of a degree, is rounded to degrees and then to 15-degree steps.
   */
  function WheelSteps(angleDeltaY: int): (steps: int)
    ensures 0 <= angleDeltaY ==> 0 <= steps
    ensures angleDeltaY < 0 ==> steps <= 0
  {
    RoundDiv(RoundDiv(angleDeltaY, 8), 15)
  }

  /** A standard notch reports 120 eighths of a degree, so k notches are k steps. */
  lemma WheelStepsOfNotches(k: int)
    ensures WheelSteps(120 * k) == k
  {
    assert RoundDiv(120 * k, 8) == 15 * k;
    assert RoundDiv(15 * k, 15) == k;
  }

  /** A delta below half a notch, either way, makes no step at all. */
  lemma WheelStepsZero(angleDeltaY: int)
    ensures WheelSteps(angleDeltaY) == 0 <==> -60 <= angleDeltaY < 60
  {
    var degrees := RoundDiv(angleDeltaY, 8);
    assert -7 <= degrees <= 7 <==> -60 <= angleDeltaY < 60;
    assert RoundDiv(degrees, 15) == 0 <==> -7 <= degrees <= 7;
  }

  // ---------------------------------------------------------------------------
  // Window-zoom ratio

  datatype ZoomError = ZeroSizedRubberBand

  /**
   * The ratio part of GLView::endWindowZoom: the client width and height are
   * divided by the rubber band's with integer division, and the smaller
   * quotient is kept.
   */
  function ZoomRatio(clientW: int, clientH: int, zoomW: int, zoomH: int): (r: Result<int, ZoomError>)
    ensures r.Err? <==> zoomW == 0 || zoomH == 0
    ensures r.Ok? ==> r.value == Min(TruncDiv(clientW, zoomW), TruncDiv(clientH, zoomH))
  {
    if zoomW == 0 || zoomH == 0 then Err(ZeroSizedRubberBand)
    else
      var widthRatio := TruncDiv(clientW, zoomW);
      var heightRatio := TruncDiv(clientH, zoomH);
      Ok(if heightRatio < widthRatio then heightRatio else widthRatio)
  }

  function Min(a: int, b: int): int {
    if a <= b then a else b
  }

  /**
   * For a rubber band of positive size inside a non-negative client area,
   * the ratio is the largest whole factor by which the band can be scaled
   * up and still fit the client area.
   */
  lemma ZoomRatioLargestFit(clientW: int, clientH: int, zoomW: int, zoomH: int)
    requires 0 <= clientW && 0 <= clientH && 0 < zoomW && 0 < zoomH
    ensures var r := ZoomRatio(clientW, clientH, zoomW, zoomH);
      && r.Ok? && 0 <= r.value
      && r.value * zoomW <= clientW && r.value * zoomH <= clientH
      && ((r.value + 1) * zoomW > clientW || (r.value + 1) * zoomH > clientH)
  {
    var wr, hr := clientW / zoomW, clientH / zoomH;
    var k := Min(wr, hr);
    QuotientBounds(clientW, zoomW);
    QuotientBounds(clientH, zoomH);
    MulMono(k, wr, zoomW);
    MulMono(k, hr, zoomH);
  }

  /** The quotient of non-negative by positive is the largest multiple that fits. */
  lemma QuotientBounds(a: int, b: int)
    requires 0 <= a && 0 < b
    ensures 0 <= a / b && (a / b) * b <= a < (a / b + 1) * b
  {
    assert a == (a / b) * b + a % b;
    assert (a / b + 1) * b == (a / b) * b + b;
  }

  /** 800 by 600 over 300 by 200 gives 2: the 2.67 across is truncated before the minimum is taken. */
  lemma ZoomRatioExample()
    ensures ZoomRatio(800, 600, 300, 200) == Ok(2)
  {
  }
}
