/** Screen geometry of script.js: the game container's box, the box around
    it in which the cursor is shown, and the clamp that keeps the cursor
    inside (`updateGameBounds`, `isInsideGameBounds`, `isInsideInnerBounds`,
    `constrainToGameBounds`). Coordinates are reals: JavaScript doubles
    without rounding. */
module Bounds {

  /** How far the cursor area reaches beyond the container on every side. */
  const BOUNDS_PADDING: real := 80.0

  /** How far the clamped cursor stays inside the cursor area. */
  const CURSOR_MARGIN: real := 25.0

  datatype Point = Point(x: real, y: real)

  /** `gameContainer.getBoundingClientRect()` */
  datatype Rect = Rect(left: real, top: real, right: real, bottom: real)

  predicate IsProper(rect: Rect) {
    rect.left <= rect.right && rect.top <= rect.bottom
  }

  /** `gameBounds`: the expanded cursor area and, as `inner`, the container itself. */
  datatype GameBounds = GameBounds(outer: Rect, inner: Rect)

  function UpdateGameBounds(rect: Rect): (b: GameBounds)
    ensures b.inner == rect
    ensures b.outer.left == rect.left - BOUNDS_PADDING && b.outer.right == rect.right + BOUNDS_PADDING
    ensures b.outer.top == rect.top - BOUNDS_PADDING && b.outer.bottom == rect.bottom + BOUNDS_PADDING
    ensures b.outer.right - b.outer.left == rect.right - rect.left + 2.0 * BOUNDS_PADDING
    ensures b.outer.bottom - b.outer.top == rect.bottom - rect.top + 2.0 * BOUNDS_PADDING
  {
    GameBounds(
      Rect(rect.left - BOUNDS_PADDING, rect.top - BOUNDS_PADDING,
           rect.right + BOUNDS_PADDING, rect.bottom + BOUNDS_PADDING),
      rect)
  }

  /** Both ends inclusive, as the `>=` and `<=` of script.js. */
  predicate Inside(rect: Rect, p: Point) {
    rect.left <= p.x <= rect.right && rect.top <= p.y <= rect.bottom
  }

  predicate IsInsideGameBounds(b: GameBounds, p: Point) {
    Inside(b.outer, p)
  }

  predicate IsInsideInnerBounds(b: GameBounds, p: Point) {
    Inside(b.inner, p)
  }

  function Max(a: real, b: real): real {
    if a >= b then a else b
  }

  function Min(a: real, b: real): real {
    if a <= b then a else b
  }

  /** `Math.max(lo, Math.min(hi, v))`: `lo` wins when the range is empty. */
  function Clamp(lo: real, hi: real, v: real): (r: real)
    ensures lo <= hi ==> lo <= r <= hi
    ensures lo <= v <= hi ==> r == v
    ensures v < lo ==> r == lo
    ensures lo <= hi && v > hi ==> r == hi
  {
    Max(lo, Min(hi, v))
  }

  function ConstrainToGameBounds(b: GameBounds, p: Point): (q: Point)
    ensures b.outer.left + CURSOR_MARGIN <= b.outer.right - CURSOR_MARGIN ==>
              b.outer.left + CURSOR_MARGIN <= q.x <= b.outer.right - CURSOR_MARGIN
    ensures b.outer.top + CURSOR_MARGIN <= b.outer.bottom - CURSOR_MARGIN ==>
              b.outer.top + CURSOR_MARGIN <= q.y <= b.outer.bottom - CURSOR_MARGIN
  {
    Point(Clamp(b.outer.left + CURSOR_MARGIN, b.outer.right - CURSOR_MARGIN, p.x),
          Clamp(b.outer.top + CURSOR_MARGIN, b.outer.bottom - CURSOR_MARGIN, p.y))
  }

  /** The container lies inside the cursor area, so a hand over the game is
      always also near it. */
  lemma InnerInsideOuter(rect: Rect, p: Point)
    ensures IsInsideInnerBounds(UpdateGameBounds(rect), p) ==> IsInsideGameBounds(UpdateGameBounds(rect), p)
  {
  }

  /** For any real container the clamped cursor lands inside the cursor area,
      at least 25 px from its edges, and a point already there is not moved. */
  lemma ClampedCursorInArea(rect: Rect, p: Point)
    requires IsProper(rect)
    ensures var b := UpdateGameBounds(rect);
            var q := ConstrainToGameBounds(b, p);
            b.outer.left + CURSOR_MARGIN <= q.x <= b.outer.right - CURSOR_MARGIN &&
            b.outer.top + CURSOR_MARGIN <= q.y <= b.outer.bottom - CURSOR_MARGIN &&
            IsInsideGameBounds(b, q) &&
            (IsInsideInnerBounds(b, p) ==> q == p)
  {
  }
}
