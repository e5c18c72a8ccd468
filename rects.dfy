/**
 * Axis-aligned integer rectangles, as android.graphics.Rect holds them: four edges,
 * width = right - left and height = bottom - top (nothing forces them to be positive).
 */
module Rects {

  /** The value of a rectangle: its four edges. */
  datatype Box = Box(left: int, top: int, right: int, bottom: int)

  function Width(b: Box): int { b.right - b.left }

  function Height(b: Box): int { b.bottom - b.top }

  /** A rectangle object that the divider rewrites in place. */
  class Rect {
    var left: int
    var top: int
    var right: int
    var bottom: int

    function Value(): Box
      reads this
    {
      Box(left, top, right, bottom)
    }

    constructor ()
      ensures Value() == Box(0, 0, 0, 0)
    {
      left, top, right, bottom := 0, 0, 0, 0;
    }

    /** Rect.set(left, top, right, bottom) */
    method Set(l: int, t: int, r: int, b: int)
      modifies this
      ensures Value() == Box(l, t, r, b)
    {
      left, top, right, bottom := l, t, r, b;
    }

    /** Rect.set(Rect): copies the edges of a box (the value of another rect). */
    method SetFrom(b: Box)
      modifies this
      ensures Value() == b
    {
      left, top, right, bottom := b.left, b.top, b.right, b.bottom;
    }

    /** Rect.equals: the same four edges. */
    method Equals(other: Rect) returns (same: bool)
      ensures same <==> Value() == other.Value()
    {
      same := left == other.left && top == other.top && right == other.right && bottom == other.bottom;
    }
  }
}
