/** Integer geometry used by popup placement: offsets, sizes, bounds and the
    layout direction. These live outside the popup code in the original
    library; here they are plain records with exact (unbounded) arithmetic. */
module Geometry {

  /** A point or a translation, in pixels. */
  datatype IntOffset = IntOffset(x: int, y: int)
  {
    /** Component-wise sum, the meaning of `+` and `+=` on offsets. */
    function Plus(other: IntOffset): IntOffset {
      IntOffset(x + other.x, y + other.y)
    }

    /** Component-wise difference, the meaning of `-` and `-=` on offsets. */
    function Minus(other: IntOffset): IntOffset {
      IntOffset(x - other.x, y - other.y)
    }
  }

  /** A measured width and height. */
  datatype IntSize = IntSize(width: int, height: int)

  /** An axis-aligned rectangle given by its four edges. */
  datatype IntBounds = IntBounds(left: int, top: int, right: int, bottom: int)
  {
    function Width(): int { right - left }

    function Height(): int { bottom - top }

    function TopLeft(): IntOffset { IntOffset(left, top) }

    /** The same rectangle moved by (dx, dy); its width and height are kept. */
    function Translate(dx: int, dy: int): IntBounds {
      IntBounds(left + dx, top + dy, right + dx, bottom + dy)
    }
  }

  /** Reading order of the parent layout. */
  datatype LayoutDirection = Ltr | Rtl
}
