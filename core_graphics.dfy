/**
  Plain-number stand-ins for the CoreGraphics values the drawer controller
  works with. CGFloat is modelled as `real`, so every comparison is exact.
 */
module CoreGraphics {

  /** Swift's Optional: `Nil` is `nil`. */
  datatype Optional<T> = Nil | Some(value: T)

  datatype Point = Point(x: real, y: real)
  datatype Size = Size(width: real, height: real)
  datatype Rect = Rect(origin: Point, size: Size)

  const ZeroPoint := Point(0.0, 0.0)
  const ZeroRect := Rect(ZeroPoint, Size(0.0, 0.0))

  function MinX(r: Rect): real {
    if r.size.width >= 0.0 then r.origin.x else r.origin.x + r.size.width
  }

  function MaxX(r: Rect): real {
    if r.size.width >= 0.0 then r.origin.x + r.size.width else r.origin.x
  }

  function MinY(r: Rect): real {
    if r.size.height >= 0.0 then r.origin.y else r.origin.y + r.size.height
  }

  function MaxY(r: Rect): real {
    if r.size.height >= 0.0 then r.origin.y + r.size.height else r.origin.y
  }

  /** CGRect.contains(_:): the half-open box [minX, maxX) x [minY, maxY). */
  predicate Contains(r: Rect, p: Point) {
    MinX(r) <= p.x < MaxX(r) && MinY(r) <= p.y < MaxY(r)
  }

  /** The bounds of a view whose bounds origin has not been shifted. */
  function Bounds(frame: Rect): Rect {
    Rect(ZeroPoint, frame.size)
  }
}
