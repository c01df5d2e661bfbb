/**
 * Screen geometry of a button: absolute points and relative vectors, as the
 * cgmath types Point2 and Vector2. Coordinates are exact reals; the f32
 * rounding of the implementation is not modelled.
 */
module Geometry {

  /** An absolute position in screen coordinates. */
  datatype Point = Point(x: real, y: real)

  /** A displacement or a size. */
  datatype Vector = Vector(x: real, y: real)

  const Zero: Vector := Vector(0.0, 0.0)

  /** `point + vector`: the point moved by `d`. */
  function Translate(p: Point, d: Vector): Point
  {
    Point(p.x + d.x, p.y + d.y)
  }

  /** `vector + vector`, component-wise. */
  function Add(a: Vector, b: Vector): Vector
  {
    Vector(a.x + b.x, a.y + b.y)
  }

  /** The sum of a sequence of vectors, added from the first to the last. */
  function Sum(ds: seq<Vector>): Vector
  {
    if ds == [] then Zero else Add(Sum(ds[..|ds| - 1]), ds[|ds| - 1])
  }

  /**
   * The hit test of a button: `p` lies in the closed rectangle whose top-left
   * corner is `origin` and whose extent is `size` (all four edges included).
   */
  predicate Contains(origin: Point, size: Vector, p: Point)
  {
    && origin.x <= p.x && p.x <= origin.x + size.x
    && origin.y <= p.y && p.y <= origin.y + size.y
  }
}
