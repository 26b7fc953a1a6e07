/** egui's Pos2, Vec2 and Rect over the reals, with the named points of a
    rectangle that the snap engine uses. */
module Geometry {

  /** A point (Pos2) or a vector (Vec2); the source mixes the two freely. */
  datatype Pos = Pos(x: real, y: real)

  function Add(a: Pos, b: Pos): Pos { Pos(a.x + b.x, a.y + b.y) }

  function Sub(a: Pos, b: Pos): Pos { Pos(a.x - b.x, a.y - b.y) }

  function Mul(a: Pos, k: real): Pos { Pos(a.x * k, a.y * k) }

  function Div(a: Pos, k: real): Pos
    requires k != 0.0
  {
    Pos(a.x / k, a.y / k)
  }

  /** Squared Euclidean distance; Pos2::distance is its square root, and
      comparing squares orders points the same way. */
  function DistanceSquared(a: Pos, b: Pos): real
  {
    (a.x - b.x) * (a.x - b.x) + (a.y - b.y) * (a.y - b.y)
  }

  /** Rect::from([min, max]): the two corners as given, not normalised. */
  datatype Rect = Rect(min: Pos, max: Pos)

  function Width(r: Rect): real { r.max.x - r.min.x }

  function Height(r: Rect): real { r.max.y - r.min.y }

  function CenterX(r: Rect): real { (r.min.x + r.max.x) / 2.0 }

  function CenterY(r: Rect): real { (r.min.y + r.max.y) / 2.0 }

  /** The two axes of the plane. */
  datatype Axis = AxisX | AxisY

  function Coord(p: Pos, a: Axis): real
  {
    match a
    case AxisX => p.x
    case AxisY => p.y
  }
}
