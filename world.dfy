/** The static world of the fence game: a 30 by 20 grid in world units with a
    start point, a target point and a fence made of vertical segments. World y
    grows upwards. Coordinates are exact reals. */
module World {

  datatype Option<T> = None | Some(value: T)

  /** A position or a velocity in world units. */
  datatype Vec = Vec(x: real, y: real)

  /** One fence obstacle, stored by its two endpoints. */
  datatype Segment = Segment(start: Vec, end: Vec)

  /** Width and height of the world grid. */
  const Width: real := 30.0
  const Height: real := 20.0

  /** Where every launch starts. */
  const Start: Vec := Vec(0.0, 0.0)

  /** The centre of the target. */
  const Target: Vec := Vec(30.0, 0.0)

  /** The fence at x = 20, with a gap between y = 13 and y = 16. */
  const Fence: seq<Segment> :=
    [ Segment(Vec(20.0, 0.0), Vec(20.0, 13.0)),
      Segment(Vec(20.0, 16.0), Vec(20.0, 20.0)) ]

  /** A point of the closed rectangle [0, Width] x [0, Height]. */
  predicate InWorld(p: Vec)
  {
    0.0 <= p.x <= Width && 0.0 <= p.y <= Height
  }
}
