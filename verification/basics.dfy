/** What every component shares: optional values, comparisons, and points of the plane. */
module Basics {

  datatype Option<T> = None | Some(value: T)

  function Abs(v: real): real { if v < 0.0 then -v else v }
  function Min(a: real, b: real): real { if b < a then b else a }
  function Max(a: real, b: real): real { if a < b then b else a }
  function Clamp(v: real, lo: real, hi: real): real { if v < lo then lo else if v > hi then hi else v }

  function Square(v: real): real { v * v }

  datatype Point = Point(x: real, y: real)

  function Dist2(p: Point, q: Point): real { Square(p.x - q.x) + Square(p.y - q.y) }

  /** The square root, by its defining equation. */
  ghost predicate IsRoot(root: real -> real) {
    forall v: real {:trigger root(v)} :: v >= 0.0 ==> root(v) >= 0.0 && root(v) * root(v) == v
  }
}
