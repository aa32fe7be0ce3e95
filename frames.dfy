/** Values shared by every script: depth frames, distances and colours. */
module Frames {

  datatype Option<T> = None | Some(value: T)

  /** A distance as the scripts compare it: a finite reading in metres, or
      Python's `float('inf')`, which stands for "no valid sample". */
  datatype Distance = Finite(metres: real) | Infinity {

    /** `self < t` for a finite threshold `t`; infinity is below no threshold. */
    predicate Below(t: real) {
      Finite? && metres < t
    }

    /** `d < self`; every finite reading is below infinity. */
    predicate Above(d: real) {
      Infinity? || d < metres
    }
  }

  /** One depth frame: `rows[y][x]` is `get_distance(x, y)` in metres, with
      0 meaning "no return". */
  datatype Frame = Frame(width: nat, height: nat, rows: seq<seq<real>>) {

    predicate Valid() {
      |rows| == height && forall y :: 0 <= y < height ==> |rows[y]| == width
    }

    predicate InBounds(x: int, y: int) {
      0 <= x < width && 0 <= y < height
    }

    function At(x: nat, y: nat): real
      requires Valid() && InBounds(x, y)
    {
      rows[y][x]
    }
  }

  /** A pixel position in image coordinates (x to the right, y down). */
  datatype Pos = Pos(x: nat, y: nat)

  /** An OpenCV colour, in blue-green-red order. */
  datatype Colour = Colour(b: int, g: int, r: int)

  const BLACK := Colour(0, 0, 0)
  const RED := Colour(0, 0, 255)
  const YELLOW := Colour(0, 255, 255)
  const GREEN := Colour(0, 255, 0)
}
