/** The fixed configuration of the game: canvas size, ball, bricks, paddle and speed.
    The lengths are integers in the game, but they are reals here because the
    canvas coordinates they are compared with are. */
module Config {

  const BallDiameter: real := 10.0
  const CanvasHeight: real := 500.0
  const CanvasWidth: real := 500.0
  const BrickLayers: nat := 9
  const BricksPerLayer: nat := 10
  const BrickHeight: real := 20.0
  const PaddleWidth: real := 100.0
  const PaddleHeight: real := 5.0
  /** The intended norm of the velocity vector. */
  const Speed: real := 6.0
  /** Width of one brick: the canvas width shared out over one layer. */
  const BrickWidth: real := CanvasWidth / BricksPerLayer as real
}

/** Axis-aligned boxes as the canvas reports them, and the ball's velocity. */
module Geometry {
  import opened Config

  function Abs(x: real): (r: real)
    ensures r >= 0.0 && (r == x || r == -x)
  {
    if x < 0.0 then -x else x
  }

  /** The coordinates (x1, y1, x2, y2) of a canvas item: top-left and bottom-right
      corners, with y growing downwards. */
  datatype Box = Box(x1: real, y1: real, x2: real, y2: real) {

    function Width(): real { x2 - x1 }

    function Height(): real { y2 - y1 }

    function CentreX(): real { (x1 + x2) / 2.0 }

    /** The box after the canvas moves its item by (dx, dy). */
    function Moved(dx: real, dy: real): (b: Box)
      ensures b.Width() == Width() && b.Height() == Height()
      ensures b.x1 - x1 == dx && b.y1 - y1 == dy
    {
      Box(x1 + dx, y1 + dy, x2 + dx, y2 + dy)
    }
  }

  /** Two closed boxes share at least one point. */
  predicate Intersects(a: Box, b: Box) {
    a.x1 <= b.x2 && b.x1 <= a.x2 && a.y1 <= b.y2 && b.y1 <= a.y2
  }

  /** The bounding box of the ball: a square whose side is the ball's diameter. */
  predicate IsBallBox(b: Box) {
    b.Width() == BallDiameter && b.Height() == BallDiameter
  }

  /** The per-frame displacement of the ball. */
  datatype Velocity = Velocity(dx: real, dy: real)
}
