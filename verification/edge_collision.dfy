/** The walls of the canvas: the side walls reflect the ball, the bottom loses the
    game and the top wins it. Each test waits until the ball has overshot its
    wall by one diameter. */
module EdgeCollision {
  import opened Config
  import opened Geometry

  /** Values of the end flag. */
  const Lost: int := -1
  const Ongoing: int := 0
  const Won: int := 1

  predicate HitRight(ball: Box) {
    ball.x1 + BallDiameter > CanvasWidth + BallDiameter
  }

  predicate HitLeft(ball: Box) {
    ball.x1 < 0.0 - BallDiameter
  }

  predicate HitBottom(ball: Box) {
    ball.y1 + BallDiameter > CanvasHeight + BallDiameter
  }

  predicate HitTop(ball: Box) {
    ball.y1 < 0.0 - BallDiameter
  }

  /** The new horizontal displacement and the end flag of this frame. */
  datatype EdgeOutcome = EdgeOutcome(dx: real, endFlag: int)

  /** Reflects `dx` off the side walls and reports a loss before a win. */
  function EdgeCollisionCheck(dx: real, ball: Box): (r: EdgeOutcome)
    ensures r.endFlag == Lost || r.endFlag == Ongoing || r.endFlag == Won
    ensures r.endFlag == Lost <==> HitBottom(ball)
    ensures r.endFlag == Won <==> HitTop(ball) && !HitBottom(ball)
    ensures r.dx == dx || r.dx == -dx
    ensures (HitLeft(ball) || HitRight(ball)) && dx != 0.0 <==> r.dx != dx
  {
    var dx' := if HitLeft(ball) || HitRight(ball) then dx * -1.0 else dx;
    var flag := if HitBottom(ball) then Lost else if HitTop(ball) then Won else Ongoing;
    EdgeOutcome(dx', flag)
  }

  /** On a canvas of positive size the ball cannot be past both side walls at
      once, nor past both the top and the bottom. */
  lemma HitsExclusive(ball: Box)
    ensures !(HitLeft(ball) && HitRight(ball))
    ensures !(HitTop(ball) && HitBottom(ball))
  {
  }

  /** With the one-diameter tolerance a wall counts as hit exactly when the ball's
      box has left the canvas entirely on that axis. */
  lemma HitMeansOutside(ball: Box)
    requires IsBallBox(ball)
    ensures HitLeft(ball) || HitRight(ball) <==> ball.x2 < 0.0 || CanvasWidth < ball.x1
    ensures HitTop(ball) || HitBottom(ball) <==> ball.y2 < 0.0 || CanvasHeight < ball.y1
  {
  }

  /** A ball that still touches the canvas keeps its direction and the game goes on. */
  lemma TouchingCanvasChangesNothing(dx: real, ball: Box)
    requires IsBallBox(ball)
    requires Intersects(ball, Box(0.0, 0.0, CanvasWidth, CanvasHeight))
    ensures EdgeCollisionCheck(dx, ball) == EdgeOutcome(dx, Ongoing)
  {
    HitMeansOutside(ball);
  }

  /** A ball moving right at full speed whose right edge is more than one diameter
      past the right wall comes back at full speed. */
  lemma RightWallReflection(ball: Box)
    requires ball.x1 + BallDiameter > CanvasWidth + BallDiameter
    ensures EdgeCollisionCheck(Speed, ball).dx == -Speed
  {
  }
}
