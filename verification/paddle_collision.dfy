/** The paddle: a rectangle centred on the mouse cursor at the bottom of the canvas,
    and the bounce law that turns the contact offset into a departure angle. */
module PaddleCollision {
  import opened Config
  import opened Geometry

  /** The paddle rectangle redrawn every frame around the cursor's x coordinate. */
  function PaddleBox(mouseX: real): (p: Box)
    ensures p.Width() == PaddleWidth && p.Height() == PaddleHeight
    ensures p.CentreX() == mouseX && p.y2 == CanvasHeight
  {
    Box(mouseX - PaddleWidth / 2.0, CanvasHeight - PaddleHeight, mouseX + PaddleWidth / 2.0, CanvasHeight)
  }

  /** Departure angle in degrees for a signed contact offset `dH`: 85 at the centre,
      falling linearly to 20 at either end of the paddle. */
  function BounceAngle(dH: real): (deg: real)
    ensures deg <= 85.0
    ensures Abs(dH) <= PaddleWidth / 2.0 ==> 20.0 <= deg
  {
    -65.0 / (PaddleWidth / 2.0) * Abs(dH) + 85.0
  }

  /** `sinDeg` and `cosDeg` stand for sine and cosine of an angle given in degrees;
      all the model assumes of them is that both are positive strictly between
      0 and 90 degrees. */
  ghost predicate TrigSigns(sinDeg: real -> real, cosDeg: real -> real) {
    forall a :: 0.0 < a < 90.0 ==> sinDeg(a) > 0.0 && cosDeg(a) > 0.0
  }

  /** Signed horizontal distance from the paddle's centre to the ball's centre. */
  function Offset(ball: Box, paddle: Box): real {
    ball.CentreX() - paddle.CentreX()
  }

  /** On contact the ball leaves at `BounceAngle` with speed `Speed`, to the side of
      the paddle it struck; at the exact centre `dx` is kept. Without contact the
      velocity is returned as it came. */
  function PaddleCollisionCheck(v: Velocity, paddle: Box, ball: Box, contact: bool,
                                sinDeg: real -> real, cosDeg: real -> real): (r: Velocity)
    ensures !contact ==> r == v
    ensures contact ==> r.dy == -Speed * sinDeg(BounceAngle(Offset(ball, paddle)))
    ensures contact && Offset(ball, paddle) < 0.0 ==>
      r.dx == -Speed * cosDeg(BounceAngle(Offset(ball, paddle)))
    ensures contact && Offset(ball, paddle) > 0.0 ==>
      r.dx == Speed * cosDeg(BounceAngle(Offset(ball, paddle)))
    ensures contact && Offset(ball, paddle) == 0.0 ==> r.dx == v.dx
  {
    if contact then
      var dH := Offset(ball, paddle);
      var angle := BounceAngle(dH);
      var dy := -Speed * sinDeg(angle);
      if dH < 0.0 then Velocity(-Speed * cosDeg(angle), dy)
      else if dH > 0.0 then Velocity(Speed * cosDeg(angle), dy)
      else Velocity(v.dx, dy)
    else v
  }

  /** The angle is 85 degrees at the centre and 20 degrees at either end. */
  lemma AngleEndpoints(dH: real)
    requires Abs(dH) == PaddleWidth / 2.0
    ensures BounceAngle(0.0) == 85.0
    ensures BounceAngle(dH) == 20.0
  {
  }

  /** The farther from the centre, the flatter the bounce, and conversely. */
  lemma AngleMonotone(a: real, b: real)
    ensures Abs(a) <= Abs(b) <==> BounceAngle(b) <= BounceAngle(a)
  {
  }

  /** A ball overlapping the paddle is at most half a paddle plus half a ball from
      its centre, so the angle stays above 13.5 degrees: a little below the 20
      degrees reached at the paddle's end, but still strictly between 0 and 90. */
  lemma {:induction false} ContactAngleBounds(ball: Box, paddle: Box)
    requires ball.Width() == BallDiameter && paddle.Width() == PaddleWidth
    requires Intersects(ball, paddle)
    ensures Abs(Offset(ball, paddle)) <= PaddleWidth / 2.0 + BallDiameter / 2.0
    ensures 13.5 <= BounceAngle(Offset(ball, paddle)) <= 85.0
  {
    var dH := Offset(ball, paddle);
    assert -55.0 <= dH <= 55.0;
    assert BounceAngle(dH) == -1.3 * Abs(dH) + 85.0;
  }

  /** A real contact always sends the ball upwards, to the left when it struck left
      of centre, to the right when it struck right of centre. */
  lemma BounceDirection(v: Velocity, paddle: Box, ball: Box, sinDeg: real -> real, cosDeg: real -> real)
    requires TrigSigns(sinDeg, cosDeg)
    requires ball.Width() == BallDiameter && paddle.Width() == PaddleWidth
    requires Intersects(ball, paddle)
    ensures var r := PaddleCollisionCheck(v, paddle, ball, true, sinDeg, cosDeg);
      && r.dy < 0.0
      && (Offset(ball, paddle) < 0.0 ==> r.dx < 0.0)
      && (Offset(ball, paddle) > 0.0 ==> r.dx > 0.0)
      && (Offset(ball, paddle) == 0.0 ==> r.dx == v.dx)
  {
    ContactAngleBounds(ball, paddle);
    var angle := BounceAngle(Offset(ball, paddle));
    assert sinDeg(angle) > 0.0 && cosDeg(angle) > 0.0;
  }

  /** The paddle lies along the bottom edge, so a ball whose top is above the
      midline cannot overlap it. */
  lemma NoPaddleAboveMidline(ball: Box, mouseX: real)
    requires IsBallBox(ball) && ball.y1 < CanvasHeight / 2.0
    ensures !Intersects(ball, PaddleBox(mouseX))
  {
  }

  /** A bounce off the exact centre leaves at 85 degrees; one off the right end
      leaves at 20 degrees to the right. */
  lemma CentreAndEdgeBounces(v: Velocity, paddle: Box, ball: Box, sinDeg: real -> real, cosDeg: real -> real)
    ensures Offset(ball, paddle) == 0.0 ==>
      PaddleCollisionCheck(v, paddle, ball, true, sinDeg, cosDeg) == Velocity(v.dx, -Speed * sinDeg(85.0))
    ensures Offset(ball, paddle) == PaddleWidth / 2.0 ==>
      PaddleCollisionCheck(v, paddle, ball, true, sinDeg, cosDeg) == Velocity(Speed * cosDeg(20.0), -Speed * sinDeg(20.0))
  {
  }
}
