/** One frame of the game loop and a run of frames. Each frame redraws the paddle
    at the cursor, moves the ball, runs the wall check, then the paddle check,
    and tests the bricks only while the ball's top is in the upper half. */
module GameLoop {
  import opened Config
  import opened Geometry
  import opened BrickLayout
  import opened EdgeCollision
  import opened BrickCollision
  import opened PaddleCollision

  /** Everything one frame carries over to the next. */
  datatype World = World(ball: Box, paddle: Box, bricks: seq<Box>, velocity: Velocity, endFlag: int)

  /** What the outside supplies to one frame: the cursor's x coordinate and the
      contact test, which holds of a box when exactly one other item overlaps it
      on the canvas as it stands after the paddle redraw and the ball move. */
  datatype Frame = Frame(mouseX: real, contact: Box -> bool)

  /** The state right after set-up, for a ball launched from `ballX` at mid-height
      with velocity `v` and a paddle under the cursor. */
  function InitialWorld(ballX: int, v: Velocity, mouseX: real): (w: World)
    requires 0.0 <= ballX as real <= CanvasWidth - BallDiameter
    ensures IsBallBox(w.ball) && w.ball.y1 == CanvasHeight / 2.0
    ensures 0.0 <= w.ball.x1 && w.ball.x2 <= CanvasWidth
    ensures w.bricks == Layout() && |w.bricks| == BrickLayers * BricksPerLayer
    ensures forall a, b :: 0 <= a < b < |w.bricks| ==> w.bricks[a] != w.bricks[b]
    ensures w.paddle == PaddleBox(mouseX) && w.paddle.CentreX() == mouseX
    ensures w.velocity == v && w.endFlag == Ongoing
  {
    LayoutNoRepeats();
    var y1 := CanvasHeight / 2.0;
    World(Box(ballX as real, y1, ballX as real + BallDiameter, y1 + BallDiameter),
          PaddleBox(mouseX), Layout(), v, Ongoing)
  }

  /** The body of the endless loop. The incoming end flag is not consulted. */
  function Tick(w: World, f: Frame, sinDeg: real -> real, cosDeg: real -> real): (w': World)
    ensures w'.paddle == PaddleBox(f.mouseX)
    ensures w'.ball == w.ball.Moved(w.velocity.dx, w.velocity.dy)
    ensures w'.endFlag == EdgeCollisionCheck(w.velocity.dx, w'.ball).endFlag
    ensures |w'.bricks| == |w.bricks| || |w'.bricks| == |w.bricks| - 1
    ensures multiset(w'.bricks) <= multiset(w.bricks)
  {
    var paddle := PaddleBox(f.mouseX);
    var ball := w.ball.Moved(w.velocity.dx, w.velocity.dy);
    var edge := EdgeCollisionCheck(w.velocity.dx, ball);
    var v := AfterPaddle(w, f, sinDeg, cosDeg);
    if ball.y1 < CanvasHeight / 2.0 then
      var b := ResolveBricks(w.bricks, f.contact, v);
      World(ball, paddle, b.bricks, b.velocity, edge.endFlag)
    else
      World(ball, paddle, w.bricks, v, edge.endFlag)
  }

  /** The velocity after the wall check and the paddle check of a frame. */
  function AfterPaddle(w: World, f: Frame, sinDeg: real -> real, cosDeg: real -> real): Velocity {
    var ball := w.ball.Moved(w.velocity.dx, w.velocity.dy);
    var edge := EdgeCollisionCheck(w.velocity.dx, ball);
    PaddleCollisionCheck(Velocity(edge.dx, w.velocity.dy), PaddleBox(f.mouseX), ball, f.contact(PaddleBox(f.mouseX)), sinDeg, cosDeg)
  }

  /** Below the midline the bricks are never tested: the field is kept whatever the
      contact test says, and the velocity is the one the paddle check left. Above it
      the brick check works on the velocity the paddle check left. */
  lemma TickBrickGate(w: World, f: Frame, sinDeg: real -> real, cosDeg: real -> real)
    ensures var w' := Tick(w, f, sinDeg, cosDeg);
      w'.ball.y1 >= CanvasHeight / 2.0 ==>
        w'.bricks == w.bricks && w'.velocity == AfterPaddle(w, f, sinDeg, cosDeg)
    ensures var w' := Tick(w, f, sinDeg, cosDeg);
      w'.ball.y1 < CanvasHeight / 2.0 ==>
        BrickOutcome(w'.bricks, w'.velocity) == ResolveBricks(w.bricks, f.contact, AfterPaddle(w, f, sinDeg, cosDeg))
  {
  }

  /** The paddle check runs after the wall check: a paddle contact off the centre
      replaces whatever horizontal direction the wall reflection chose. */
  lemma TickPaddleAfterWall(w: World, f: Frame, sinDeg: real -> real, cosDeg: real -> real)
    requires var ball := w.ball.Moved(w.velocity.dx, w.velocity.dy);
      f.contact(PaddleBox(f.mouseX)) && Offset(ball, PaddleBox(f.mouseX)) > 0.0
    ensures AfterPaddle(w, f, sinDeg, cosDeg).dx ==
      Speed * cosDeg(BounceAngle(Offset(w.ball.Moved(w.velocity.dx, w.velocity.dy), PaddleBox(f.mouseX))))
  {
  }

  /** When the contact test only reports a paddle contact for a ball that really
      overlaps the paddle, the paddle check never fires in a frame that tests the
      bricks: the velocity reaching the brick check is the wall check's. */
  lemma TickChecksNeverBothFire(w: World, f: Frame, sinDeg: real -> real, cosDeg: real -> real)
    requires IsBallBox(w.ball)
    requires var ball := w.ball.Moved(w.velocity.dx, w.velocity.dy);
      f.contact(PaddleBox(f.mouseX)) ==> Intersects(ball, PaddleBox(f.mouseX))
    ensures var ball := w.ball.Moved(w.velocity.dx, w.velocity.dy);
      ball.y1 < CanvasHeight / 2.0 ==>
        AfterPaddle(w, f, sinDeg, cosDeg) == Velocity(EdgeCollisionCheck(w.velocity.dx, ball).dx, w.velocity.dy)
  {
    var ball := w.ball.Moved(w.velocity.dx, w.velocity.dy);
    if ball.y1 < CanvasHeight / 2.0 {
      NoPaddleAboveMidline(ball, f.mouseX);
    }
  }

  /** The order of the statements in the loop body: the brick check works on the
      velocity the paddle check produced. This holds for the abstract contact test
      only; with real overlaps both cannot fire in one frame (`TickChecksNeverBothFire`). */
  lemma TickBrickAfterPaddle(w: World, f: Frame, sinDeg: real -> real, cosDeg: real -> real, i: nat)
    requires var ball := w.ball.Moved(w.velocity.dx, w.velocity.dy);
      ball.y1 < CanvasHeight / 2.0 && f.contact(PaddleBox(f.mouseX))
    requires i < |w.bricks| && f.contact(w.bricks[i])
    requires forall k :: 0 <= k < i ==> !f.contact(w.bricks[k])
    ensures var w' := Tick(w, f, sinDeg, cosDeg);
      w'.velocity.dy == Speed * sinDeg(BounceAngle(Offset(w'.ball, w'.paddle))) &&
      w'.bricks == w.bricks[..i] + w.bricks[i + 1..]
  {
    ResolveRemovesFirstHit(w.bricks, f.contact, AfterPaddle(w, f, sinDeg, cosDeg), i);
  }

  /** The loop never stops: a frame does the same whatever end flag it starts from. */
  lemma TickIgnoresEndFlag(w: World, f: Frame, sinDeg: real -> real, cosDeg: real -> real, flag: int)
    ensures Tick(w.(endFlag := flag), f, sinDeg, cosDeg) == Tick(w, f, sinDeg, cosDeg)
  {
  }

  /** A run of frames, one `Tick` each. */
  function Run(w: World, frames: seq<Frame>, sinDeg: real -> real, cosDeg: real -> real): World
    decreases |frames|
  {
    if |frames| == 0 then w else Run(Tick(w, frames[0], sinDeg, cosDeg), frames[1..], sinDeg, cosDeg)
  }

  /** Over any run bricks are only ever removed, at most one per frame, the ball
      keeps its size and the paddle ends up under the last cursor position. */
  lemma {:induction false} RunInvariants(w: World, frames: seq<Frame>, sinDeg: real -> real, cosDeg: real -> real)
    requires IsBallBox(w.ball)
    decreases |frames|
    ensures var w' := Run(w, frames, sinDeg, cosDeg);
      && multiset(w'.bricks) <= multiset(w.bricks)
      && |w.bricks| - |frames| <= |w'.bricks| <= |w.bricks|
      && IsBallBox(w'.ball)
      && (|frames| > 0 ==> w'.paddle == PaddleBox(frames[|frames| - 1].mouseX))
  {
    if |frames| > 0 {
      var w1 := Tick(w, frames[0], sinDeg, cosDeg);
      RunInvariants(w1, frames[1..], sinDeg, cosDeg);
      if |frames| > 1 {
        assert frames[1..][|frames[1..]| - 1] == frames[|frames| - 1];
      }
    }
  }
}
