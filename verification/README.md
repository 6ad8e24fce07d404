# Breakout: a model of the game rules

This project models the rules of a small Breakout game written with tkinter. A ball
bounces inside a 500 × 500 canvas. A paddle follows the mouse cursor along the
bottom edge. Nine rows of ten bricks sit at the top. Every frame the loop does four
things in order:

1. It redraws the paddle under the cursor and moves the ball by `(dx, dy)`.
2. It reflects `dx` off the side walls and sets an end flag: `-1` when the ball has
   left through the bottom, `1` when it has left through the top, `0` otherwise.
3. It re-aims the ball if the paddle is in contact. The signed offset `dH` between
   the ball's centre and the paddle's centre picks a departure angle. That angle is
   85° at the centre and falls linearly to 20° at the paddle's ends.
4. It tests the bricks, but only while the ball's top edge is above the canvas
   midline. The first brick in contact, in list order, is removed and `dy` is reversed.

Coordinates are exact reals. Boxes are canvas coordinates `(x1, y1, x2, y2)`, with y
growing downwards.

Modules, one per part of the game:

- `Config`: the constants.
- `Geometry`: boxes and velocities.
- `BrickLayout`: the brick grid.
- `EdgeCollision`: the walls and the end flag.
- `BrickCollision`: the brick scan and removal.
- `PaddleCollision`: the paddle rectangle and the bounce law.
- `GameLoop`: one frame (`Tick`) and a run of frames (`Run`).
- `Wrappers`: the `Option` type.

Some inputs come from tkinter or from the math library, so they are parameters:

- The contact test is a parameter `contact: Box -> bool`. The game decides contact
  by asking the canvas which items overlap a box and checking that the answer holds
  exactly two items. That is the item itself plus one other. The parameter stands
  for this test on the canvas as it is after the paddle redraw and the ball move.
- `sinDeg` and `cosDeg` stand for sine and cosine applied after the conversion from
  degrees to radians. The only assumption about them is `TrigSigns`: both are
  positive strictly between 0° and 90°.

Some facts the proofs bring out about the code as written:

- The frame order is wall check, then paddle check, then brick check, as in the loop
  body in `Breakout.py:37-44`. The order of the paddle and brick checks cannot be
  observed, though. The paddle lies along the bottom edge, and bricks are only tested
  while the ball's top is above the midline, so a ball that really overlaps the paddle
  is never in a frame that tests bricks (`NoPaddleAboveMidline`,
  `TickChecksNeverBothFire`). `TickBrickAfterPaddle` states the statement order only
  for the abstract contact test.
- A frame does not look at the end flag. After a win or a loss the ball keeps moving
  and the checks keep running (`TickIgnoresEndFlag`). The model claims no terminal
  state.
- A ball that really overlaps the paddle can sit up to half a paddle plus half a
  ball (55 units) from the paddle's centre. The angle can then drop to 13.5°, below
  the 20° the comments give as the lower end. The bounce still sends the ball up and
  towards the side it struck (`ContactAngleBounds`, `BounceDirection`).
- The one-unit gaps make each row 509 units wide. The last brick of every row
  therefore ends 9 units past the right edge of the canvas (`LayoutExtent`). The
  whole field ends at y = 188, above the midline that gates the brick check.
- The game removes a brick by value, and its list holds canvas item ids, which are
  unique, so that removal deletes the scanned position. The model identifies each
  brick by its box instead, and boxes need not be unique in general. The model's own
  argument is this: no equal box can come earlier in the list, because it would have
  been in contact first, so removal by value still deletes exactly the scanned
  position (`RemoveFirstAt`). The initial field has no repeated boxes in any case
  (`LayoutNoRepeats`).

## Model

| member | source | states |
|---|---|---|
| `Geometry.Box.Moved` | Breakout.py:38 | moving an item shifts its top-left corner by exactly `(dx, dy)` and keeps its width and height |
| `BrickLayout.Layout` | Breakout.py:107-116 | the field has `BrickLayers * BricksPerLayer` bricks, and brick (i, j) sits at row-major position `i * BricksPerLayer + j` |
| `BrickLayout.DrawBricks` | Breakout.py:107-116 | the nested loops, which append the computed corners one by one, produce exactly the row-major field `Layout()` |
| `BrickLayout.BrickDimensions` | Breakout.py:26 | every brick is `CanvasWidth / BricksPerLayer` = 50 wide and `BrickHeight` tall |
| `BrickLayout.NeighbourGaps` | Breakout.py:110-113 | horizontal neighbours are exactly 1 unit apart, and so are vertical neighbours; a row shares its y range and a column its x range |
| `BrickLayout.BricksDisjoint` | Breakout.py:110-113 | bricks in two different grid cells share no point, edges included |
| `BrickLayout.LayoutDisjoint` | Breakout.py:107-116 | no two bricks of the initial field intersect |
| `BrickLayout.LayoutNoRepeats` | Breakout.py:107-116 | no box appears twice in the initial field |
| `BrickLayout.LayoutExtent` | Breakout.py:107-116 | every brick lies between y = 0 and y = 188, above the midline; the last column ends 9 units past the right edge |
| `EdgeCollision.EdgeCollisionCheck` | Breakout.py:217-228 | the flag is -1 iff the ball is past the bottom, 1 iff it is past the top but not the bottom, else 0; `dx` changes (to `-dx`) iff a side wall is hit and `dx` is non-zero |
| `EdgeCollision.HitsExclusive` | Breakout.py:239-265 | the ball is never past the left and right walls at once, nor past the top and bottom at once |
| `EdgeCollision.HitMeansOutside` | Breakout.py:239-265 | for a ball-sized box, a side wall counts as hit iff the box is wholly outside the canvas's x range; top or bottom counts as hit iff the box is wholly outside the y range |
| `EdgeCollision.TouchingCanvasChangesNothing` | Breakout.py:217-228 | a ball still touching the canvas keeps `dx`, and the flag stays 0 |
| `EdgeCollision.RightWallReflection` | Breakout.py:217-218 | a ball moving right at `Speed` with its right edge more than a diameter past the wall leaves at `-Speed` |
| `BrickCollision.FirstContact` | Breakout.py:90-93 | returns the least index whose brick is in contact, or nothing iff no brick is in contact |
| `BrickCollision.RemoveFirst` | Breakout.py:96 | removing a value that is present shortens the list by exactly one |
| `BrickCollision.RemoveFirstMultiset` | Breakout.py:96 | removing by value takes out exactly one copy of the value and leaves every other element's count unchanged |
| `BrickCollision.RemoveFirstAt` | Breakout.py:96 | removing by value an element with no equal before it deletes exactly that position and keeps the rest in order |
| `BrickCollision.ResolveBricks` | Breakout.py:90-99 | `dx` is kept, `dy` is kept or reversed, the field loses at most one brick, and no brick is added |
| `BrickCollision.ResolveRemovesFirstHit` | Breakout.py:90-99 | when brick i is the first in contact, exactly brick i is removed, the others keep their order, `dy` is reversed and `dx` is kept |
| `BrickCollision.ResolveMissKeepsAll` | Breakout.py:90-99 | with no brick in contact, the field and both velocity components are unchanged |
| `BrickCollision.ResolveShrinksIffContact` | Breakout.py:90-99 | the field shrinks iff some brick is in contact, and when it shrinks `dy` is reversed |
| `BrickCollision.ResolveRemovesOnce` | Breakout.py:94-97 | in a field without repeated boxes, the removed brick is gone from the result and the result still has no repeats, so the same brick cannot be removed again |
| `BrickCollision.BrickCollisionCheck` | Breakout.py:90-99 | the scan-and-break loop, with removal by value, computes the same field and velocity as `ResolveBricks` |
| `PaddleCollision.PaddleBox` | Breakout.py:196-198 | the paddle is `PaddleWidth` wide and `PaddleHeight` tall, centred on the cursor's x, and rests on the bottom edge |
| `PaddleCollision.BounceAngle` | Breakout.py:150-154 | the angle never exceeds 85°, and it is at least 20° whenever the offset is within half a paddle of the centre |
| `PaddleCollision.PaddleCollisionCheck` | Breakout.py:165-182 | with no contact the velocity is unchanged; with contact `dy` is `-Speed * sin(angle)`, `dx` is `-Speed * cos(angle)` left of centre and `Speed * cos(angle)` right of centre, and `dx` is kept at the exact centre |
| `PaddleCollision.AngleEndpoints` | Breakout.py:174 | the angle is 85° at offset 0 and 20° at offset ±`PaddleWidth / 2` |
| `PaddleCollision.AngleMonotone` | Breakout.py:174 | the angle at b is at most the angle at a iff `|a| <= |b|`: it is non-increasing in the offset's size, and the converse holds |
| `PaddleCollision.ContactAngleBounds` | Breakout.py:169-174 | a ball overlapping the paddle is within 55 units of its centre, so the angle lies in [13.5°, 85°] |
| `PaddleCollision.BounceDirection` | Breakout.py:173-180 | a real contact gives `dy < 0` (upwards), `dx < 0` when struck left of centre, `dx > 0` right of centre, and `dx` unchanged at the centre |
| `PaddleCollision.NoPaddleAboveMidline` | Breakout.py:42 | a ball-sized box whose top is above the midline cannot overlap the paddle at the bottom edge |
| `PaddleCollision.CentreAndEdgeBounces` | Breakout.py:174-180 | a centre hit leaves with `dy = -Speed * sin 85°` and `dx` kept; a hit at the right end leaves with `(Speed * cos 20°, -Speed * sin 20°)` |
| `GameLoop.InitialWorld` | Breakout.py:68-74 | at set-up the ball is a diameter-sized box at mid-height inside the canvas; the field is exactly `Layout()` (90 bricks, no box repeated); the paddle is `PaddleBox` of the cursor; the velocity is the one given; the flag is 0 |
| `GameLoop.Tick` | Breakout.py:37-44 | a frame puts the paddle under the cursor, moves the ball by the old velocity, takes the flag from the wall check of the moved ball, and removes at most one brick and adds none |
| `GameLoop.TickBrickGate` | Breakout.py:42-44 | with the ball's top at or below the midline, the bricks are kept whatever the contact test says; above it, the brick check works on the velocity the paddle check left |
| `GameLoop.TickPaddleAfterWall` | Breakout.py:39-40 | a paddle contact right of centre sets `dx` to `Speed * cos(angle)` whatever the wall check did to it |
| `GameLoop.TickChecksNeverBothFire` | Breakout.py:40-44 | when paddle contact means real overlap, a frame that tests bricks hands the brick check the wall check's velocity untouched by the paddle |
| `GameLoop.TickBrickAfterPaddle` | Breakout.py:40-44 | statement order under the abstract contact test: if the paddle and brick i (the first in contact) both report contact, brick i is removed and the paddle's upward `dy` is reversed |
| `GameLoop.TickIgnoresEndFlag` | Breakout.py:36-39 | a frame's result does not depend on the end flag it starts from, so the game never stops itself |
| `GameLoop.RunInvariants` | Breakout.py:36-44 | over n frames the field only loses bricks, at most n of them; the ball keeps its size; the paddle ends under the last cursor position |

## Left out

- Drawing and the window: creating the canvas, rectangles, ovals and the end-of-game
  text, deleting items, refreshing the screen, and reading the cursor position. The cursor's
  x coordinate is an input to each frame.
- The overlap-count contact test. Its meaning depends on the canvas's item registry,
  which is not part of this model, so it is the supplied `contact` predicate. The
  "You Win!"/"You Lose" text that the wall check creates could also change later
  overlap counts; that is part of the same supplied predicate.
- The frame rate (`time.sleep`) and the endless `while True`. One iteration is
  `Tick`, and a finite sequence of iterations is `Run`.
- The random launch: the ball's start column and the initial `dy` are drawn at
  random, and `dx` is `sqrt(SPEED² - dy²)`. `InitialWorld` takes the column and the
  velocity as inputs.
- Floating point. The model computes with exact reals, so `-65/50` is exactly `-1.3`.
- `math.sin`, `math.cos` and `math.radians`. They are the parameters `sinDeg` and
  `cosDeg`, and the only assumption about them is their sign on (0°, 90°). For that
  reason the comment's promise that the speed `sqrt(dx² + dy²)` stays `SPEED` is not
  proved.
- Canvas item ids. The game keeps its bricks as canvas item ids; the model keeps
  each brick's box. So a brick is identified by its coordinates, not by its id.
