/** The grid of bricks laid out at the start of a game: `BrickLayers` rows of
    `BricksPerLayer` bricks, listed row by row, neighbours one unit apart. */
module BrickLayout {
  import opened Config
  import opened Geometry

  /** The brick in layer `i` (counted from the top) and column `j`: the index
      is added to each corner, which leaves a one-unit gap between neighbours. */
  function BrickAt(i: int, j: int): Box {
    Box(j as real * BrickWidth + j as real,
        i as real * BrickHeight + i as real,
        (j + 1) as real * BrickWidth + j as real,
        (i + 1) as real * BrickHeight + i as real)
  }

  /** The whole field, as a functional reference for `DrawBricks`. */
  function Layout(): (bricks: seq<Box>)
    ensures |bricks| == BrickLayers * BricksPerLayer
    ensures forall i, j :: 0 <= i < BrickLayers && 0 <= j < BricksPerLayer ==>
      bricks[RowMajor(i, j)] == BrickAt(i, j)
  {
    seq(BrickLayers * BricksPerLayer, k => BrickAt(k / BricksPerLayer, k % BricksPerLayer))
  }

  /** Position of brick (i, j) in the row-major list. */
  function RowMajor(i: int, j: int): (k: int)
    ensures 0 <= i < BrickLayers && 0 <= j < BricksPerLayer ==>
      0 <= k < BrickLayers * BricksPerLayer && k / BricksPerLayer == i && k % BricksPerLayer == j
  {
    i * BricksPerLayer + j
  }

  /** The nested loops that create the bricks, appending them in row-major order. */
  method DrawBricks() returns (bricks: seq<Box>)
    ensures bricks == Layout()
  {
    bricks := [];
    var i := 0;
    while i < BrickLayers
      invariant 0 <= i <= BrickLayers
      invariant |bricks| == i * BricksPerLayer
      invariant forall k :: 0 <= k < |bricks| ==> bricks[k] == BrickAt(k / BricksPerLayer, k % BricksPerLayer)
    {
      var j := 0;
      while j < BricksPerLayer
        invariant 0 <= j <= BricksPerLayer
        invariant |bricks| == i * BricksPerLayer + j
        invariant forall k :: 0 <= k < |bricks| ==> bricks[k] == BrickAt(k / BricksPerLayer, k % BricksPerLayer)
      {
        var x1 := j as real * BrickWidth + j as real;
        var y1 := i as real * BrickHeight + i as real;
        var x2 := (j + 1) as real * BrickWidth + j as real;
        var y2 := (i + 1) as real * BrickHeight + i as real;
        assert RowMajor(i, j) == |bricks|;
        bricks := bricks + [Box(x1, y1, x2, y2)];
        j := j + 1;
      }
      i := i + 1;
    }
  }

  /** Every brick has the configured width and height. */
  lemma BrickDimensions(i: int, j: int)
    ensures BrickAt(i, j).Width() == BrickWidth && BrickWidth == 50.0
    ensures BrickAt(i, j).Height() == BrickHeight
  {
  }

  /** Horizontal neighbours are one unit apart, and so are vertical neighbours. */
  lemma NeighbourGaps(i: int, j: int)
    ensures BrickAt(i, j + 1).x1 - BrickAt(i, j).x2 == 1.0
    ensures BrickAt(i + 1, j).y1 - BrickAt(i, j).y2 == 1.0
    ensures BrickAt(i, j + 1).y1 == BrickAt(i, j).y1 && BrickAt(i + 1, j).x1 == BrickAt(i, j).x1
  {
  }

  /** Bricks in distinct grid cells share no point, not even an edge. */
  lemma {:induction false} BricksDisjoint(i1: int, j1: int, i2: int, j2: int)
    requires (i1, j1) != (i2, j2)
    ensures !Intersects(BrickAt(i1, j1), BrickAt(i2, j2))
  {
    if j1 < j2 {
      assert (j1 + 1) as real <= j2 as real;
      assert BrickAt(i1, j1).x2 < BrickAt(i2, j2).x1;
    } else if j2 < j1 {
      assert (j2 + 1) as real <= j1 as real;
      assert BrickAt(i2, j2).x2 < BrickAt(i1, j1).x1;
    } else if i1 < i2 {
      assert (i1 + 1) as real <= i2 as real;
      assert BrickAt(i1, j1).y2 < BrickAt(i2, j2).y1;
    } else {
      assert (i2 + 1) as real <= i1 as real;
      assert BrickAt(i2, j2).y2 < BrickAt(i1, j1).y1;
    }
  }

  /** No two bricks of the initial field intersect. */
  lemma LayoutDisjoint(k1: int, k2: int)
    requires 0 <= k1 < k2 < |Layout()|
    ensures !Intersects(Layout()[k1], Layout()[k2])
  {
    BricksDisjoint(k1 / BricksPerLayer, k1 % BricksPerLayer, k2 / BricksPerLayer, k2 % BricksPerLayer);
  }

  /** No box appears twice in the initial field. */
  lemma LayoutNoRepeats()
    ensures forall a, b :: 0 <= a < b < |Layout()| ==> Layout()[a] != Layout()[b]
  {
    forall a, b | 0 <= a < b < |Layout()|
      ensures Layout()[a] != Layout()[b]
    {
      LayoutDisjoint(a, b);
      BrickDimensions(a / BricksPerLayer, a % BricksPerLayer);
    }
  }

  /** The whole field lies in the upper half of the canvas, above the line at which
      the game loop starts testing bricks; the last column runs past the right
      edge of the canvas by one unit per gap. */
  lemma LayoutExtent(k: int)
    requires 0 <= k < |Layout()|
    ensures 0.0 <= Layout()[k].y1 && Layout()[k].y2 <= 188.0 < CanvasHeight / 2.0
    ensures 0.0 <= Layout()[k].x1 && Layout()[k].x2 <= CanvasWidth + (BricksPerLayer - 1) as real
    ensures k % BricksPerLayer == BricksPerLayer - 1 ==> Layout()[k].x2 == CanvasWidth + (BricksPerLayer - 1) as real
  {
    var i, j := k / BricksPerLayer, k % BricksPerLayer;
    assert 0 <= i < BrickLayers && 0 <= j < BricksPerLayer;
    assert i as real <= 8.0 && j as real <= 9.0;
  }
}
