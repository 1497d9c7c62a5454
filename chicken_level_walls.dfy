// The chicken-cave level: a w x h grid of cells (0 empty, 1 wall, 2 shroom)
// in row-major order, queried by cell and by pixel position, and the
// box-against-grid collision used for the player.

module ChickenLevelWalls {

  datatype Option<T> = None | Some(value: T)

  const Empty := 0
  const Wall := 1
  const Shroom := 2

  /** The registries a level joins. */
  const Types: set<string> := {"draw", "wall", "update"}

  predicate InGrid(w: nat, h: nat, x: int, y: int)
  {
    0 <= x < w && 0 <= y < h
  }

  lemma IndexInGrid(w: nat, h: nat, x: int, y: int)
    requires InGrid(w, h, x, y)
    ensures 0 <= y * w + x < w * h
  {
    assert y * w <= (h - 1) * w;
  }

  /** `getWallAt`: the cell's value, and 1 (wall) everywhere off the grid. */
  function WallAt(g: seq<int>, w: nat, h: nat, x: int, y: int): (n: int)
    requires |g| == w * h
    ensures !InGrid(w, h, x, y) ==> n == Wall
  {
    if x < 0 || x > w - 1 || y < 0 || y > h - 1 then Wall
    else
      IndexInGrid(w, h, x, y);
      g[y * w + x]
  }

  /** `isWallAt`: exactly the cells holding 1. */
  predicate IsWallAt(g: seq<int>, w: nat, h: nat, x: int, y: int)
    requires |g| == w * h
  {
    WallAt(g, w, h, x, y) == Wall
  }

  /** `hasCeilingAbove`: an open cell with a wall at the next row (rows
      grow downwards on screen, upwards in the grid index). */
  predicate HasCeilingAbove(g: seq<int>, w: nat, h: nat, x: int, y: int)
    requires |g| == w * h
  {
    !IsWallAt(g, w, h, x, y) && IsWallAt(g, w, h, x, y + 1)
  }

  /** Off the grid everything is wall; on it, only a 1 is: a shroom or an
      empty cell is not. */
  lemma WallCells(g: seq<int>, w: nat, h: nat, x: int, y: int)
    requires |g| == w * h
    ensures !InGrid(w, h, x, y) ==> IsWallAt(g, w, h, x, y)
    ensures InGrid(w, h, x, y) ==>
              (0 <= y * w + x < |g| &&
               (IsWallAt(g, w, h, x, y) <==> g[y * w + x] == Wall) &&
               (g[y * w + x] in {Empty, Shroom} ==> !IsWallAt(g, w, h, x, y)))
  {
    if InGrid(w, h, x, y) {
      IndexInGrid(w, h, x, y);
    }
  }

  /** A ceiling needs an open cell below it, and only cells on the grid can
      be open. */
  lemma CeilingOnGrid(g: seq<int>, w: nat, h: nat, x: int, y: int)
    requires |g| == w * h && HasCeilingAbove(g, w, h, x, y)
    ensures InGrid(w, h, x, y) && 0 <= y * w + x < |g| && g[y * w + x] != Wall
  {
    WallCells(g, w, h, x, y);
  }

  /** The cell holding a pixel coordinate: `Math.floor(p * (1 / size))`. */
  function CellOf(p: real, size: real): int
    requires size > 0.0
  {
    (p / size).Floor
  }

  /** The cell of `p` spans `p`. */
  lemma CellOfBounds(p: real, size: real)
    requires size > 0.0
    ensures CellOf(p, size) as real * size <= p < (CellOf(p, size) + 1) as real * size
  {
    var k := (p / size).Floor;
    assert k as real <= p / size < k as real + 1.0;
    CellBounds(p, size, k);
  }

  lemma CellBounds(p: real, size: real, c: int)
    requires size > 0.0 && c as real <= p / size < c as real + 1.0
    ensures c as real * size <= p < (c + 1) as real * size
  {
    var q := p / size;
    assert q * size == p;
    MulLe(size, c as real, q);
    assert q < (c + 1) as real;
    MulLt(size, q, (c + 1) as real);
    assert q * size < (c + 1) as real * size;
  }

  lemma MulLe(size: real, a: real, b: real)
    requires size > 0.0 && a <= b
    ensures a * size <= b * size
  {
  }

  lemma MulLt(size: real, a: real, b: real)
    requires size > 0.0 && a < b
    ensures a * size < b * size
  {
  }

  /** A pixel at or past the edge of cell `n` lies in cell `n` or a later
      one; a pixel before the edge of cell `n` in an earlier one. */
  lemma CellOrder(p: real, size: real, n: int)
    requires size > 0.0
    ensures p >= n as real * size ==> CellOf(p, size) >= n
    ensures p < n as real * size ==> CellOf(p, size) < n
  {
    var c := CellOf(p, size);
    CellOfBounds(p, size);
    if c < n {
      assert (c + 1) as real <= n as real;
      MulLe(size, (c + 1) as real, n as real);
      assert p < (c + 1) as real * size <= n as real * size;
    } else {
      MulLe(size, n as real, c as real);
    }
  }

  /** `isSolidAtPosition`: whether the cell under the pixel is a wall. */
  predicate IsSolidAtPosition(g: seq<int>, w: nat, h: nat, size: real, x: real, y: real)
    requires |g| == w * h && size > 0.0
  {
    IsWallAt(g, w, h, CellOf(x, size), CellOf(y, size))
  }

  /** Every pixel of a wall cell is solid. */
  lemma WallCellPixelsSolid(g: seq<int>, w: nat, h: nat, size: real, x: real, y: real, cx: int, cy: int)
    requires |g| == w * h && size > 0.0
    requires IsWallAt(g, w, h, cx, cy)
    requires cx as real * size <= x < (cx + 1) as real * size
    requires cy as real * size <= y < (cy + 1) as real * size
    ensures IsSolidAtPosition(g, w, h, size, x, y)
  {
    CellOrder(x, size, cx);
    CellOrder(x, size, cx + 1);
    CellOrder(y, size, cy);
    CellOrder(y, size, cy + 1);
    assert CellOf(x, size) == cx && CellOf(y, size) == cy;
  }

  /** Every pixel outside the grid's w*size x h*size area is solid. */
  lemma OffGridPixelsSolid(g: seq<int>, w: nat, h: nat, size: real, x: real, y: real)
    requires |g| == w * h && size > 0.0
    requires x < 0.0 || y < 0.0 || x >= w as real * size || y >= h as real * size
    ensures IsSolidAtPosition(g, w, h, size, x, y)
  {
    CellOrder(x, size, 0);
    CellOrder(y, size, 0);
    CellOrder(x, size, w);
    CellOrder(y, size, h);
    assert !InGrid(w, h, CellOf(x, size), CellOf(y, size));
  }

  /** What `getCollisionAt` answers when it finds a collision: the corrected
      x and/or y position of the box. */
  datatype Hit = Hit(x: Option<real>, y: Option<real>)

  /** Whether the box's x extent crosses a cell edge: its left edge for a
      move left, its right edge for a move right. */
  predicate XMoved(size: real, x: real, w: real, dx: real)
    requires size > 0.0
  {
    (dx < 0.0 && CellOf(x + dx, size) < CellOf(x, size)) ||
    (dx > 0.0 && CellOf(x + w + dx, size) > CellOf(x + w, size))
  }

  predicate YMoved(size: real, y: real, h: real, dy: real)
    requires size > 0.0
  {
    (dy < 0.0 && CellOf(y + dy, size) < CellOf(y, size)) ||
    (dy > 0.0 && CellOf(y + h + dy, size) > CellOf(y + h, size))
  }

  /** The x correction: the box's leading edge entered a wall cell in one
      of the two rows its top and bottom edges occupy. `rightX` is where a
      right-hand collision puts the box. */
  function NextX(g: seq<int>, gw: nat, gh: nat, size: real,
                 x: real, y: real, w: real, h: real, dx: real, rightX: real): Option<real>
    requires |g| == gw * gh && size > 0.0
  {
    var yA1, yB1 := CellOf(y, size), CellOf(y + h, size);
    if dx < 0.0 && CellOf(x + dx, size) < CellOf(x, size) then
      var c := CellOf(x + dx, size);
      if IsWallAt(g, gw, gh, c, yA1) || IsWallAt(g, gw, gh, c, yB1)
      then Some(CellOf(x, size) as real * size) else None
    else if dx > 0.0 && CellOf(x + w + dx, size) > CellOf(x + w, size) then
      var c := CellOf(x + w + dx, size);
      if IsWallAt(g, gw, gh, c, yA1) || IsWallAt(g, gw, gh, c, yB1)
      then Some(rightX) else None
    else None
  }

  /** The y correction, the same way along the other axis. */
  function NextY(g: seq<int>, gw: nat, gh: nat, size: real,
                 x: real, y: real, w: real, h: real, dy: real): Option<real>
    requires |g| == gw * gh && size > 0.0
  {
    var xA1, xB1 := CellOf(x, size), CellOf(x + w, size);
    if dy < 0.0 && CellOf(y + dy, size) < CellOf(y, size) then
      var c := CellOf(y + dy, size);
      if IsWallAt(g, gw, gh, xA1, c) || IsWallAt(g, gw, gh, xB1, c)
      then Some(CellOf(y, size) as real * size) else None
    else if dy > 0.0 && CellOf(y + h + dy, size) > CellOf(y + h, size) then
      var c := CellOf(y + h + dy, size);
      if IsWallAt(g, gw, gh, xA1, c) || IsWallAt(g, gw, gh, xB1, c)
      then Some(c as real * size - h) else None
    else None
  }

  /** Whether one of the four corners of the destination box is in a wall
      cell. */
  predicate CornerInWall(g: seq<int>, gw: nat, gh: nat, size: real,
                         x: real, y: real, w: real, h: real, dx: real, dy: real)
    requires |g| == gw * gh && size > 0.0
  {
    var xA2, xB2 := CellOf(x + dx, size), CellOf(x + w + dx, size);
    var yA2, yB2 := CellOf(y + dy, size), CellOf(y + h + dy, size);
    IsWallAt(g, gw, gh, xA2, yA2) || IsWallAt(g, gw, gh, xB2, yA2) ||
    IsWallAt(g, gw, gh, xA2, yB2) || IsWallAt(g, gw, gh, xB2, yB2)
  }

  /** The body of `getCollisionAt`, given where it puts the box after a
      right-hand collision: each axis is resolved on its own; when both
      cross an edge, neither collides, and a destination corner is in a
      wall, only y is corrected; no correction at all answers null. */
  function Resolve(g: seq<int>, gw: nat, gh: nat, size: real,
                   x: real, y: real, w: real, h: real, dx: real, dy: real, rightX: real): (r: Option<Hit>)
    requires |g| == gw * gh && size > 0.0
    ensures r.Some? ==> r.value.x.Some? || r.value.y.Some?
  {
    var nextX := NextX(g, gw, gh, size, x, y, w, h, dx, rightX);
    var nextY := NextY(g, gw, gh, size, x, y, w, h, dy);
    var finalY :=
      if XMoved(size, x, w, dx) && YMoved(size, y, h, dy) && nextX.None? && nextY.None? &&
         CornerInWall(g, gw, gh, size, x, y, w, h, dx, dy)
      then Some(if dy > 0.0 then CellOf(y + h + dy, size) as real * size - h
                else CellOf(y, size) as real * size)
      else nextY;
    if nextX.Some? || finalY.Some? then Some(Hit(nextX, finalY)) else None
  }

  /** `getCollisionAt` as written: a right-hand collision computes the
      box's position from the cell its LEFT edge moves into. */
  function CollisionAsWritten(g: seq<int>, gw: nat, gh: nat, size: real,
                              x: real, y: real, w: real, h: real, dx: real, dy: real): Option<Hit>
    requires |g| == gw * gh && size > 0.0
  {
    Resolve(g, gw, gh, size, x, y, w, h, dx, dy, CellOf(x + dx, size) as real * size - w)
  }

  /** `getCollisionAt` with a right-hand collision placing the box flush to
      the left of the wall cell its right edge ran into. */
  function Collision(g: seq<int>, gw: nat, gh: nat, size: real,
                     x: real, y: real, w: real, h: real, dx: real, dy: real): Option<Hit>
    requires |g| == gw * gh && size > 0.0
  {
    Resolve(g, gw, gh, size, x, y, w, h, dx, dy, CellOf(x + w + dx, size) as real * size - w)
  }

  /** A point in cell `c` lies before the edge of any later cell `d`, and
      a point in cell `d` lies at or after the edge of any cell up to it. */
  lemma CellEdges(size: real, p: real, c: int, d: int)
    requires size > 0.0 && c < d
    ensures p < (c + 1) as real * size ==> p < d as real * size
    ensures (c + 1) as real * size <= d as real * size
  {
    MulLe(size, (c + 1) as real, d as real);
  }

  /** A move left across a cell edge passes the left edge of the cell it
      started in. */
  lemma LeftEdgeWithinStep(size: real, x: real, dx: real)
    requires size > 0.0 && dx < 0.0 && CellOf(x + dx, size) < CellOf(x, size)
    ensures x + dx < CellOf(x, size) as real * size <= x
  {
    CellOfBounds(x + dx, size);
    CellOfBounds(x, size);
    CellEdges(size, x + dx, CellOf(x + dx, size), CellOf(x, size));
  }

  /** A move right across a cell edge brings the right edge of the box
      to the left edge of the cell it moves into. */
  lemma RightEdgeWithinStep(size: real, x: real, w: real, dx: real)
    requires size > 0.0 && dx > 0.0 && CellOf(x + w + dx, size) > CellOf(x + w, size)
    ensures x < CellOf(x + w + dx, size) as real * size - w <= x + dx
  {
    CellOfBounds(x + w, size);
    CellOfBounds(x + w + dx, size);
    CellEdges(size, x + w, CellOf(x + w, size), CellOf(x + w + dx, size));
  }

  /** The corrected x lies in (x + dx, x] for a move left and in
      (x, x + dx] for a move right. */
  lemma NextXWithinStep(g: seq<int>, gw: nat, gh: nat, size: real,
                        x: real, y: real, w: real, h: real, dx: real)
    requires |g| == gw * gh && size > 0.0
    ensures var n := NextX(g, gw, gh, size, x, y, w, h, dx, CellOf(x + w + dx, size) as real * size - w);
            n.Some? ==> (dx < 0.0 && x + dx < n.value <= x) || (dx > 0.0 && x < n.value <= x + dx)
  {
    if dx < 0.0 && CellOf(x + dx, size) < CellOf(x, size) {
      LeftEdgeWithinStep(size, x, dx);
    } else if dx > 0.0 && CellOf(x + w + dx, size) > CellOf(x + w, size) {
      RightEdgeWithinStep(size, x, w, dx);
    }
  }

  /** The corrected y (an axis collision or the corner rule) lies in
      (y + dy, y] for a move up and in (y, y + dy] for a move down. */
  lemma FinalYWithinStep(size: real, y: real, h: real, dy: real, v: real)
    requires size > 0.0 && YMoved(size, y, h, dy)
    requires v == if dy > 0.0 then CellOf(y + h + dy, size) as real * size - h
                  else CellOf(y, size) as real * size
    ensures (dy < 0.0 && y + dy < v <= y) || (dy > 0.0 && y < v <= y + dy)
  {
    if dy < 0.0 {
      LeftEdgeWithinStep(size, y, dy);
    } else {
      RightEdgeWithinStep(size, y, h, dy);
    }
  }

  /** Every correction `Collision` returns moves the box part of the way
      it asked to go, never back past its start. */
  lemma CollisionWithinStep(g: seq<int>, gw: nat, gh: nat, size: real,
                            x: real, y: real, w: real, h: real, dx: real, dy: real)
    requires |g| == gw * gh && size > 0.0
    ensures var r := Collision(g, gw, gh, size, x, y, w, h, dx, dy);
            r.Some? && r.value.x.Some? ==>
              (dx < 0.0 && x + dx < r.value.x.value <= x) || (dx > 0.0 && x < r.value.x.value <= x + dx)
    ensures var r := Collision(g, gw, gh, size, x, y, w, h, dx, dy);
            r.Some? && r.value.y.Some? ==>
              (dy < 0.0 && y + dy < r.value.y.value <= y) || (dy > 0.0 && y < r.value.y.value <= y + dy)
  {
    NextXWithinStep(g, gw, gh, size, x, y, w, h, dx);
    var r := Collision(g, gw, gh, size, x, y, w, h, dx, dy);
    if r.Some? && r.value.y.Some? {
      var v := if dy > 0.0 then CellOf(y + h + dy, size) as real * size - h
               else CellOf(y, size) as real * size;
      if NextY(g, gw, gh, size, x, y, w, h, dy).Some? {
        assert r.value.y == NextY(g, gw, gh, size, x, y, w, h, dy);
        assert YMoved(size, y, h, dy);
        FinalYWithinStep(size, y, h, dy, v);
      } else {
        assert YMoved(size, y, h, dy);
        FinalYWithinStep(size, y, h, dy, v);
      }
    }
  }

  /** No movement, no collision. */
  lemma NoMoveNoCollision(g: seq<int>, gw: nat, gh: nat, size: real, x: real, y: real, w: real, h: real)
    requires |g| == gw * gh && size > 0.0
    ensures Collision(g, gw, gh, size, x, y, w, h, 0.0, 0.0) == None
  {
  }

  /** A move left across a cell edge into a wall stops the box at the left
      edge of the cell it started in; a move up likewise at the top. */
  lemma LeftAndUpHits(g: seq<int>, gw: nat, gh: nat, size: real,
                      x: real, y: real, w: real, h: real, dx: real, dy: real)
    requires |g| == gw * gh && size > 0.0
    ensures var r := Collision(g, gw, gh, size, x, y, w, h, dx, dy);
            dx < 0.0 && CellOf(x + dx, size) < CellOf(x, size) &&
            (IsWallAt(g, gw, gh, CellOf(x + dx, size), CellOf(y, size)) ||
             IsWallAt(g, gw, gh, CellOf(x + dx, size), CellOf(y + h, size)))
            ==> r.Some? && r.value.x == Some(CellOf(x, size) as real * size)
    ensures var r := Collision(g, gw, gh, size, x, y, w, h, dx, dy);
            dy < 0.0 && CellOf(y + dy, size) < CellOf(y, size) &&
            (IsWallAt(g, gw, gh, CellOf(x, size), CellOf(y + dy, size)) ||
             IsWallAt(g, gw, gh, CellOf(x + w, size), CellOf(y + dy, size)))
            ==> r.Some? && r.value.y == Some(CellOf(y, size) as real * size)
  {
  }

  /** A move right across a cell edge into a wall stops the box flush
      against that wall. */
  lemma RightHit(g: seq<int>, gw: nat, gh: nat, size: real,
                 x: real, y: real, w: real, h: real, dx: real, dy: real)
    requires |g| == gw * gh && size > 0.0
    requires dx > 0.0 && CellOf(x + w + dx, size) > CellOf(x + w, size)
    requires IsWallAt(g, gw, gh, CellOf(x + w + dx, size), CellOf(y, size)) ||
             IsWallAt(g, gw, gh, CellOf(x + w + dx, size), CellOf(y + h, size))
    ensures var r := Collision(g, gw, gh, size, x, y, w, h, dx, dy);
            r.Some? && r.value.x == Some(CellOf(x + w + dx, size) as real * size - w)
  {
    assert NextX(g, gw, gh, size, x, y, w, h, dx, CellOf(x + w + dx, size) as real * size - w)
        == Some(CellOf(x + w + dx, size) as real * size - w);
  }

  /** A move down across a cell edge into a wall stops the box flush on
      top of that wall. */
  lemma DownHit(g: seq<int>, gw: nat, gh: nat, size: real,
                x: real, y: real, w: real, h: real, dx: real, dy: real)
    requires |g| == gw * gh && size > 0.0
    requires dy > 0.0 && CellOf(y + h + dy, size) > CellOf(y + h, size)
    requires IsWallAt(g, gw, gh, CellOf(x, size), CellOf(y + h + dy, size)) ||
             IsWallAt(g, gw, gh, CellOf(x + w, size), CellOf(y + h + dy, size))
    ensures var r := Collision(g, gw, gh, size, x, y, w, h, dx, dy);
            r.Some? && r.value.y == Some(CellOf(y + h + dy, size) as real * size - h)
  {
    assert NextY(g, gw, gh, size, x, y, w, h, dy) == Some(CellOf(y + h + dy, size) as real * size - h);
  }

  /** When both axes cross an edge, neither collides on its own, and one of
      the four destination corners is a wall, only y is corrected. */
  lemma CornerPrefersY(g: seq<int>, gw: nat, gh: nat, size: real,
                       x: real, y: real, w: real, h: real, dx: real, dy: real)
    requires |g| == gw * gh && size > 0.0
    requires XMoved(size, x, w, dx) && YMoved(size, y, h, dy)
    requires NextX(g, gw, gh, size, x, y, w, h, dx, CellOf(x + w + dx, size) as real * size - w).None?
    requires NextY(g, gw, gh, size, x, y, w, h, dy).None?
    requires CornerInWall(g, gw, gh, size, x, y, w, h, dx, dy)
    ensures Collision(g, gw, gh, size, x, y, w, h, dx, dy)
         == Some(Hit(None, Some(if dy > 0.0 then CellOf(y + h + dy, size) as real * size - h
                                else CellOf(y, size) as real * size)))
  {
  }

  /** The right-hand collision as written moves the box backwards: on a
      16-pixel grid whose only wall is cell (1, 0), an 8 x 8 box at x = 5
      moving right by 4 is put at x = -8, behind where it started; the
      corrected rule stops it at x = 8, against the wall. */
  lemma RightCollisionAsWrittenGoesBack()
    ensures CollisionAsWritten([Empty, Wall], 2, 1, 16.0, 5.0, 0.0, 8.0, 8.0, 4.0, 0.0)
         == Some(Hit(Some(-8.0), None))
    ensures Collision([Empty, Wall], 2, 1, 16.0, 5.0, 0.0, 8.0, 8.0, 4.0, 0.0)
         == Some(Hit(Some(8.0), None))
  {
    assert CellOf(5.0, 16.0) == 0 by { CellOrder(5.0, 16.0, 0); CellOrder(5.0, 16.0, 1); }
    assert CellOf(9.0, 16.0) == 0 by { CellOrder(9.0, 16.0, 0); CellOrder(9.0, 16.0, 1); }
    assert CellOf(13.0, 16.0) == 0 by { CellOrder(13.0, 16.0, 0); CellOrder(13.0, 16.0, 1); }
    assert CellOf(17.0, 16.0) == 1 by { CellOrder(17.0, 16.0, 1); CellOrder(17.0, 16.0, 2); }
    assert CellOf(0.0, 16.0) == 0 by { CellOrder(0.0, 16.0, 0); CellOrder(0.0, 16.0, 1); }
    assert CellOf(8.0, 16.0) == 0 by { CellOrder(8.0, 16.0, 0); CellOrder(8.0, 16.0, 1); }
    assert IsWallAt([Empty, Wall], 2, 1, 1, 0);
    assert !IsWallAt([Empty, Wall], 2, 1, 0, 0);
  }

  /** The constructor's options; an absent option takes its default. */
  datatype Options = Options(w: Option<nat>, h: Option<nat>, walls: Option<seq<int>>,
                             blockSize: Option<real>, random: Option<bool>)

  /** What `new _LevelWalls(64, 64)` receives: spreading a number into the
      defaults adds no option. */
  const NoOptions := Options(None, None, None, None, None)

  function Or<T>(o: Option<T>, d: T): T
  {
    if o.Some? then o.value else d
  }

  class LevelWalls {
    const w: nat
    const h: nat
    const blockSize: real
    const random: bool
    var walls: seq<int>
    var hasWalls: bool
    var dripTimer: real

    predicate Valid()
      reads this
    {
      blockSize > 0.0 && (hasWalls ==> |walls| == w * h)
    }

    /** Options fall back to w = 12, h = 50, no walls, 16-pixel blocks and
        no random fill. The source checks neither a positive block size nor a
        wall grid of w * h cells; the requires below hold at its only call
        (game.js:85), which passes no block size and no walls, and keep the
        cell arithmetic of the collision test defined. */
    constructor (opts: Options)
      requires Or(opts.blockSize, 16.0) > 0.0
      requires opts.walls.Some? ==> |opts.walls.value| == Or(opts.w, 12) * Or(opts.h, 50)
      ensures Valid() && w == Or(opts.w, 12) && h == Or(opts.h, 50)
      ensures blockSize == Or(opts.blockSize, 16.0) && random == Or(opts.random, false)
      ensures hasWalls == opts.walls.Some? && (hasWalls ==> walls == opts.walls.value)
      ensures dripTimer == 0.0
    {
      w := Or(opts.w, 12);
      h := Or(opts.h, 50);
      blockSize := Or(opts.blockSize, 16.0);
      random := Or(opts.random, false);
      hasWalls := opts.walls.Some?;
      walls := if opts.walls.Some? then opts.walls.value else [];
      dripTimer := 0.0;
    }

    /** `init`: a missing grid becomes all empty; a random level is then
        filled from the noise field. */
    method Init(noise: (real, real) -> real)
      requires Valid()
      modifies this
      ensures Valid() && hasWalls && dripTimer == old(dripTimer)
      ensures !random ==> walls == if old(hasWalls) then old(walls) else seq(w * h, _ => Empty)
      ensures random ==> forall x, y :: InGrid(w, h, x, y) ==>
                WallAt(walls, w, h, x, y) == NoiseCell(noise, x, y)
    {
      if !hasWalls {
        walls := seq(w * h, _ => Empty);
        hasWalls := true;
      }
      if random {
        InitRandom(noise);
      }
    }

    /** `initRandom`: a cell is a wall where both noise samples are high
        enough, and empty elsewhere. */
    method InitRandom(noise: (real, real) -> real)
      requires Valid() && hasWalls
      modifies this
      ensures Valid() && hasWalls && dripTimer == old(dripTimer)
      ensures forall x, y :: InGrid(w, h, x, y) ==> WallAt(walls, w, h, x, y) == NoiseCell(noise, x, y)
    {
      var y := 0;
      while y < h
        invariant 0 <= y <= h && Valid() && hasWalls && dripTimer == old(dripTimer)
        invariant forall x', y' :: InGrid(w, h, x', y') && y' < y ==>
                    WallAt(walls, w, h, x', y') == NoiseCell(noise, x', y')
      {
        var x := 0;
        while x < w
          invariant 0 <= x <= w && Valid() && hasWalls && dripTimer == old(dripTimer)
          invariant forall x', y' :: InGrid(w, h, x', y') && (y' < y || (y' == y && x' < x)) ==>
                      WallAt(walls, w, h, x', y') == NoiseCell(noise, x', y')
        {
          IndexInGrid(w, h, x, y);
          ghost var before := walls;
          walls := walls[y * w + x := NoiseCell(noise, x, y)];
          forall x', y' | InGrid(w, h, x', y') && (y' < y || (y' == y && x' < x + 1))
            ensures WallAt(walls, w, h, x', y') == NoiseCell(noise, x', y')
          {
            IndexInGrid(w, h, x', y');
            IndexInjective(w, x, y, x', y');
          }
          x := x + 1;
        }
        y := y + 1;
      }
    }

    /** `destroy`: the grid is dropped. */
    method Destroy()
      modifies this
      ensures !hasWalls && dripTimer == old(dripTimer)
    {
      hasWalls := false;
      walls := [];
    }

    /** `update`: the drip timer counts down and then sticks at -1. */
    method Update(dT: real)
      modifies this
      ensures walls == old(walls) && hasWalls == old(hasWalls)
      ensures old(dripTimer) < 0.0 ==> dripTimer == -1.0
      ensures old(dripTimer) >= 0.0 ==> dripTimer == old(dripTimer) - dT
    {
      if dripTimer < 0.0 {
        dripTimer := -1.0;
      } else {
        dripTimer := dripTimer - dT;
      }
    }
  }

  /** The wall `initRandom` draws at a cell from the noise field. */
  function NoiseCell(noise: (real, real) -> real, x: int, y: int): (n: int)
    ensures n == Wall || n == Empty
    ensures n == Wall <==> noise(x as real * 0.1, y as real * 0.2) > 0.0 &&
                           noise(x as real * 0.2, y as real * 0.2) > 0.5
  {
    if noise(x as real * 0.1, y as real * 0.2) > 0.0 && noise(x as real * 0.2, y as real * 0.2) > 0.5
    then Wall else Empty
  }

  lemma IndexInjective(w: nat, x: int, y: int, x': int, y': int)
    requires 0 <= x < w && 0 <= x' < w && 0 <= y && 0 <= y'
    ensures y * w + x == y' * w + x' ==> x == x' && y == y'
  {
    if y < y' {
      MulMono(w, y + 1, y');
    } else if y' < y {
      MulMono(w, y' + 1, y);
    }
  }

  lemma MulMono(w: nat, a: int, b: int)
    requires a <= b
    ensures a * w <= b * w
  {
  }
}
