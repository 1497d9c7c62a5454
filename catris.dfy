// Catris: a falling-cats puzzle on a byte grid of W x H tiles. The grid is
// read and written through bounds-checked cell accessors; a piece is one cat
// over two cells, either lying (CatR, CatL) or standing (CatD above CatU).

module Catris {

  const None := 0
  const WallCell := 1
  const CatU := 2
  const CatD := 3
  const CatL := 4
  const CatR := 5
  const TileSize := 16

  /** Where `spawnBlock` puts the cursor. */
  const SpawnX := 4
  const SpawnY := 0

  /** The most `spaceBar` lets a piece fall in one press. */
  const MaxDrop := 256

  predicate InGrid(w: nat, h: nat, x: int, y: int)
  {
    0 <= x < w && 0 <= y < h
  }

  lemma IndexInGrid(w: nat, h: nat, x: int, y: int)
    requires InGrid(w, h, x, y)
    ensures 0 <= y * w + x < w * h
  {
    assert y * w <= (h - 1) * w;
  }

  /** Row-major cells are distinct for distinct coordinates. */
  lemma IndexInjective(w: nat, x: int, y: int, x': int, y': int)
    requires 0 <= x < w && 0 <= x' < w && 0 <= y && 0 <= y'
    ensures y * w + x == y' * w + x' ==> x == x' && y == y'
  {
    if y < y' {
      MulMono(w, y + 1, y');
    } else if y' < y {
      MulMono(w, y' + 1, y);
    }
  }

  lemma MulMono(w: nat, a: int, b: int)
    requires a <= b
    ensures a * w <= b * w
  {
  }

  /** `getGrid`: the cell's byte, NONE off the grid. */
  function Get(g: seq<int>, w: nat, h: nat, x: int, y: int): (n: int)
    requires |g| == w * h
  {
    if InGrid(w, h, x, y) then
      IndexInGrid(w, h, x, y);
      g[y * w + x]
    else None
  }

  /** `setGrid`: writes the cell; a write off the grid is dropped. */
  function Put(g: seq<int>, w: nat, h: nat, x: int, y: int, n: int): (r: seq<int>)
    requires |g| == w * h
    ensures |r| == w * h
  {
    if InGrid(w, h, x, y) then
      IndexInGrid(w, h, x, y);
      g[y * w + x := n]
    else g
  }

  /** Reading after a write: the written cell answers the new byte, every
      other cell (and every cell when the write fell off the grid) its old
      one. */
  lemma GetPut(g: seq<int>, w: nat, h: nat, x: int, y: int, n: int, x': int, y': int)
    requires |g| == w * h
    ensures Get(Put(g, w, h, x, y, n), w, h, x', y')
         == if InGrid(w, h, x, y) && x' == x && y' == y then n else Get(g, w, h, x', y')
  {
    if InGrid(w, h, x, y) && InGrid(w, h, x', y') {
      IndexInGrid(w, h, x, y);
      IndexInGrid(w, h, x', y');
      IndexInjective(w, x, y, x', y');
    }
  }

  /** Two grids that agree on every cell are the same grid. */
  lemma GridExt(g: seq<int>, g': seq<int>, w: nat, h: nat)
    requires |g| == w * h && |g'| == w * h
    requires forall x, y :: InGrid(w, h, x, y) ==> Get(g, w, h, x, y) == Get(g', w, h, x, y)
    ensures g == g'
  {
    forall i | 0 <= i < |g|
      ensures g[i] == g'[i]
    {
      var x, y := i % w, i / w;
      assert i == y * w + x;
      if h <= y {
        MulMono(w, h, y);
      }
      assert Get(g, w, h, x, y) == Get(g', w, h, x, y);
    }
  }

  /** `g'` is `g` with the cells named in `m` overwritten by the bytes `m`
      gives them; keys off the grid are ignored. */
  predicate Changes(g: seq<int>, g': seq<int>, w: nat, h: nat, m: map<(int, int), int>)
    requires |g| == w * h && |g'| == w * h
  {
    forall x, y :: 0 <= x < w && 0 <= y < h ==>
      Get(g', w, h, x, y) == if (x, y) in m then m[(x, y)] else Get(g, w, h, x, y)
  }

  lemma ChangesNone(g: seq<int>, w: nat, h: nat)
    requires |g| == w * h
    ensures Changes(g, g, w, h, map[])
  {
  }

  /** One more write extends the description of the changes. */
  lemma PutChanges(g0: seq<int>, g: seq<int>, w: nat, h: nat, m: map<(int, int), int>,
                   x: int, y: int, n: int)
    requires |g0| == w * h && |g| == w * h && Changes(g0, g, w, h, m)
    ensures Changes(g0, Put(g, w, h, x, y, n), w, h, m[(x, y) := n])
  {
    forall x', y' | InGrid(w, h, x', y')
      ensures Get(Put(g, w, h, x, y, n), w, h, x', y')
           == if (x', y') in m[(x, y) := n] then m[(x, y) := n][(x', y')] else Get(g0, w, h, x', y')
    {
      GetPut(g, w, h, x, y, n, x', y');
    }
  }

  /** The outcome of moving the piece at the cursor: the new grid, the new
      cursor, and whether the move was refused. */
  datatype Shift = Shift(grid: seq<int>, cx: int, cy: int, hit: bool)

  /** `moveBlockLeft` on the grid: refused unless the cell left of the cursor
      is empty. */
  function Left(g: seq<int>, w: nat, h: nat, cx: int, cy: int): (r: Shift)
    requires |g| == w * h
    ensures |r.grid| == w * h && r.cy == cy
    ensures r.hit <==> Get(g, w, h, cx - 1, cy) != None
    ensures r.hit ==> r.grid == g && r.cx == cx
    ensures !r.hit ==> r.cx == cx - 1
  {
    var a := Get(g, w, h, cx, cy);
    if Get(g, w, h, cx - 1, cy) == None then
      var g1 := Put(g, w, h, cx - 1, cy, a);
      var g2 := if a == CatR then Put(Put(g1, w, h, cx, cy, CatL), w, h, cx + 1, cy, None)
                else Put(g1, w, h, cx, cy, None);
      var g3 := if a == CatU then Put(Put(g2, w, h, cx, cy - 1, None), w, h, cx - 1, cy - 1, CatD)
                else g2;
      Shift(g3, cx - 1, cy, false)
    else Shift(g, cx, cy, true)
  }

  /** `moveBlockRight` on the grid: allowed when the cell right of the
      cursor is empty, or, for a lying cat, the cell right of its tail. */
  function Right(g: seq<int>, w: nat, h: nat, cx: int, cy: int): (r: Shift)
    requires |g| == w * h
    ensures |r.grid| == w * h && r.cy == cy
    ensures r.hit <==> !(Get(g, w, h, cx + 1, cy) == None ||
                         (Get(g, w, h, cx, cy) == CatR && Get(g, w, h, cx + 2, cy) == None))
    ensures r.hit ==> r.grid == g && r.cx == cx
    ensures !r.hit ==> r.cx == cx + 1
  {
    var a := Get(g, w, h, cx, cy);
    if Get(g, w, h, cx + 1, cy) == None || (a == CatR && Get(g, w, h, cx + 2, cy) == None) then
      var g1 := Put(Put(g, w, h, cx + 1, cy, a), w, h, cx, cy, None);
      var g2 := if a == CatR then Put(g1, w, h, cx + 2, cy, CatL)
                else if a == CatU then Put(Put(g1, w, h, cx, cy - 1, None), w, h, cx + 1, cy - 1, CatD)
                else g1;
      Shift(g2, cx + 1, cy, false)
    else Shift(g, cx, cy, true)
  }

  /** Whether `moveBlockDown` finds the piece resting: something under the
      cursor, or under the tail of a lying cat. */
  predicate Resting(g: seq<int>, w: nat, h: nat, cx: int, cy: int)
    requires |g| == w * h
  {
    Get(g, w, h, cx, cy + 1) != None ||
    (Get(g, w, h, cx, cy) == CatR && Get(g, w, h, cx + 1, cy + 1) != None)
  }

  /** `moveBlockDown`'s fall by one row, for a piece that is not resting. */
  function Fall(g: seq<int>, w: nat, h: nat, cx: int, cy: int): (r: Shift)
    requires |g| == w * h
    ensures |r.grid| == w * h && r.cx == cx
    ensures r.hit <==> Resting(g, w, h, cx, cy)
    ensures r.hit ==> r.grid == g && r.cy == cy
    ensures !r.hit ==> r.cy == cy + 1
  {
    var a := Get(g, w, h, cx, cy);
    if Resting(g, w, h, cx, cy) then Shift(g, cx, cy, true)
    else
      var g1 := Put(g, w, h, cx, cy + 1, a);
      var g2 := if a == CatU then Put(Put(g1, w, h, cx, cy, CatD), w, h, cx, cy - 1, None)
                else Put(g1, w, h, cx, cy, None);
      var g3 := if a == CatR then Put(Put(g2, w, h, cx + 1, cy + 1, CatL), w, h, cx + 1, cy, None)
                else g2;
      Shift(g3, cx, cy + 1, false)
  }

  /** A lying cat: head `CatR` at `(x, y)`, tail `CatL` to its right. */
  predicate Lying(g: seq<int>, w: nat, h: nat, x: int, y: int)
    requires |g| == w * h
  {
    Get(g, w, h, x, y) == CatR && Get(g, w, h, x + 1, y) == CatL
  }

  /** A standing cat: `CatU` at `(x, y)`, `CatD` above it unless it is still
      entering at the top row. */
  predicate Standing(g: seq<int>, w: nat, h: nat, x: int, y: int)
    requires |g| == w * h
  {
    Get(g, w, h, x, y) == CatU && (y > 0 ==> Get(g, w, h, x, y - 1) == CatD)
  }

  /** A lying cat with room on its left moves one cell left: head and tail
      shift, the old tail cell is emptied, nothing else changes. */
  lemma LeftLying(g: seq<int>, w: nat, h: nat, cx: int, cy: int)
    requires |g| == w * h && Lying(g, w, h, cx, cy)
    requires InGrid(w, h, cx - 1, cy) && InGrid(w, h, cx + 1, cy)
    requires Get(g, w, h, cx - 1, cy) == None
    ensures !Left(g, w, h, cx, cy).hit
    ensures Changes(g, Left(g, w, h, cx, cy).grid, w, h,
                    map[(cx - 1, cy) := CatR, (cx, cy) := CatL, (cx + 1, cy) := None])
    ensures Lying(Left(g, w, h, cx, cy).grid, w, h, cx - 1, cy)
  {
    var g1 := Put(g, w, h, cx - 1, cy, CatR);
    var g2 := Put(g1, w, h, cx, cy, CatL);
    ChangesNone(g, w, h);
    PutChanges(g, g, w, h, map[], cx - 1, cy, CatR);
    PutChanges(g, g1, w, h, map[(cx - 1, cy) := CatR], cx, cy, CatL);
    PutChanges(g, g2, w, h, map[(cx - 1, cy) := CatR, (cx, cy) := CatL], cx + 1, cy, None);
  }

  /** A standing cat with room left of its foot moves one cell left; the
      cell left of its head is written without being looked at. */
  lemma LeftStanding(g: seq<int>, w: nat, h: nat, cx: int, cy: int)
    requires |g| == w * h && Standing(g, w, h, cx, cy)
    requires InGrid(w, h, cx - 1, cy) && Get(g, w, h, cx - 1, cy) == None
    ensures !Left(g, w, h, cx, cy).hit
    ensures Changes(g, Left(g, w, h, cx, cy).grid, w, h,
                    map[(cx - 1, cy) := CatU, (cx, cy) := None, (cx, cy - 1) := None, (cx - 1, cy - 1) := CatD])
    ensures Standing(Left(g, w, h, cx, cy).grid, w, h, cx - 1, cy)
  {
    var g1 := Put(g, w, h, cx - 1, cy, CatU);
    var g2 := Put(g1, w, h, cx, cy, None);
    var g3 := Put(g2, w, h, cx, cy - 1, None);
    ChangesNone(g, w, h);
    PutChanges(g, g, w, h, map[], cx - 1, cy, CatU);
    PutChanges(g, g1, w, h, map[(cx - 1, cy) := CatU], cx, cy, None);
    PutChanges(g, g2, w, h, map[(cx - 1, cy) := CatU, (cx, cy) := None], cx, cy - 1, None);
    PutChanges(g, g3, w, h, map[(cx - 1, cy) := CatU, (cx, cy) := None, (cx, cy - 1) := None],
               cx - 1, cy - 1, CatD);
  }

  /** A lying cat with room right of its tail moves one cell right. */
  lemma RightLying(g: seq<int>, w: nat, h: nat, cx: int, cy: int)
    requires |g| == w * h && Lying(g, w, h, cx, cy)
    requires InGrid(w, h, cx, cy) && InGrid(w, h, cx + 2, cy)
    requires Get(g, w, h, cx + 2, cy) == None
    ensures !Right(g, w, h, cx, cy).hit
    ensures Changes(g, Right(g, w, h, cx, cy).grid, w, h,
                    map[(cx + 1, cy) := CatR, (cx, cy) := None, (cx + 2, cy) := CatL])
    ensures Lying(Right(g, w, h, cx, cy).grid, w, h, cx + 1, cy)
  {
    var g1 := Put(g, w, h, cx + 1, cy, CatR);
    var g2 := Put(g1, w, h, cx, cy, None);
    ChangesNone(g, w, h);
    PutChanges(g, g, w, h, map[], cx + 1, cy, CatR);
    PutChanges(g, g1, w, h, map[(cx + 1, cy) := CatR], cx, cy, None);
    PutChanges(g, g2, w, h, map[(cx + 1, cy) := CatR, (cx, cy) := None], cx + 2, cy, CatL);
  }

  /** A standing cat with room right of its foot moves one cell right; the
      cell right of its head is written without being looked at. */
  lemma RightStanding(g: seq<int>, w: nat, h: nat, cx: int, cy: int)
    requires |g| == w * h && Standing(g, w, h, cx, cy)
    requires InGrid(w, h, cx + 1, cy) && Get(g, w, h, cx + 1, cy) == None
    ensures !Right(g, w, h, cx, cy).hit
    ensures Changes(g, Right(g, w, h, cx, cy).grid, w, h,
                    map[(cx + 1, cy) := CatU, (cx, cy) := None, (cx, cy - 1) := None, (cx + 1, cy - 1) := CatD])
    ensures Standing(Right(g, w, h, cx, cy).grid, w, h, cx + 1, cy)
  {
    var g1 := Put(g, w, h, cx + 1, cy, CatU);
    var g2 := Put(g1, w, h, cx, cy, None);
    var g3 := Put(g2, w, h, cx, cy - 1, None);
    ChangesNone(g, w, h);
    PutChanges(g, g, w, h, map[], cx + 1, cy, CatU);
    PutChanges(g, g1, w, h, map[(cx + 1, cy) := CatU], cx, cy, None);
    PutChanges(g, g2, w, h, map[(cx + 1, cy) := CatU, (cx, cy) := None], cx, cy - 1, None);
    PutChanges(g, g3, w, h, map[(cx + 1, cy) := CatU, (cx, cy) := None, (cx, cy - 1) := None],
               cx + 1, cy - 1, CatD);
  }

  /** A lying cat with both cells below it empty falls one row. */
  lemma FallLying(g: seq<int>, w: nat, h: nat, cx: int, cy: int)
    requires |g| == w * h && Lying(g, w, h, cx, cy)
    requires InGrid(w, h, cx, cy + 1) && InGrid(w, h, cx + 1, cy + 1)
    requires Get(g, w, h, cx, cy + 1) == None && Get(g, w, h, cx + 1, cy + 1) == None
    ensures !Fall(g, w, h, cx, cy).hit
    ensures Changes(g, Fall(g, w, h, cx, cy).grid, w, h,
                    map[(cx, cy + 1) := CatR, (cx, cy) := None, (cx + 1, cy + 1) := CatL, (cx + 1, cy) := None])
    ensures Lying(Fall(g, w, h, cx, cy).grid, w, h, cx, cy + 1)
  {
    var g1 := Put(g, w, h, cx, cy + 1, CatR);
    var g2 := Put(g1, w, h, cx, cy, None);
    var g3 := Put(g2, w, h, cx + 1, cy + 1, CatL);
    ChangesNone(g, w, h);
    PutChanges(g, g, w, h, map[], cx, cy + 1, CatR);
    PutChanges(g, g1, w, h, map[(cx, cy + 1) := CatR], cx, cy, None);
    PutChanges(g, g2, w, h, map[(cx, cy + 1) := CatR, (cx, cy) := None], cx + 1, cy + 1, CatL);
    PutChanges(g, g3, w, h, map[(cx, cy + 1) := CatR, (cx, cy) := None, (cx + 1, cy + 1) := CatL],
               cx + 1, cy, None);
  }

  /** A standing cat with the cell below its foot empty falls one row. */
  lemma FallStanding(g: seq<int>, w: nat, h: nat, cx: int, cy: int)
    requires |g| == w * h && Standing(g, w, h, cx, cy)
    requires InGrid(w, h, cx, cy + 1) && Get(g, w, h, cx, cy + 1) == None
    ensures !Fall(g, w, h, cx, cy).hit
    ensures Changes(g, Fall(g, w, h, cx, cy).grid, w, h,
                    map[(cx, cy + 1) := CatU, (cx, cy) := CatD, (cx, cy - 1) := None])
    ensures Standing(Fall(g, w, h, cx, cy).grid, w, h, cx, cy + 1)
  {
    var g1 := Put(g, w, h, cx, cy + 1, CatU);
    var g2 := Put(g1, w, h, cx, cy, CatD);
    ChangesNone(g, w, h);
    PutChanges(g, g, w, h, map[], cx, cy + 1, CatU);
    PutChanges(g, g1, w, h, map[(cx, cy + 1) := CatU], cx, cy, CatD);
    PutChanges(g, g2, w, h, map[(cx, cy + 1) := CatU, (cx, cy) := CatD], cx, cy - 1, None);
  }

  /** Every cell of row `y` between the side walls is occupied. */
  predicate Complete(g: seq<int>, w: nat, h: nat, y: int)
    requires |g| == w * h
  {
    forall x :: 1 <= x < w - 1 ==> Get(g, w, h, x, y) != None
  }

  /** A cell after `checkForCompleteRows`: emptied when it lies between the
      side walls of a complete row above the bottom row, kept otherwise. */
  function ClearedCell(g: seq<int>, w: nat, h: nat, x: int, y: int): int
    requires |g| == w * h
  {
    if 1 <= x < w - 1 && y < h - 1 && Complete(g, w, h, y) then None else Get(g, w, h, x, y)
  }

  predicate Cleared(g: seq<int>, g': seq<int>, w: nat, h: nat)
    requires |g| == w * h && |g'| == w * h
  {
    forall x, y :: 0 <= x < w && 0 <= y < h ==> Get(g', w, h, x, y) == ClearedCell(g, w, h, x, y)
  }

  /** After clearing, no row above the bottom is complete (on a grid with
      room between its side walls). */
  lemma ClearedLeavesNoCompleteRow(g: seq<int>, g': seq<int>, w: nat, h: nat, y: int)
    requires |g| == w * h && |g'| == w * h && Cleared(g, g', w, h)
    requires w >= 3 && 0 <= y < h - 1
    ensures !Complete(g', w, h, y)
  {
    if Complete(g, w, h, y) {
      assert Get(g', w, h, 1, y) == None;
    } else {
      var x :| 1 <= x < w - 1 && Get(g, w, h, x, y) == None;
      assert Get(g', w, h, x, y) == None;
    }
  }

  /** Clearing never touches the side walls or the bottom row, and never
      fills a cell: every cell keeps its byte or becomes empty. */
  lemma ClearedKeepsFrame(g: seq<int>, g': seq<int>, w: nat, h: nat, x: int, y: int)
    requires |g| == w * h && |g'| == w * h && Cleared(g, g', w, h)
    requires InGrid(w, h, x, y)
    ensures x == 0 || x == w - 1 || y == h - 1 ==> Get(g', w, h, x, y) == Get(g, w, h, x, y)
    ensures Get(g', w, h, x, y) == Get(g, w, h, x, y) || Get(g', w, h, x, y) == None
  {
  }

  /** The piece `spawnBlock` draws: `Math.floor(Math.random() * 2)`. */
  function Rand(u: real): (r: int)
    requires 0.0 <= u < 1.0
    ensures r == 0 || r == 1
    ensures r == 0 <==> u < 0.5
  {
    (u * 2.0).Floor
  }

  /** The cells `spawnBlock` writes: a lying cat at (4, 0) and (5, 0), or a
      standing cat at (4, 0) whose head at (4, -1) is off the grid. */
  function SpawnCells(rand: int): map<(int, int), int>
  {
    if rand == 0 then map[(SpawnX, SpawnY) := CatR, (SpawnX + 1, SpawnY) := CatL]
    else map[(SpawnX, SpawnY) := CatU, (SpawnX, SpawnY - 1) := CatD]
  }

  /** A freshly spawned piece is a whole lying cat or a standing cat entering
      at the top, on a grid at least six cells wide. */
  lemma SpawnedPiece(g: seq<int>, g': seq<int>, w: nat, h: nat, rand: int)
    requires |g| == w * h && |g'| == w * h && Changes(g, g', w, h, SpawnCells(rand))
    requires w >= 6 && h >= 1
    ensures rand == 0 ==> Lying(g', w, h, SpawnX, SpawnY)
    ensures rand != 0 ==> Standing(g', w, h, SpawnX, SpawnY)
  {
    assert Get(g', w, h, SpawnX, SpawnY) == SpawnCells(rand)[(SpawnX, SpawnY)];
    if rand == 0 {
      assert Get(g', w, h, SpawnX + 1, SpawnY) == SpawnCells(rand)[(SpawnX + 1, SpawnY)];
    }
  }

  /** The frame `init` draws: the bottom row and both side columns. */
  function WallAt(w: nat, h: nat, x: int, y: int): int
  {
    if y == h - 1 || x == 0 || x == w - 1 then WallCell else None
  }

  /** The cats `init` places on the floor: one lying at (1, H-2), one
      standing at (4, H-2). */
  function FloorCats(h: nat): map<(int, int), int>
  {
    map[(1, h - 2) := CatR, (2, h - 2) := CatL, (4, h - 2) := CatU, (4, h - 3) := CatD]
  }

  /** The cats `init` places on the floor, then the spawned piece. */
  function InitPieces(h: nat, rand: int): map<(int, int), int>
  {
    FloorCats(h) + SpawnCells(rand)
  }

  /** A cell right after `init`. */
  function InitCell(w: nat, h: nat, rand: int, x: int, y: int): int
  {
    if (x, y) in InitPieces(h, rand) then InitPieces(h, rand)[(x, y)] else WallAt(w, h, x, y)
  }

  /** On a grid at least seven wide and two high, nothing `init` places
      after the frame lands on the frame: the bottom row and the side columns
      are walls. */
  lemma InitWalls(w: nat, h: nat, rand: int, x: int, y: int)
    requires w >= 7 && h >= 2 && InGrid(w, h, x, y)
    ensures y == h - 1 || x == 0 || x == w - 1 ==> InitCell(w, h, rand, x, y) == WallCell
  {
    if y == h - 1 || x == 0 || x == w - 1 {
      assert (x, y) !in InitPieces(h, rand);
    }
  }

  lemma EmptyGrid(g: seq<int>, w: nat, h: nat)
    requires |g| == w * h && forall i :: 0 <= i < |g| ==> g[i] == None
    ensures forall x, y :: 0 <= x < w && 0 <= y < h ==> Get(g, w, h, x, y) == None
  {
    forall x, y | 0 <= x < w && 0 <= y < h
      ensures Get(g, w, h, x, y) == None
    {
      IndexInGrid(w, h, x, y);
    }
  }

  /** The frame, then the floor cats, then the spawned piece make the grid
      `init` leaves. */
  lemma InitGrid(walls: seq<int>, cats: seq<int>, g: seq<int>, w: nat, h: nat, rand: int)
    requires |walls| == w * h && |cats| == w * h && |g| == w * h
    requires forall x, y :: 0 <= x < w && 0 <= y < h ==> Get(walls, w, h, x, y) == WallAt(w, h, x, y)
    requires Changes(walls, cats, w, h, FloorCats(h)) && Changes(cats, g, w, h, SpawnCells(rand))
    ensures forall x, y :: 0 <= x < w && 0 <= y < h ==> Get(g, w, h, x, y) == InitCell(w, h, rand, x, y)
  {
    ChangesThen(walls, cats, g, w, h, FloorCats(h), SpawnCells(rand));
  }

  /** Clearing the rows of `g0` to get `g1`, then spawning a piece into
      `g1`, leaves the landed grid. */
  lemma Landing(g0: seq<int>, g1: seq<int>, g: seq<int>, w: nat, h: nat, rand: int)
    requires |g0| == w * h && |g1| == w * h && |g| == w * h
    requires Cleared(g0, g1, w, h) && Changes(g1, g, w, h, SpawnCells(rand))
    ensures forall x, y :: 0 <= x < w && 0 <= y < h ==> Get(g, w, h, x, y) == LandedCell(g0, w, h, rand, x, y)
  {
  }

  /** Two rounds of changes compose; the later round wins on shared cells. */
  lemma ChangesThen(g0: seq<int>, g1: seq<int>, g2: seq<int>, w: nat, h: nat,
                    m1: map<(int, int), int>, m2: map<(int, int), int>)
    requires |g0| == w * h && |g1| == w * h && |g2| == w * h
    requires Changes(g0, g1, w, h, m1) && Changes(g1, g2, w, h, m2)
    ensures Changes(g0, g2, w, h, m1 + m2)
  {
  }

  /** The grid after a landing: the spawned piece over the cleared rows. */
  function LandedCell(g: seq<int>, w: nat, h: nat, rand: int, x: int, y: int): int
    requires |g| == w * h
  {
    if (x, y) in SpawnCells(rand) then SpawnCells(rand)[(x, y)] else ClearedCell(g, w, h, x, y)
  }

  /** One `moveBlockDown` from grid `g0` and cursor `(cx0, cy0)`, reaching
      grid `g` and cursor `(cx, cy)`: a piece that rests is left where it
      is, complete rows are cleared and a new piece spawns; any other piece
      falls one row. */
  predicate Down(g0: seq<int>, w: nat, h: nat, cx0: int, cy0: int, rand: int,
                 g: seq<int>, cx: int, cy: int, hit: bool)
    requires |g0| == w * h && |g| == w * h
  {
    && (hit <==> Resting(g0, w, h, cx0, cy0))
    && (!hit ==> Shift(g, cx, cy, false) == Fall(g0, w, h, cx0, cy0))
    && (hit ==> cx == SpawnX && cy == SpawnY &&
                forall x, y :: 0 <= x < w && 0 <= y < h ==>
                  Get(g, w, h, x, y) == LandedCell(g0, w, h, rand, x, y))
  }

  /** Up to `n` falls, stopping at the first one that finds the piece
      resting; the result is that resting state with `hit` set, or the state
      after `n` falls. */
  function Drop(g: seq<int>, w: nat, h: nat, cx: int, cy: int, n: nat): (r: Shift)
    requires |g| == w * h
    ensures |r.grid| == w * h
    decreases n
  {
    if n == 0 then Shift(g, cx, cy, false)
    else
      var f := Fall(g, w, h, cx, cy);
      if f.hit then f else Drop(f.grid, w, h, f.cx, f.cy, n - 1)
  }

  /** A drop ends on a resting piece, or after exactly `n` rows straight
      down. */
  lemma {:induction false} DropEnds(g: seq<int>, w: nat, h: nat, cx: int, cy: int, n: nat)
    requires |g| == w * h
    ensures var r := Drop(g, w, h, cx, cy, n);
            r.cx == cx && (r.hit ==> Resting(r.grid, w, h, r.cx, r.cy) && cy <= r.cy < cy + n)
                       && (!r.hit ==> r.cy == cy + n)
    decreases n
  {
    if n > 0 {
      var f := Fall(g, w, h, cx, cy);
      if !f.hit {
        DropEnds(f.grid, w, h, f.cx, f.cy, n - 1);
      }
    }
  }

  /** The game. `grid`, the cursor and the fall timer are what the methods
      update; `w` and `h` are fixed by the canvas. */
  class Game {
    const w: nat
    const h: nat
    var grid: array<int>
    var cursorX: int
    var cursorY: int
    var toNextDown: real
    var paused: bool

    /** The grid has been allocated by `init`. */
    predicate Valid()
      reads this
    {
      grid.Length == w * h
    }

    /** The grid is measured in tiles of the canvas; the game starts
        paused and without a grid until `init`. */
    constructor (canvasWidth: nat, canvasHeight: nat)
      ensures w == canvasWidth / TileSize && h == canvasHeight / TileSize
      ensures paused && grid.Length == 0
    {
      w := canvasWidth / TileSize;
      h := canvasHeight / TileSize;
      paused := true;
      grid := new int[0];
    }

    method GetGrid(x: int, y: int) returns (n: int)
      requires Valid()
      ensures n == Get(grid[..], w, h, x, y)
    {
      if 0 <= x && 0 <= y && x < w && y < h {
        IndexInGrid(w, h, x, y);
        n := grid[y * w + x];
      } else {
        n := None;
      }
    }

    method SetGrid(x: int, y: int, n: int)
      requires Valid()
      modifies grid
      ensures grid[..] == Put(old(grid[..]), w, h, x, y, n)
    {
      if 0 <= x && 0 <= y && x < w && y < h {
        IndexInGrid(w, h, x, y);
        grid[y * w + x] := n;
      }
    }

    /** `init`: a fresh grid framed by walls, two cats resting on the floor,
        a spawned piece and a full second until the next fall. */
    method Init(u: real)
      requires 0.0 <= u < 1.0
      modifies this
      ensures Valid() && fresh(grid) && paused == old(paused)
      ensures forall x, y :: 0 <= x < w && 0 <= y < h ==>
                Get(grid[..], w, h, x, y) == InitCell(w, h, Rand(u), x, y)
      ensures cursorX == SpawnX && cursorY == SpawnY && toNextDown == 1.0
    {
      grid := new int[w * h](_ => None);
      EmptyGrid(grid[..], w, h);
      DrawFloor();
      DrawSides();
      ghost var walls := grid[..];
      PlaceCats();
      ghost var cats := grid[..];
      SpawnBlock(u);
      InitGrid(walls, cats, grid[..], w, h, Rand(u));
      toNextDown := 1.0;
    }

    /** The bottom row of an empty grid becomes wall. */
    method DrawFloor()
      requires Valid()
      requires forall x, y :: 0 <= x < w && 0 <= y < h ==> Get(grid[..], w, h, x, y) == None
      modifies grid
      ensures forall x, y :: 0 <= x < w && 0 <= y < h ==>
                Get(grid[..], w, h, x, y) == if y == h - 1 then WallCell else None
    {
      var x := 0;
      while x < w
        invariant 0 <= x <= w
        invariant forall x', y' :: 0 <= x' < w && 0 <= y' < h ==>
                    Get(grid[..], w, h, x', y') == if y' == h - 1 && x' < x then WallCell else None
      {
        ghost var g := grid[..];
        SetGrid(x, h - 1, WallCell);
        forall x', y' | 0 <= x' < w && 0 <= y' < h
          ensures Get(grid[..], w, h, x', y') == if y' == h - 1 && x' < x + 1 then WallCell else None
        {
          GetPut(g, w, h, x, h - 1, WallCell, x', y');
        }
        x := x + 1;
      }
    }

    /** Both side columns above the floor become wall. */
    method DrawSides()
      requires Valid()
      requires forall x, y :: 0 <= x < w && 0 <= y < h ==>
                 Get(grid[..], w, h, x, y) == if y == h - 1 then WallCell else None
      modifies grid
      ensures forall x, y :: 0 <= x < w && 0 <= y < h ==> Get(grid[..], w, h, x, y) == WallAt(w, h, x, y)
    {
      var y := 0;
      while y < h - 1
        invariant 0 <= y && (y <= h - 1 || y == 0)
        invariant forall x', y' :: 0 <= x' < w && 0 <= y' < h ==>
                    Get(grid[..], w, h, x', y') ==
                    if y' == h - 1 || ((x' == 0 || x' == w - 1) && y' < y) then WallCell else None
      {
        ghost var g := grid[..];
        SetGrid(0, y, WallCell);
        ghost var g' := grid[..];
        SetGrid(w - 1, y, WallCell);
        forall x', y' | 0 <= x' < w && 0 <= y' < h
          ensures Get(grid[..], w, h, x', y') ==
                  if y' == h - 1 || ((x' == 0 || x' == w - 1) && y' < y + 1) then WallCell else None
        {
          GetPut(g, w, h, 0, y, WallCell, x', y');
          GetPut(g', w, h, w - 1, y, WallCell, x', y');
        }
        y := y + 1;
      }
    }

    /** The two cats `init` puts on the floor. */
    method PlaceCats()
      requires Valid()
      modifies grid
      ensures Changes(old(grid[..]), grid[..], w, h, FloorCats(h))
    {
      ghost var g0 := grid[..];
      ChangesNone(g0, w, h);
      SetGrid(1, h - 2, CatR);
      PutChanges(g0, g0, w, h, map[], 1, h - 2, CatR);
      ghost var g1 := grid[..];
      SetGrid(2, h - 2, CatL);
      PutChanges(g0, g1, w, h, map[(1, h - 2) := CatR], 2, h - 2, CatL);
      ghost var g2 := grid[..];
      SetGrid(4, h - 2, CatU);
      PutChanges(g0, g2, w, h, map[(1, h - 2) := CatR, (2, h - 2) := CatL], 4, h - 2, CatU);
      ghost var g3 := grid[..];
      SetGrid(4, h - 3, CatD);
      PutChanges(g0, g3, w, h, map[(1, h - 2) := CatR, (2, h - 2) := CatL, (4, h - 2) := CatU],
                 4, h - 3, CatD);
    }

    /** `spawnBlock`: the cursor goes to (4, 0) and the drawn piece is
        written there. */
    method SpawnBlock(u: real)
      requires Valid() && 0.0 <= u < 1.0
      modifies this, grid
      ensures Valid() && grid == old(grid)
      ensures Changes(old(grid[..]), grid[..], w, h, SpawnCells(Rand(u)))
      ensures cursorX == SpawnX && cursorY == SpawnY
      ensures toNextDown == old(toNextDown) && paused == old(paused)
    {
      ghost var g0 := grid[..];
      ChangesNone(g0, w, h);
      cursorY := 0;
      cursorX := 4;
      var rand := (u * 2.0).Floor;
      if rand == 0 {
        SetGrid(cursorX, cursorY, CatR);
        PutChanges(g0, g0, w, h, map[], SpawnX, SpawnY, CatR);
        ghost var g1 := grid[..];
        SetGrid(cursorX + 1, cursorY, CatL);
        PutChanges(g0, g1, w, h, map[(SpawnX, SpawnY) := CatR], SpawnX + 1, SpawnY, CatL);
      } else {
        SetGrid(cursorX, cursorY, CatU);
        PutChanges(g0, g0, w, h, map[], SpawnX, SpawnY, CatU);
        ghost var g1 := grid[..];
        SetGrid(cursorX, cursorY - 1, CatD);
        PutChanges(g0, g1, w, h, map[(SpawnX, SpawnY) := CatU], SpawnX, SpawnY - 1, CatD);
      }
    }
  
    /** `moveBlockLeft`: the move `Left` describes, returning whether it was
        refused. */
    method MoveBlockLeft() returns (hit: bool)
      requires Valid()
      modifies this, grid
      ensures Valid() && grid == old(grid) && toNextDown == old(toNextDown) && paused == old(paused)
      ensures Shift(grid[..], cursorX, cursorY, hit) == Left(old(grid[..]), w, h, old(cursorX), old(cursorY))
    {
      var a := GetGrid(cursorX, cursorY);
      var l := GetGrid(cursorX - 1, cursorY);
      if l == None {
        SetGrid(cursorX - 1, cursorY, a);
        if a == CatR {
          SetGrid(cursorX, cursorY, CatL);
          SetGrid(cursorX + 1, cursorY, None);
        } else {
          SetGrid(cursorX, cursorY, None);
        }
        if a == CatU {
          SetGrid(cursorX, cursorY - 1, None);
          SetGrid(cursorX - 1, cursorY - 1, CatD);
        }
        cursorX := cursorX - 1;
        hit := false;
      } else {
        hit := true;
      }
    }

    /** `moveBlockRight`: the move `Right` describes, returning whether it
        was refused. */
    method MoveBlockRight() returns (hit: bool)
      requires Valid()
      modifies this, grid
      ensures Valid() && grid == old(grid) && toNextDown == old(toNextDown) && paused == old(paused)
      ensures Shift(grid[..], cursorX, cursorY, hit) == Right(old(grid[..]), w, h, old(cursorX), old(cursorY))
    {
      var a := GetGrid(cursorX, cursorY);
      var r := GetGrid(cursorX + 1, cursorY);
      var r2 := GetGrid(cursorX + 2, cursorY);
      if r == None || (a == CatR && r2 == None) {
        SetGrid(cursorX + 1, cursorY, a);
        SetGrid(cursorX, cursorY, None);
        if a == CatR {
          SetGrid(cursorX + 2, cursorY, CatL);
        } else if a == CatU {
          SetGrid(cursorX, cursorY - 1, None);
          SetGrid(cursorX + 1, cursorY - 1, CatD);
        }
        cursorX := cursorX + 1;
        hit := false;
      } else {
        hit := true;
      }
    }

    /** `killRow`: the cells of row `y` between the side walls are emptied. */
    method KillRow(y: int)
      requires Valid()
      modifies grid
      ensures forall x', y' :: 0 <= x' < w && 0 <= y' < h ==>
                Get(grid[..], w, h, x', y') ==
                if y' == y && 1 <= x' < w - 1 then None else Get(old(grid[..]), w, h, x', y')
    {
      ghost var g0 := grid[..];
      var x := 1;
      while x < w - 1
        invariant 1 <= x && (x <= w - 1 || x == 1)
        invariant forall x', y' :: 0 <= x' < w && 0 <= y' < h ==>
                    Get(grid[..], w, h, x', y') ==
                    if y' == y && 1 <= x' < x then None else Get(g0, w, h, x', y')
      {
        ghost var g := grid[..];
        SetGrid(x, y, None);
        forall x', y' | 0 <= x' < w && 0 <= y' < h
          ensures Get(grid[..], w, h, x', y') ==
                  if y' == y && 1 <= x' < x + 1 then None else Get(g0, w, h, x', y')
        {
          GetPut(g, w, h, x, y, None, x', y');
        }
        x := x + 1;
      }
    }

    /** The inner loop of `checkForCompleteRows`: whether row `y` is
        complete, stopping at the first empty cell. */
    method RowComplete(y: int) returns (complete: bool)
      requires Valid()
      ensures complete == Complete(grid[..], w, h, y)
    {
      complete := true;
      var x := 1;
      while x < w - 1
        invariant 1 <= x && (x <= w - 1 || x == 1)
        invariant complete
        invariant forall x' :: 1 <= x' < x ==> Get(grid[..], w, h, x', y) != None
      {
        var n := GetGrid(x, y);
        if n == None {
          complete := false;
          break;
        }
        x := x + 1;
      }
    }

    /** `checkForCompleteRows`: every complete row above the floor is
        emptied between its side walls; nothing moves down. */
    method CheckForCompleteRows()
      requires Valid()
      modifies grid
      ensures Cleared(old(grid[..]), grid[..], w, h)
    {
      ghost var g0 := grid[..];
      var y := 0;
      while y < h - 1
        invariant 0 <= y && (y <= h - 1 || y == 0)
        invariant forall x', y' :: 0 <= x' < w && 0 <= y' < h ==>
                    Get(grid[..], w, h, x', y') ==
                    if y' < y then ClearedCell(g0, w, h, x', y') else Get(g0, w, h, x', y')
      {
        var complete := RowComplete(y);
        assert complete == Complete(g0, w, h, y) by {
          assert forall x' :: 1 <= x' < w - 1 ==> Get(grid[..], w, h, x', y) == Get(g0, w, h, x', y);
        }
        if complete {
          KillRow(y);
        }
        y := y + 1;
      }
    }

    /** `moveBlockDown`: one `Down` step; the fall timer restarts. */
    method MoveBlockDown(u: real) returns (hit: bool)
      requires Valid() && 0.0 <= u < 1.0
      modifies this, grid
      ensures Valid() && grid == old(grid) && paused == old(paused) && toNextDown == 1.0
      ensures Down(old(grid[..]), w, h, old(cursorX), old(cursorY), Rand(u), grid[..], cursorX, cursorY, hit)
    {
      ghost var g0 := grid[..];
      var a := GetGrid(cursorX, cursorY);
      var below := GetGrid(cursorX, cursorY + 1);
      var belowTail := GetGrid(cursorX + 1, cursorY + 1);
      if below != None || (a == CatR && belowTail != None) {
        CheckForCompleteRows();
        ghost var g1 := grid[..];
        SpawnBlock(u);
        Landing(g0, g1, grid[..], w, h, Rand(u));
        hit := true;
      } else {
        FallCells(a);
        hit := false;
      }
      toNextDown := 1.0;
    }

    /** The writes of a fall by one row, for a piece that is not resting. */
    method FallCells(a: int)
      requires Valid() && a == Get(grid[..], w, h, cursorX, cursorY)
      requires !Resting(grid[..], w, h, cursorX, cursorY)
      modifies this, grid
      ensures Valid() && grid == old(grid) && paused == old(paused)
      ensures Shift(grid[..], cursorX, cursorY, false) == Fall(old(grid[..]), w, h, old(cursorX), old(cursorY))
    {
      SetGrid(cursorX, cursorY + 1, a);
      if a == CatU {
        SetGrid(cursorX, cursorY, CatD);
        SetGrid(cursorX, cursorY - 1, None);
      } else {
        SetGrid(cursorX, cursorY, None);
      }
      if a == CatR {
        SetGrid(cursorX + 1, cursorY + 1, CatL);
        SetGrid(cursorX + 1, cursorY, None);
      }
      cursorY := cursorY + 1;
    }

    /** The timer part of `tick`: no time passing changes nothing; otherwise
        the timer runs down and, when it expires, the piece moves down and
        the timer restarts, so it is positive afterwards. */
    method Tick(dT: real, u: real)
      requires Valid() && 0.0 <= u < 1.0
      modifies this, grid
      ensures Valid() && grid == old(grid) && paused == old(paused)
      ensures dT <= 0.0 ==> grid[..] == old(grid[..]) && cursorX == old(cursorX) && cursorY == old(cursorY)
                            && toNextDown == old(toNextDown)
      ensures dT > 0.0 ==> toNextDown > 0.0
      ensures dT > 0.0 && old(toNextDown) - dT > 0.0 ==>
                grid[..] == old(grid[..]) && cursorX == old(cursorX) && cursorY == old(cursorY)
                && toNextDown == old(toNextDown) - dT
      ensures dT > 0.0 && old(toNextDown) - dT <= 0.0 ==>
                Down(old(grid[..]), w, h, old(cursorX), old(cursorY), Rand(u), grid[..], cursorX, cursorY,
                     Resting(old(grid[..]), w, h, old(cursorX), old(cursorY)))
    {
      if dT <= 0.0 {
        return;
      }
      toNextDown := toNextDown - dT;
      if toNextDown <= 0.0 {
        var _ := MoveBlockDown(u);
      }
    }

    /** `spaceBar`: the piece drops until it lands, for at most `MaxDrop`
        rows; the outcome is `Drop`'s. */
    method SpaceBar(u: real)
      requires Valid() && 0.0 <= u < 1.0
      modifies this, grid
      ensures Valid() && grid == old(grid) && paused == old(paused) && toNextDown == 1.0
      ensures var d := Drop(old(grid[..]), w, h, old(cursorX), old(cursorY), MaxDrop);
              if d.hit then
                cursorX == SpawnX && cursorY == SpawnY &&
                forall x, y :: 0 <= x < w && 0 <= y < h ==>
                  Get(grid[..], w, h, x, y) == LandedCell(d.grid, w, h, Rand(u), x, y)
              else grid[..] == d.grid && cursorX == d.cx && cursorY == d.cy
    {
      ghost var d := Drop(grid[..], w, h, cursorX, cursorY, MaxDrop);
      var i := 0;
      while i < MaxDrop
        invariant 0 <= i <= MaxDrop && Valid() && grid == old(grid) && paused == old(paused)
        invariant i > 0 ==> toNextDown == 1.0
        invariant d == Drop(grid[..], w, h, cursorX, cursorY, MaxDrop - i)
      {
        ghost var g := grid[..];
        ghost var cx, cy := cursorX, cursorY;
        var hit := MoveBlockDown(u);
        if hit {
          assert d == Fall(g, w, h, cx, cy);
          return;
        }
        i := i + 1;
      }
    }
  }
}
