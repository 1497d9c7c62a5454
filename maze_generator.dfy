// The maze generator demo (`MazeGenerator`): a black texture with a red
// border and one white floor cell at (1, 1); each step a wall cell with
// exactly one floor cell among its four neighbours brightens by a random
// amount, becoming white floor once every channel is stored as full
// intensity, and any other wall cell turns black again.

module MazeGen {

  import opened WebglHost
  import opened ByteTexel

  const White := Color(1.0, 1.0, 1.0, 1.0)
  const Red := Color(1.0, 0.0, 0.0, 1.0)
  const Black := Color(0.0, 0.0, 0.0, 1.0)

  /** `isFloor`: opaque white. */
  predicate IsFloor(c: Color)
  {
    c == White
  }

  /** `isWall`: neither opaque white nor opaque red (the border). */
  predicate IsWall(c: Color)
  {
    c != White && c != Red
  }

  /** `gl_FragColor += d`: every channel, alpha included, goes up by d in
      the shader's output. */
  function Brighten(c: Color, d: real): Color
  {
    Color(c.r + d, c.g + d, c.b + d, c.a + d)
  }

  /** The noise `rand` gives for a fragment coordinate; the shader computes
      it from a sine hash, which is passed in here. */
  type Noise = (real, real) -> real

  function B2I(b: bool): int
  {
    if b then 1 else 0
  }

  /** How many of the four neighbours are floor. */
  function FloorCount(s: Grid, w: int, h: int, x: int, y: int): int
    requires w > 0 && h > 0 && Shaped(s, w, h)
  {
    B2I(IsFloor(At(s, w, h, x, y, 0, -1))) + B2I(IsFloor(At(s, w, h, x, y, 0, 1))) +
    B2I(IsFloor(At(s, w, h, x, y, -1, 0))) + B2I(IsFloor(At(s, w, h, x, y, 1, 0)))
  }

  /** The shader's condition, one disjunct per neighbour that may be the
      only floor. */
  predicate OnlyOneFloor(up: bool, down: bool, left: bool, right: bool)
  {
    (!left && !right && !up && down) || (!left && !right && up && !down) ||
    (!left && right && !up && !down) || (left && !right && !up && !down)
  }

  /** The four disjuncts say exactly that one neighbour is floor. */
  lemma OnlyOneFloorIsCountOne(up: bool, down: bool, left: bool, right: bool)
    ensures OnlyOneFloor(up, down, left, right) <==> B2I(up) + B2I(down) + B2I(left) + B2I(right) == 1
  {
  }

  /** `main` of the step shader at texel (x, y). */
  function StepCell(s: Grid, w: int, h: int, x: int, y: int, rand: Noise): Color
    requires w > 0 && h > 0 && Shaped(s, w, h)
  {
    var curr := At(s, w, h, x, y, 0, 0);
    if IsWall(curr) then
      var up := IsFloor(At(s, w, h, x, y, 0, -1));
      var down := IsFloor(At(s, w, h, x, y, 0, 1));
      var left := IsFloor(At(s, w, h, x, y, -1, 0));
      var right := IsFloor(At(s, w, h, x, y, 1, 0));
      if OnlyOneFloor(up, down, left, right) then Brighten(curr, rand(x as real + 0.5, y as real + 0.5) * 0.5)
      else Black
    else curr
  }

  /** The shader's output at a cell, before the 8-bit store: floor and
      border cells keep their colour; a wall cell with exactly one floor
      neighbour brightens by half the noise on every channel, and any other
      wall cell becomes opaque black. */
  lemma StepCellRule(s: Grid, w: int, h: int, x: int, y: int, rand: Noise)
    requires w > 0 && h > 0 && Shaped(s, w, h) && 0 <= x < w && 0 <= y < h
    ensures var c := StepCell(s, w, h, x, y, rand);
            var u := rand(x as real + 0.5, y as real + 0.5);
            (!IsWall(s[y][x]) ==> c == s[y][x]) &&
            (IsWall(s[y][x]) && FloorCount(s, w, h, x, y) == 1 ==> c == Brighten(s[y][x], u * 0.5)) &&
            (IsWall(s[y][x]) && FloorCount(s, w, h, x, y) != 1 ==> c == Black)
  {
    AtOwnTexel(s, w, h, x, y);
    OnlyOneFloorIsCountOne(IsFloor(At(s, w, h, x, y, 0, -1)), IsFloor(At(s, w, h, x, y, 0, 1)),
                           IsFloor(At(s, w, h, x, y, -1, 0)), IsFloor(At(s, w, h, x, y, 1, 0)));
  }

  /** A brightened colour is stored as white floor exactly when every
      channel reaches 509/510 (254.5 / 255), not only once it reaches 1. */
  lemma BrightenedIsFloor(c: Color, d: real)
    ensures IsFloor(StoredColor(Brighten(c, d))) <==>
              c.r + d >= 509.0 / 510.0 && c.g + d >= 509.0 / 510.0 &&
              c.b + d >= 509.0 / 510.0 && c.a + d >= 509.0 / 510.0
  {
    StoredExtremes(c.r + d);
    StoredExtremes(c.g + d);
    StoredExtremes(c.b + d);
    StoredExtremes(c.a + d);
  }

  /** For a stored texel and a non-negative amount, the stored brightened
      colour lowers no channel and keeps every channel in [0, 1]; an opaque
      texel stays opaque. */
  lemma BrightenIsBrighter(c: Color, d: real)
    requires IsByteColor(c) && d >= 0.0
    ensures var b := StoredColor(Brighten(c, d));
            c.r <= b.r <= 1.0 && c.g <= b.g <= 1.0 && c.b <= b.b <= 1.0 && c.a <= b.a <= 1.0
    ensures c.a == 1.0 ==> StoredColor(Brighten(c, d)).a == 1.0
  {
    StoredMonotone(c.r, c.r + d);
    StoredMonotone(c.g, c.g + d);
    StoredMonotone(c.b, c.b + d);
    StoredMonotone(c.a, c.a + d);
  }

  /** One pass of the step program over the whole target texture. */
  function MazeStep(s: Grid, w: int, h: int, rand: Noise): (t: Grid)
    requires w > 0 && h > 0 && Shaped(s, w, h)
    ensures Shaped(t, w, h)
  {
    Render(w, h, (x, y) => StepCell(s, w, h, x, y, rand))
  }

  /** One cell of the stored step: floor and border cells keep their
      colour; a wall cell with exactly one floor neighbour holds the stored
      brightened colour, which is floor exactly when every channel reached
      509/510; any other wall cell becomes opaque black. */
  lemma MazeStepCell(s: Grid, w: int, h: int, x: int, y: int, rand: Noise)
    requires w > 0 && h > 0 && Shaped(s, w, h) && 0 <= x < w && 0 <= y < h
    ensures var t := MazeStep(s, w, h, rand)[y][x];
            var c := s[y][x];
            var d := rand(x as real + 0.5, y as real + 0.5) * 0.5;
            (!IsWall(c) ==> t == c) &&
            (IsWall(c) && FloorCount(s, w, h, x, y) == 1 ==>
               t == StoredColor(Brighten(c, d)) &&
               (IsFloor(t) <==> c.r + d >= 509.0 / 510.0 && c.g + d >= 509.0 / 510.0 &&
                                c.b + d >= 509.0 / 510.0 && c.a + d >= 509.0 / 510.0)) &&
            (IsWall(c) && FloorCount(s, w, h, x, y) != 1 ==> t == Black)
  {
    RenderedTexels(w, h, (x, y) => StepCell(s, w, h, x, y, rand));
    StepCellRule(s, w, h, x, y, rand);
    BrightenedIsFloor(s[y][x], rand(x as real + 0.5, y as real + 0.5) * 0.5);
    assert IsByteColor(White) && IsByteColor(Red) && IsByteColor(Black);
  }

  /** Floor cells and the red border never change, so the floor only
      grows. */
  lemma MazeStepKeepsNonWalls(s: Grid, w: int, h: int, rand: Noise)
    requires w > 0 && h > 0 && Shaped(s, w, h)
    ensures forall y, x :: 0 <= y < h && 0 <= x < w && !IsWall(s[y][x]) ==>
              MazeStep(s, w, h, rand)[y][x] == s[y][x]
    ensures forall y, x :: 0 <= y < h && 0 <= x < w && IsFloor(s[y][x]) ==>
              IsFloor(MazeStep(s, w, h, rand)[y][x])
  {
    forall y: int, x: int | 0 <= y < h && 0 <= x < w
      ensures !IsWall(s[y][x]) ==> MazeStep(s, w, h, rand)[y][x] == s[y][x]
    {
      MazeStepCell(s, w, h, x, y, rand);
    }
  }

  /** `_setBlack`'s border test: the first and last row and column. */
  predicate Border(w: int, h: int, x: int, y: int)
  {
    y == 0 || y == h - 1 || x == 0 || x == w - 1
  }

  lemma MulLeft(a: int, b: int, c: int)
    requires a <= b && c >= 0
    ensures a * c <= b * c
  {
  }

  /** Row-major positions decompose back into their column and row. */
  lemma RowMajorDivMod(w: nat, h: nat, x: nat, y: nat)
    requires x < w && y < h
    ensures RowMajor(w, h, x, y) % w == x && RowMajor(w, h, x, y) / w == y
  {
    var i := RowMajor(w, h, x, y);
    var q, r := i / w, i % w;
    assert q * w + r == y * w + x;
    if q > y {
      MulLeft(y + 1, q, w);
      assert false;
    } else if q < y {
      MulLeft(q + 1, y, w);
      assert false;
    }
  }

  /** The bytes `_setBlack` gives pixel `k` of a w by h image (the
      column is k % w, the row k / w): red 255 on the border and 0 inside,
      green and blue 0, alpha 255. */
  predicate BlackPixel(bytes: seq<int>, w: nat, h: nat, k: nat)
    requires w > 0 && 4 * k + 3 < |bytes|
  {
    bytes[4 * k] == (if Border(w, h, k % w, k / w) then 255 else 0) &&
    bytes[4 * k + 1] == 0 && bytes[4 * k + 2] == 0 && bytes[4 * k + 3] == 255
  }

  /** Writes one pixel's four bytes: red `r`, green and blue 0, alpha
      255. */
  method WriteBlackPixel(arr: array<int>, k: nat, r: int)
    requires 4 * k + 3 < arr.Length
    modifies arr
    ensures arr[4 * k] == r && arr[4 * k + 1] == 0 && arr[4 * k + 2] == 0 && arr[4 * k + 3] == 255
    ensures forall j :: 0 <= j < arr.Length && (j < 4 * k || 4 * k + 3 < j) ==> arr[j] == old(arr[j])
  {
    arr[4 * k] := r;
    arr[4 * k + 1] := 0;
    arr[4 * k + 2] := 0;
    arr[4 * k + 3] := 255;
  }

  /** One pass of `_setBlack`'s inner loop: the pixel at (col, row) is
      written, and the pixels before it stay written. */
  method FillPixel(arr: array<int>, w: nat, h: nat, col: nat, row: nat)
    requires col < w && row < h && arr.Length == w * h * 4
    requires forall k: nat :: k < RowMajor(w, h, col, row) ==> BlackPixel(arr[..], w, h, k)
    modifies arr
    ensures forall k: nat :: k <= RowMajor(w, h, col, row) ==> BlackPixel(arr[..], w, h, k)
  {
    var p := RowMajor(w, h, col, row);
    RowMajorDivMod(w, h, col, row);
    var c := row == 0 || row == h - 1 || col == 0 || col == w - 1;
    ghost var before := arr[..];
    WriteBlackPixel(arr, p, if c then 255 else 0);
    ghost var after := arr[..];
    assert BlackPixel(after, w, h, p);
    forall k: nat | k < p
      ensures BlackPixel(after, w, h, k)
    {
      assert BlackPixel(before, w, h, k);
      assert after[4 * k .. 4 * k + 4] == before[4 * k .. 4 * k + 4];
    }
  }

  /** `_setBlack`'s two loops over rows and columns; `done` counts the
      pixels written so far. */
  method SetBlackBytes(w: nat, h: nat) returns (arr: array<int>)
    requires w > 0
    ensures fresh(arr) && arr.Length == w * h * 4
    ensures forall k: nat :: k < w * h ==> BlackPixel(arr[..], w, h, k)
  {
    arr := new int[w * h * 4];
    ghost var done := 0;
    var row := 0;
    while row < h
      invariant 0 <= row <= h && done == row * w && done <= w * h
      invariant forall k: nat :: k < done ==> BlackPixel(arr[..], w, h, k)
    {
      MulLeft(row + 1, h, w);
      var col := 0;
      while col < w
        invariant 0 <= col <= w && done == row * w + col && done <= w * h
        invariant forall k: nat :: k < done ==> BlackPixel(arr[..], w, h, k)
      {
        FillPixel(arr, w, h, col, row);
        col := col + 1;
        done := done + 1;
      }
      assert row * w + w == (row + 1) * w;
      row := row + 1;
    }
  }

  /** The texture `init` builds: red border, black inside, and the floor
      cell (1, 1) white. */
  function Start(w: nat, h: nat): (s: Grid)
    ensures Shaped(s, w, h)
  {
    seq(h, y requires 0 <= y < h => seq(w, x requires 0 <= x < w =>
      if x == 1 && y == 1 then White else if Border(w, h, x, y) then Red else Black))
  }

  /** The black-and-red texture the bytes make. */
  lemma SetBlackTexture(bytes: seq<int>, w: nat, h: nat)
    requires w > 0 && |bytes| == w * h * 4
    requires forall k: nat :: k < w * h ==> BlackPixel(bytes, w, h, k)
    ensures SetPixel(TextureOf(bytes, w, h), w, h, 1, 1, White) == Start(w, h)
  {
    var s := TextureOf(bytes, w, h);
    var t := SetPixel(s, w, h, 1, 1, White);
    var u := Start(w, h);
    forall y | 0 <= y < h
      ensures t[y] == u[y]
    {
      forall x | 0 <= x < w
        ensures t[y][x] == u[y][x]
      {
        var k := RowMajor(w, h, x, y);
        RowMajorDivMod(w, h, x, y);
        assert BlackPixel(bytes, w, h, k);
        assert s[y][x] == PixelAt(bytes, w, h, x, y);
      }
    }
  }

  /** In the starting texture (1, 1) is the only floor, the border is red
      and not wall, and every other inner cell is a black wall. */
  lemma StartCells(w: nat, h: nat, x: nat, y: nat)
    requires x < w && y < h
    ensures IsFloor(Start(w, h)[y][x]) <==> x == 1 && y == 1
    ensures !(x == 1 && y == 1) && Border(w, h, x, y) ==> !IsWall(Start(w, h)[y][x])
    ensures !Border(w, h, x, y) && !(x == 1 && y == 1) ==> Start(w, h)[y][x] == Black && IsWall(Black)
  {
  }

  class MazeGenerator {
    const width: int
    const height: int
    var loaded: bool
    var playing: bool
    /** `_interval`: the id of the running interval, once `play` set one. */
    var interval: Option<nat>
    var front: Grid
    var back: Grid
    var step: nat

    ghost predicate Valid()
      reads this
    {
      width > 0 && height > 0 && Shaped(front, width, height) && Shaped(back, width, height)
    }

    /** The texture holding the newest state: front after an even number
        of steps, back after an odd one. */
    function Latest(): Grid
      reads this
    {
      if step % 2 == 0 then front else back
    }

    /** The constructor past its checks (`CanvasSize`). */
    constructor (w: int, h: int)
      requires CanvasSize(Some(Canvas(w, h))) == Ok((w, h))
      ensures width == w && height == h && Valid()
      ensures !loaded && !playing && step == 0 && interval.None?
    {
      width := w;
      height := h;
      loaded := false;
      playing := false;
      interval := None;
      front := Blank(w, h);
      back := Blank(w, h);
      step := 0;
    }

    /** `init`: fails without WebGL; otherwise front is the bordered black
        texture with the white cell at (1, 1), back is blank, and the demo
        is loaded and paused. */
    method Init(webgl: bool) returns (thrown: bool)
      requires Valid()
      modifies this
      ensures Valid() && thrown == !webgl
      ensures thrown ==> loaded == old(loaded) && playing == old(playing) &&
                         front == old(front) && back == old(back) && step == old(step)
      ensures !thrown ==> loaded && !playing && step == old(step) &&
                          front == Start(width, height) && back == Blank(width, height)
      ensures interval == old(interval)
    {
      if !webgl {
        return true;
      }
      var arr := SetBlackBytes(width, height);
      SetBlackTexture(arr[..], width, height);
      front := SetPixel(TextureOf(arr[..], width, height), width, height, 1, 1, White);
      back := Blank(width, height);
      loaded := true;
      playing := false;
      thrown := false;
    }

    /** `step` (`_draw(true)`): the parity is read before the count goes
        up; the newest state is the maze step of the previous newest. */
    method Step(rand: Noise)
      requires Valid()
      modifies this
      ensures Valid() && step == old(step) + 1
      ensures Latest() == MazeStep(old(Latest()), width, height, rand)
      ensures old(step) % 2 == 0 ==> front == old(front) && back == MazeStep(old(front), width, height, rand)
      ensures old(step) % 2 == 1 ==> back == old(back) && front == MazeStep(old(back), width, height, rand)
      ensures loaded == old(loaded) && playing == old(playing) && interval == old(interval)
    {
      var parity := step % 2;
      step := step + 1;
      if parity == 1 {
        front := MazeStep(back, width, height, rand);
      } else {
        back := MazeStep(front, width, height, rand);
      }
    }

    /** `draw` (`_draw(false)`): the canvas shows the newest state. */
    method Draw() returns (shown: Grid)
      requires Valid()
      ensures shown == Latest()
    {
      var parity := step % 2;
      shown := if parity == 1 then back else front;
    }

    /** `play`: nothing unless loaded and paused; then an interval starts. */
    method Play(id: nat)
      modifies this
      ensures !old(loaded) || old(playing) ==> playing == old(playing) && interval == old(interval)
      ensures old(loaded) && !old(playing) ==> playing && interval == Some(id)
      ensures loaded == old(loaded) && front == old(front) && back == old(back) && step == old(step)
    {
      if !loaded || playing {
        return;
      }
      interval := Some(id);
      playing := true;
    }

    /** `pause`: nothing unless playing; then the interval is cleared and
        the demo paused. */
    method Pause()
      modifies this
      ensures !playing && interval == old(interval)
      ensures loaded == old(loaded) && front == old(front) && back == old(back) && step == old(step)
    {
      if !playing {
        return;
      }
      playing := false;
    }
  }
}
