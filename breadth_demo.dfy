// The first maze-solving demo (`Example1Breadth`): a 5 by 5 maze written
// as text ('w' wall, 'e' entrance or exit, ' ' open), a search queue that
// starts at the entrance, and a renderer that paints each cell as a
// rectangle. Its `step` is still empty.

module BreadthDemo {

  import opened JsString

  /** The maze literal `reset` splits. */
  const MazeText: string := "wwwww\ne   w\nw   w\nw   e\nwwwww"

  /** Its rows. */
  const MazeRows: seq<string> := ["wwwww", "e   w", "w   w", "w   e", "wwwww"]

  /** `split('\n')` cuts the literal into the five rows (`split('')` then
      keeps each row's characters in order). */
  lemma MazeTextRows(text: string)
    requires text == MazeText
    ensures Split(text, '\n') == MazeRows
  {
    JoinedRows(MazeRows);
    assert NoSep(MazeRows, '\n') by {
      forall i | 0 <= i < 5
        ensures '\n' !in MazeRows[i]
      {
      }
    }
    SplitJoin(MazeRows, '\n');
  }

  /** `MAZE.split('\n').map(row => row.split(''))`. */
  method ParseMaze() returns (rows: seq<string>)
    ensures rows == MazeRows
  {
    rows := Split(MazeText, '\n');
    MazeTextRows(MazeText);
  }

  /** The literal is the rows joined by newlines. */
  lemma JoinedRows(rows: seq<string>)
    requires rows == MazeRows
    ensures Join(rows, '\n') == MazeText
  {
    var nl := "\n";
    assert Join(rows[3..], '\n') == rows[3] + nl + rows[4];
    assert Join(rows[1..], '\n') == rows[1] + nl + rows[2] + nl + Join(rows[3..], '\n');
    assert Join(rows, '\n') == rows[0] + nl + Join(rows[1..], '\n');
  }

  /** The queued start cell is the maze's entrance: column 0 of row 1. */
  lemma StartIsEntrance()
    ensures MazeRows[1][0] == 'e'
    ensures |MazeRows| == 5 && forall y :: 0 <= y < 5 ==> |MazeRows[y]| == 5
  {
  }

  /** `render`'s fill: white for a wall, red for an entrance or exit, black
      for anything else. */
  function Fill(c: char): string
  {
    if c == 'w' then "#fff" else if c == 'e' then "#f00" else "#000"
  }

  /** One `fillRect(x, y, w, h)` with its fill style. */
  datatype Rect = Rect(x: real, y: real, w: real, h: real, fill: string)

  /** i cells of size p. */
  function Scale(i: int, p: real): real
  {
    i as real * p
  }

  /** The canvas length each of n cells gets; no cell means no rectangle,
      so the division is only taken for n > 0. */
  function Share(total: real, n: int): real
  {
    if n > 0 then total / n as real else 0.0
  }

  /** The rectangles for row y, left to right: cell x starts at x cell
      widths and y cell heights, the width dividing the canvas by the row's
      own length. */
  function RowRects(grid: seq<string>, y: nat, cw: real, ch: real): (r: seq<Rect>)
    requires y < |grid|
    ensures |r| == |grid[y]|
  {
    var pW := Share(cw, |grid[y]|);
    var pH := Share(ch, |grid|);
    seq(|grid[y]|, x requires 0 <= x < |grid[y]| =>
      Rect(Scale(x, pW), Scale(y, pH), pW, pH, Fill(grid[y][x])))
  }

  /** The rectangles of the first n rows, row by row. */
  function Rendered(grid: seq<string>, n: nat, cw: real, ch: real): seq<Rect>
    requires n <= |grid|
  {
    if n == 0 then [] else Rendered(grid, n - 1, cw, ch) + RowRects(grid, n - 1, cw, ch)
  }

  /** Every cell is painted exactly once: the rectangles of the first n
      rows number as many as their cells, and each row's rectangles follow
      the earlier rows'. */
  lemma {:induction false} RenderedLength(grid: seq<string>, n: nat, cw: real, ch: real)
    requires n <= |grid|
    ensures |Rendered(grid, n, cw, ch)| == CellCount(grid, n)
  {
    if n > 0 {
      RenderedLength(grid, n - 1, cw, ch);
    }
  }

  function CellCount(grid: seq<string>, n: nat): nat
    requires n <= |grid|
  {
    if n == 0 then 0 else CellCount(grid, n - 1) + |grid[n - 1]|
  }

  class Example1Breadth {
    const canvasW: real
    const canvasH: real
    var grid: seq<string>
    /** `queue`: cells still to visit, as (x, y). */
    var queue: seq<(int, int)>
    var playing: bool

    /** The constructor past its canvas check: `reset`, not playing. */
    constructor (canvasW: real, canvasH: real)
      ensures this.canvasW == canvasW && this.canvasH == canvasH
      ensures grid == MazeRows && queue == [(0, 1)] && !playing
    {
      this.canvasW := canvasW;
      this.canvasH := canvasH;
      playing := false;
      grid := [];
      queue := [];
      new;
      Reset();
    }

    /** `reset`: the maze from the literal, the queue at the entrance. */
    method Reset()
      modifies this
      ensures grid == MazeRows && queue == [(0, 1)] && playing == old(playing)
    {
      grid := ParseMaze();
      queue := [(0, 1)];
    }

    /** `play`: reset, then playing. */
    method Play()
      modifies this
      ensures grid == MazeRows && queue == [(0, 1)] && playing
    {
      Reset();
      playing := true;
    }

    /** `step` does nothing yet. */
    method Step()
      ensures grid == old(grid) && queue == old(queue) && playing == old(playing)
    {
    }

    /** `render`: one rectangle per cell, rows top to bottom and cells left
        to right. */
    method Render() returns (rects: seq<Rect>)
      ensures rects == Rendered(grid, |grid|, canvasW, canvasH)
    {
      rects := [];
      var gH := |grid|;
      var pH := Share(canvasH, gH);
      var y := 0;
      while y < |grid|
        invariant 0 <= y <= |grid|
        invariant rects == Rendered(grid, y, canvasW, canvasH)
      {
        var x := 0;
        var row: seq<Rect> := [];
        while x < |grid[y]|
          invariant 0 <= x <= |grid[y]|
          invariant row == RowRects(grid, y, canvasW, canvasH)[..x]
        {
          var gW := |grid[y]|;
          var pW := Share(canvasW, gW);
          var fillStyle := "#000";
          if grid[y][x] == 'w' {
            fillStyle := "#fff";
          } else if grid[y][x] == 'e' {
            fillStyle := "#f00";
          }
          row := row + [Rect(Scale(x, pW), Scale(y, pH), pW, pH, fillStyle)];
          x := x + 1;
        }
        assert row == RowRects(grid, y, canvasW, canvasH);
        rects := rects + row;
        y := y + 1;
      }
    }
  }

  datatype Option<T> = None | Some(value: T)

  /** `new Example1Breadth(canvasEl)`: throws (None) without a canvas;
      otherwise the demo over a canvas of that size, reset and not playing.
      The first `render` it then calls is `Render`. */
  method New(canvas: Option<(real, real)>) returns (r: Option<Example1Breadth>)
    ensures canvas.None? <==> r.None?
    ensures r.Some? ==>
              fresh(r.value) && r.value.canvasW == canvas.value.0 &&
              r.value.canvasH == canvas.value.1 &&
              r.value.grid == MazeRows && r.value.queue == [(0, 1)] && !r.value.playing
  {
    if canvas.None? {
      return None;
    }
    var demo := new Example1Breadth(canvas.value.0, canvas.value.1);
    return Some(demo);
  }

  /** The rendered maze: 25 rectangles, the entrance (0, 1) painted red and
      the corner (0, 0) white. */
  lemma RenderedMaze(cw: real, ch: real)
    ensures |Rendered(MazeRows, 5, cw, ch)| == 25
    ensures Rendered(MazeRows, 5, cw, ch)[5].fill == "#f00"
    ensures Rendered(MazeRows, 5, cw, ch)[0].fill == "#fff"
  {
    RenderedLength(MazeRows, 5, cw, ch);
    assert Rendered(MazeRows, 1, cw, ch) == RowRects(MazeRows, 0, cw, ch);
    assert Rendered(MazeRows, 2, cw, ch)[5] == RowRects(MazeRows, 1, cw, ch)[0];
    assert Rendered(MazeRows, 5, cw, ch)[..2 * 5] == Rendered(MazeRows, 2, cw, ch) by {
      RenderedPrefix(MazeRows, 2, 5, cw, ch);
    }
  }

  /** The rectangles of the first m rows start the rectangles of the first
      n rows, for m <= n. */
  lemma {:induction false} RenderedPrefix(grid: seq<string>, m: nat, n: nat, cw: real, ch: real)
    requires m <= n <= |grid|
    ensures |Rendered(grid, m, cw, ch)| <= |Rendered(grid, n, cw, ch)|
    ensures Rendered(grid, n, cw, ch)[..|Rendered(grid, m, cw, ch)|] == Rendered(grid, m, cw, ch)
  {
    if m < n {
      RenderedPrefix(grid, m, n - 1, cw, ch);
    }
  }
}
