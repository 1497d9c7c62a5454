// Sokoban: the board is a newline-separated string of cell symbols; moves,
// pushes, undo and redo rewrite it one cell at a time through the
// split-by-lines view of the text.

module Sokoban {
  import opened JsString

  const Empty := ' '
  const Wall := '#'
  const Trap := '.'
  const Box := '$'
  const BoxOverTrap := '*'
  const Player := '@'
  const PlayerOverTrap := '+'
  const NewLine := '\n'

  /** The level shown when the page supplies no level text. */
  const DefaultLevel := "####\n# .#\n#  ###\n#*@  #\n#  $ #\n#  ###\n####"

  const WallImage := "<img src=\"./img/wall.svg\">"

  /** The markup shown for one symbol of the level. */
  function GetNode(c: char): (html: string)
    ensures (c !in {Empty, Wall, Trap, Box, BoxOverTrap, Player, PlayerOverTrap, NewLine})
            ==> html == WallImage
  {
    match c
    case ' ' => "<img src=\"./img/empty.svg\">"
    case '#' => WallImage
    case '.' => "<img src=\"./img/trap.svg\">"
    case '$' => "<img src=\"./img/box.svg\">"
    case '*' => "<img src=\"./img/box-over-trap.svg\">"
    case '@' => "<img src=\"./img/player.svg\">"
    case '+' => "<img src=\"./img/player-over-trap.svg\">"
    case '\n' => "<br>"
    case _ => WallImage
  }

  /** Each of the seven cell symbols and the line break has its own markup;
      only an unknown symbol shares the wall image. */
  lemma GetNodeDistinct(c: char, d: char)
    requires c in {Empty, Trap, Box, BoxOverTrap, Player, PlayerOverTrap, NewLine, Wall}
    requires d in {Empty, Trap, Box, BoxOverTrap, Player, PlayerOverTrap, NewLine, Wall}
    requires c != d
    ensures GetNode(c) != GetNode(d)
  {
  }

  /** The level is solved when no box stands off a trap. */
  function LevelIsPassed(level: string): (passed: bool)
    ensures passed <==> Box !in level
  {
    IndexOf(level, Box) < 0
  }

  /** The page markup `updateHtml` writes: each symbol's image in order, then
      a "Level Passed" line when no box is left off a trap. */
  function Markup(level: string): (html: string)
    ensures |level| > 0 ==> |html| > 0
  {
    if level == [] then "" else GetNode(level[0]) + Markup(level[1..])
  }

  /** The markup of two pieces of text put together is their markups put
      together. */
  lemma {:induction false} MarkupAppend(a: string, b: string)
    ensures Markup(a + b) == Markup(a) + Markup(b)
    decreases |a|
  {
    if a == [] {
      assert a + b == b;
    } else {
      assert (a + b)[1..] == a[1..] + b;
      MarkupAppend(a[1..], b);
    }
  }

  /** One more symbol of markup after the first `i`. */
  lemma MarkupNext(s: string, i: nat)
    requires i < |s|
    ensures Markup(s[..i + 1]) == Markup(s[..i]) + GetNode(s[i])
  {
    assert s[..i + 1] == s[..i] + [s[i]];
    MarkupAppend(s[..i], [s[i]]);
    assert [s[i]][1..] == [];
  }

  const PassedNote := "<br>Level Passed"

  function Page(level: string): (html: string)
    ensures LevelIsPassed(level) <==> html == Markup(level) + PassedNote
    ensures !LevelIsPassed(level) <==> html == Markup(level)
  {
    Markup(level) + (if LevelIsPassed(level) then PassedNote else "")
  }

  function Lines(level: string): seq<string>
  {
    Split(level, NewLine)
  }

  /** Column and line reached after reading the first `n` symbols of `s`:
      a line break moves to column 0 of the next line, any other symbol one
      column on. This is the scan `findPlayerPosition` performs. */
  function Coords(s: string, n: nat): (int, int)
    requires n <= |s|
  {
    if n == 0 then (0, 0)
    else
      var c := Coords(s, n - 1);
      if s[n - 1] == NewLine then (0, c.1 + 1) else (c.0 + 1, c.1)
  }

  /** Reading order of positions: by line, then by column. */
  predicate Before(a: (int, int), b: (int, int))
  {
    a.1 < b.1 || (a.1 == b.1 && a.0 < b.0)
  }

  /** Every symbol read moves the position forward. */
  lemma {:induction false} CoordsIncrease(s: string, i: nat, j: nat)
    requires i < j <= |s|
    ensures Before(Coords(s, i), Coords(s, j))
    decreases j
  {
    if i < j - 1 {
      CoordsIncrease(s, i, j - 1);
    }
  }

  /** The scan of a prefix depends on that prefix only. */
  lemma {:induction false} CoordsPrefix(s: string, t: string, n: nat)
    requires n <= |s| && n <= |t| && s[..n] == t[..n]
    ensures Coords(s, n) == Coords(t, n)
    decreases n
  {
    if n > 0 {
      assert s[n - 1] == s[..n][n - 1] == t[..n][n - 1] == t[n - 1];
      assert s[..n - 1] == s[..n][..n - 1] == t[..n][..n - 1] == t[..n - 1];
      CoordsPrefix(s, t, n - 1);
    }
  }

  /** Index `i` of `level` holds the board cell `(x, y)`. */
  predicate IsCell(level: string, i: int, x: int, y: int)
  {
    0 <= i < |level| && level[i] != NewLine && Coords(level, i) == (x, y)
  }

  /** Index of board cell `(x, y)`, or -1 when the board has no such cell. */
  ghost function Loc(level: string, x: int, y: int): (i: int)
    ensures -1 <= i < |level|
  {
    if exists i :: IsCell(level, i, x, y) then
      var i :| IsCell(level, i, x, y); i
    else -1
  }

  lemma LocCell(level: string, x: int, y: int)
    ensures 0 <= Loc(level, x, y) ==> IsCell(level, Loc(level, x, y), x, y)
  {
  }

  /** A board cell has exactly one index. */
  lemma CellLoc(level: string, i: int, x: int, y: int)
    requires IsCell(level, i, x, y)
    ensures Loc(level, x, y) == i
  {
    var j := Loc(level, x, y);
    if i < j {
      CoordsIncrease(level, i, j);
    } else if j < i {
      CoordsIncrease(level, j, i);
    }
  }

  /** Two texts with their line breaks at the same indices. */
  predicate SameBreaks(s: string, s': string)
  {
    |s| == |s'| && forall i :: 0 <= i < |s| ==> (s[i] == NewLine <==> s'[i] == NewLine)
  }

  lemma {:induction false} CoordsSameBreaks(s: string, s': string, i: nat)
    requires SameBreaks(s, s') && i <= |s|
    ensures Coords(s, i) == Coords(s', i)
    decreases i
  {
    if i > 0 {
      CoordsSameBreaks(s, s', i - 1);
    }
  }

  /** Texts with the same line breaks locate every cell at the same index. */
  lemma LocShape(s: string, s': string, x: int, y: int)
    requires SameBreaks(s, s')
    ensures Loc(s', x, y) == Loc(s, x, y)
  {
    LocCell(s, x, y);
    LocCell(s', x, y);
    var i, i' := Loc(s, x, y), Loc(s', x, y);
    if 0 <= i {
      CoordsSameBreaks(s, s', i);
      CellLoc(s', i, x, y);
    } else if 0 <= i' {
      CoordsSameBreaks(s, s', i');
      CellLoc(s, i', x, y);
    }
  }

  /** The symbol at index `i`; a wall off the board. */
  function At(s: string, i: int): char
  {
    if 0 <= i < |s| then s[i] else Wall
  }

  /** `s` with index `i` overwritten; no change off the board. */
  function Set(s: string, i: int, c: char): string
  {
    if 0 <= i < |s| then s[i := c] else s
  }

  ghost function CellAt(level: string, x: int, y: int): char
  {
    At(level, Loc(level, x, y))
  }

  ghost function WriteAt(level: string, x: int, y: int, item: char): string
  {
    Set(level, Loc(level, x, y), item)
  }

  /** The scan position is the column within, and the index of, the last
      line of the split text. */
  lemma {:induction false} CoordsLines(s: string)
    ensures Coords(s, |s|) == (|Lines(s)[|Lines(s)| - 1]|, |Lines(s)| - 1)
    decreases |s|
  {
    if |s| > 0 {
      var n := |s| - 1;
      var a, c := s[..n], s[n];
      assert s == a + [c];
      CoordsLines(a);
      CoordsPrefix(s, a, n);
      SplitAppend(a, [c], NewLine);
      assert [c][1..] == "";
      if c == NewLine {
        assert Lines([c]) == ["", ""];
      } else {
        assert [c] + "" == [c];
        assert Lines([c]) == [[c]];
      }
    }
  }

  /** Splitting the text before a cell: the lines of the prefix are lines
      of the whole text, except that the last one continues past the cell. */
  lemma LinesBefore(level: string, i: nat)
    requires i < |level| && level[i] != NewLine
    ensures var p, g := Lines(level[..i]), Lines(level);
      |p| <= |g| && (forall j :: 0 <= j < |p| - 1 ==> g[j] == p[j]) &&
      |p[|p| - 1]| < |g[|p| - 1]|
  {
    var a, b := level[..i], level[i..];
    assert level == a + b;
    var p, q := Lines(a), Lines(b);
    SplitAppend(a, b, NewLine);
    assert b[0] == level[i];
    assert |q[0]| >= 1;
  }

  /** The cell at index `i` of the text is column `x` of line `y` of the
      split text, with `(x, y)` the scan position before `i`. */
  lemma CellInGrid(level: string, i: nat)
    requires i < |level| && level[i] != NewLine
    ensures InGrid(Lines(level), Coords(level, i).0, Coords(level, i).1)
    ensures LineStart(Lines(level), Coords(level, i).1) + Coords(level, i).0 == i
  {
    var a := level[..i];
    var p, g := Lines(a), Lines(level);
    LinesBefore(level, i);
    CoordsLines(a);
    CoordsPrefix(level, a, i);
    var y := |p| - 1;
    LineStartPrefix(p, g, y);
    JoinLength(p, NewLine);
    JoinSplit(a, NewLine);
  }

  lemma {:induction false} LineStartPrefix(g: seq<string>, g': seq<string>, y: nat)
    requires y <= |g| && y <= |g'|
    requires forall j :: 0 <= j < y ==> g[j] == g'[j]
    ensures LineStart(g, y) == LineStart(g', y)
    decreases y
  {
    if y > 0 {
      LineStartPrefix(g, g', y - 1);
    }
  }

  /** Column `x` of line `y` of the split text lies at its flat offset and is
      never a line break. */
  lemma LocInText(level: string, x: int, y: int)
    requires InGrid(Lines(level), x, y)
    ensures LineStart(Lines(level), y) + x < |level|
    ensures level[LineStart(Lines(level), y) + x] == Lines(level)[y][x] != NewLine
  {
    JoinSplit(level, NewLine);
    JoinIndex(Lines(level), NewLine, x, y);
    SplitNoSepParts(level, NewLine);
    assert NewLine !in Lines(level)[y];
  }

  /** The scan's cell `(x, y)` is column `x` of line `y` of the split text. */
  lemma LocGrid(level: string, x: int, y: int)
    ensures Loc(level, x, y)
         == if InGrid(Lines(level), x, y) then LineStart(Lines(level), y) + x else -1
  {
    var g := Lines(level);
    LocCell(level, x, y);
    if InGrid(g, x, y) {
      var o := LineStart(g, y) + x;
      LocInText(level, x, y);
      CellInGrid(level, o);
      var c := Coords(level, o);
      OffsetInjective(g, x, y, c.0, c.1);
      CellLoc(level, o, x, y);
    } else if 0 <= Loc(level, x, y) {
      CellInGrid(level, Loc(level, x, y));
    }
  }

  /** `getItemAt`: splits the level into lines and reads line `y`, column
      `x`, answering a wall for a negative coordinate, a missing line or a
      column past the end of its line. It agrees with the scan's cell. */
  function ItemAt(level: string, x: int, y: int): (c: char)
    ensures c == CellAt(level, x, y)
  {
    LocGrid(level, x, y);
    if x < 0 || y < 0 then Wall
    else
      var grid := Lines(level);
      if y >= |grid| then Wall
      else if x >= |grid[y]| then Wall
      else
        LocInText(level, x, y);
        grid[y][x]
  }

  /** `setItemAt`'s rewrite of the level text: split into lines, splice the
      item into line `y` at column `x`, join again; off the board the level is
      unchanged. It agrees with a write at the scan's cell. */
  function SetItem(level: string, x: int, y: int, item: char): (r: string)
    ensures r == WriteAt(level, x, y, item)
  {
    LocGrid(level, x, y);
    if x < 0 || y < 0 then level
    else
      var grid := Lines(level);
      if y >= |grid| then level
      else if x >= |grid[y]| then level
      else
        var line := grid[y][..x] + [item] + grid[y][x + 1..];
        assert line == grid[y][x := item];
        JoinSplit(level, NewLine);
        JoinUpdate(grid, NewLine, x, y, item);
        Join(grid[y := line], NewLine)
  }

  /** Writing a symbol other than a line break at a board cell keeps the line
      breaks where they are. */
  lemma WriteKeepsBreaks(level: string, x: int, y: int, item: char)
    requires item != NewLine
    ensures SameBreaks(level, WriteAt(level, x, y, item))
  {
    LocCell(level, x, y);
  }

  predicate IsPlayer(c: char)
  {
    c == Player || c == PlayerOverTrap
  }

  /** Index of the first player symbol at or after `k`, or the length when
      there is none. */
  function FirstPlayerFrom(level: string, k: nat): (i: nat)
    requires k <= |level|
    ensures k <= i <= |level|
    ensures i < |level| ==> IsPlayer(level[i])
    decreases |level| - k
  {
    if k == |level| then k
    else if IsPlayer(level[k]) then k
    else FirstPlayerFrom(level, k + 1)
  }

  function FirstPlayer(level: string): (i: nat)
    ensures i <= |level|
    ensures i < |level| ==> IsPlayer(level[i])
  {
    FirstPlayerFrom(level, 0)
  }

  lemma {:induction false} FirstPlayerFromIs(level: string, k: nat, i: nat)
    requires k <= i <= |level| && (i < |level| ==> IsPlayer(level[i]))
    requires forall j :: k <= j < i ==> !IsPlayer(level[j])
    ensures FirstPlayerFrom(level, k) == i
    decreases i - k
  {
    if k < i {
      FirstPlayerFromIs(level, k + 1, i);
    }
  }

  /** The index that holds a player and has none before it is the first
      player. */
  lemma FirstPlayerIs(level: string, i: nat)
    requires i <= |level| && (i < |level| ==> IsPlayer(level[i]))
    requires forall j :: 0 <= j < i ==> !IsPlayer(level[j])
    ensures FirstPlayer(level) == i
  {
    FirstPlayerFromIs(level, 0, i);
  }

  /** `findPlayerPosition`'s answer: the scan position where it stops. */
  function PlayerPos(level: string): (int, int)
  {
    Coords(level, FirstPlayer(level))
  }

  function PX(level: string): int { PlayerPos(level).0 }
  function PY(level: string): int { PlayerPos(level).1 }

  predicate HasPlayer(level: string)
  {
    FirstPlayer(level) < |level|
  }

  /** `findPlayerPosition` on a board with a player names the cell of the
      first player symbol. */
  lemma PlayerLoc(level: string)
    requires HasPlayer(level)
    ensures Loc(level, PX(level), PY(level)) == FirstPlayer(level)
  {
    CellLoc(level, FirstPlayer(level), PX(level), PY(level));
  }

  /** `findPlayerPosition` stops at the first player; with none it ends after
      the last character. */
  method FindPlayerPosition(level: string) returns (x: int, y: int)
    ensures (x, y) == PlayerPos(level)
  {
    x, y := 0, 0;
    var i := 0;
    while i < |level|
      invariant 0 <= i <= |level|
      invariant (x, y) == Coords(level, i)
      invariant forall j :: 0 <= j < i ==> !IsPlayer(level[j])
    {
      var c := level[i];
      if IsPlayer(c) {
        break;
      }
      if c == NewLine {
        y := y + 1;
        x := 0;
      } else {
        x := x + 1;
      }
      i := i + 1;
    }
    FirstPlayerIs(level, i);
  }

  /** The four directions `moveUp`, `moveDown`, `moveLeft` and `moveRight` pass. */
  predicate IsUnit(dx: int, dy: int)
  {
    (dx == 0 && (dy == 1 || dy == -1)) || (dy == 0 && (dx == 1 || dx == -1))
  }

  /** What the player stands on after stepping onto an empty cell or a trap. */
  function StepOnto(b: char): char
  {
    if b == Trap then PlayerOverTrap else Player
  }

  /** What the player stands on after pushing the box off cell `b`. */
  function PushInto(b: char): char
  {
    if b == BoxOverTrap then PlayerOverTrap else Player
  }

  /** What a pushed box becomes on cell `bb`. */
  function BoxOnto(bb: char): char
  {
    if bb == Trap then BoxOverTrap else Box
  }

  /** What a player standing on `p` leaves behind. */
  function LeaveBehind(p: char): char
  {
    if p == PlayerOverTrap then Trap else Empty
  }

  datatype Outcome = Outcome(level: string, moved: bool, pushed: bool)

  /** On a board whose first player symbol is at cell `(x, y)`,
      `findPlayerPosition` answers `(x, y)`. */
  lemma OnlyPlayerFound(level: string, x: int, y: int)
    requires 0 <= Loc(level, x, y) && IsPlayer(level[Loc(level, x, y)])
    requires forall j :: 0 <= j < Loc(level, x, y) ==> !IsPlayer(level[j])
    ensures FirstPlayer(level) == Loc(level, x, y)
    ensures PX(level) == x && PY(level) == y
  {
    LocCell(level, x, y);
    FirstPlayerIs(level, Loc(level, x, y));
  }

  /** The board change of `moveDir(dx, dy)`, and whether it moved and pushed;
      `redoMove` makes the same board change. */
  ghost function Move(level: string, dx: int, dy: int): Outcome
  {
    var px, py := PX(level), PY(level);
    MoveAt(level, Loc(level, px, py), Loc(level, px + dx, py + dy),
           Loc(level, px + dx + dx, py + dy + dy))
  }

  /** A move on the flat text: `op` is the player's index, `ob` the one in
      front of it and `obb` the one beyond (-1 off the board). Writes never
      change a line's length, so the indices located before the move stay
      valid during it (`Game.MoveDir` relates this to the line-by-line
      rewriting). */
  function MoveAt(s: string, op: int, ob: int, obb: int): Outcome
  {
    var p := At(s, op);
    var b := At(s, ob);
    if b == Empty || b == Trap then
      Outcome(Set(Set(s, ob, StepOnto(b)), op, LeaveBehind(p)), true, false)
    else if b == Box || b == BoxOverTrap then
      var bb := At(s, obb);
      if bb == Empty || bb == Trap then
        Outcome(Set(Set(Set(s, obb, BoxOnto(bb)), ob, PushInto(b)), op, LeaveBehind(p)), true, true)
      else Outcome(s, false, false)
    else Outcome(s, false, false)
  }

  /** The board change of `undoMove` for a recorded move `(dx, dy, pushed)`. */
  ghost function Undo(level: string, dx: int, dy: int, pushed: bool): string
  {
    var px, py := PX(level), PY(level);
    UndoAt(level, Loc(level, px, py), Loc(level, px - dx, py - dy),
           Loc(level, px + dx, py + dy), pushed)
  }

  /** An undo on the flat text: `op` is the player's index, `or` the one
      behind it and `of` the one in front. The cell in front is read after the
      player has been put back, as `undoMove` does. */
  function UndoAt(s: string, op: int, or: int, of: int, pushed: bool): string
  {
    var p := At(s, op);
    var r := At(s, or);
    var s1 := Set(s, or, StepOnto(r));
    if pushed then
      var f := At(s1, of);
      if f == BoxOverTrap || f == Box then
        Set(Set(s1, op, if p == PlayerOverTrap then BoxOverTrap else Box),
            of, if f == BoxOverTrap then Trap else Empty)
      else s1
    else Set(s1, op, LeaveBehind(p))
  }

  /** Indices of a move: a player at `op`, and distinct cells around it. */
  predicate MoveIndices(s: string, op: int, ob: int, obb: int)
  {
    0 <= op < |s| && IsPlayer(s[op]) && op != ob && op != obb && (0 <= ob ==> ob != obb)
  }

  /** Symbols that count as a box and as a player. */
  function Boxes(s: string): nat
  {
    multiset(s)[Box] + multiset(s)[BoxOverTrap]
  }

  function Players(s: string): nat
  {
    multiset(s)[Player] + multiset(s)[PlayerOverTrap]
  }

  lemma CountsAfterWrite(s: string, i: nat, c: char)
    requires i < |s|
    ensures Boxes(s[i := c]) + (if s[i] in {Box, BoxOverTrap} then 1 else 0)
         == Boxes(s) + (if c in {Box, BoxOverTrap} then 1 else 0)
    ensures Players(s[i := c]) + (if IsPlayer(s[i]) then 1 else 0)
         == Players(s) + (if IsPlayer(c) then 1 else 0)
  {
  }

  /** The text after a step: the player enters `ob` and leaves `op`. */
  function Stepped(s: string, op: nat, ob: nat): string
    requires op < |s| && ob < |s|
  {
    s[ob := StepOnto(s[ob])][op := LeaveBehind(s[op])]
  }

  /** The text after a push: the box enters `obb`, the player `ob`, and the
      player leaves `op`. */
  function Pushed(s: string, op: nat, ob: nat, obb: nat): string
    requires op < |s| && ob < |s| && obb < |s|
  {
    s[obb := BoxOnto(s[obb])][ob := PushInto(s[ob])][op := LeaveBehind(s[op])]
  }

  /** Which of the three outcomes a flat move has. */
  lemma MoveAtCases(s: string, op: int, ob: int, obb: int)
    requires MoveIndices(s, op, ob, obb)
    ensures var o := MoveAt(s, op, ob, obb);
      if 0 <= ob < |s| && s[ob] in {Empty, Trap} then
        o == Outcome(Stepped(s, op, ob), true, false)
      else if 0 <= ob < |s| && s[ob] in {Box, BoxOverTrap} && 0 <= obb < |s| && s[obb] in {Empty, Trap} then
        o == Outcome(Pushed(s, op, ob, obb), true, true)
      else o == Outcome(s, false, false)
  {
  }

  lemma StepCounts(s: string, op: nat, ob: nat)
    requires op < |s| && ob < |s| && op != ob
    requires IsPlayer(s[op]) && s[ob] in {Empty, Trap}
    ensures Boxes(Stepped(s, op, ob)) == Boxes(s) && Players(Stepped(s, op, ob)) == Players(s)
  {
    CountsAfterWrite(s, ob, StepOnto(s[ob]));
    CountsAfterWrite(s[ob := StepOnto(s[ob])], op, LeaveBehind(s[op]));
  }

  lemma PushCounts(s: string, op: nat, ob: nat, obb: nat)
    requires op < |s| && ob < |s| && obb < |s| && op != ob && op != obb && ob != obb
    requires IsPlayer(s[op]) && s[ob] in {Box, BoxOverTrap} && s[obb] in {Empty, Trap}
    ensures Boxes(Pushed(s, op, ob, obb)) == Boxes(s) && Players(Pushed(s, op, ob, obb)) == Players(s)
  {
    var s1 := s[obb := BoxOnto(s[obb])];
    var s2 := s1[ob := PushInto(s[ob])];
    CountsAfterWrite(s, obb, BoxOnto(s[obb]));
    CountsAfterWrite(s1, ob, PushInto(s[ob]));
    CountsAfterWrite(s2, op, LeaveBehind(s[op]));
  }

  /** A flat move keeps the number of boxes and of players. */
  lemma MoveAtCounts(s: string, op: int, ob: int, obb: int)
    requires MoveIndices(s, op, ob, obb)
    ensures Boxes(MoveAt(s, op, ob, obb).level) == Boxes(s)
    ensures Players(MoveAt(s, op, ob, obb).level) == Players(s)
  {
    MoveAtCases(s, op, ob, obb);
    if 0 <= ob < |s| && s[ob] in {Empty, Trap} {
      StepCounts(s, op, ob);
    } else if 0 <= ob < |s| && s[ob] in {Box, BoxOverTrap} && 0 <= obb < |s| && s[obb] in {Empty, Trap} {
      PushCounts(s, op, ob, obb);
    }
  }

  /** Undoing the two writes of a step restores the text. */
  lemma StepUndoFlat(s: string, op: nat, ob: nat, obb: int)
    requires op < |s| && ob < |s| && op != ob
    requires IsPlayer(s[op]) && s[ob] in {Empty, Trap}
    ensures UndoAt(Stepped(s, op, ob), ob, op, obb, false) == s
  {
    var s' := Stepped(s, op, ob);
    assert UndoAt(s', ob, op, obb, false) == s'[op := s[op]][ob := s[ob]];
  }

  /** Undoing the three writes of a push restores the text. */
  lemma PushUndoFlat(s: string, op: nat, ob: nat, obb: nat)
    requires op < |s| && ob < |s| && obb < |s| && op != ob && op != obb && ob != obb
    requires IsPlayer(s[op]) && s[ob] in {Box, BoxOverTrap} && s[obb] in {Empty, Trap}
    ensures UndoAt(Pushed(s, op, ob, obb), ob, op, obb, true) == s
  {
    var s' := Pushed(s, op, ob, obb);
    assert UndoAt(s', ob, op, obb, true) == s'[op := s[op]][ob := s[ob]][obb := s[obb]];
  }

  /** After a step or a push the player stands at `ob`; when `op` held the
      only player symbol, `ob` does now. */
  lemma MovedPlayer(s: string, s': string, op: nat, ob: nat)
    requires |s'| == |s| && op < |s| && ob < |s|
    requires forall j :: 0 <= j < |s| && IsPlayer(s[j]) ==> j == op
    requires forall j :: 0 <= j < |s| && j != ob && IsPlayer(s'[j]) ==> s'[j] == s[j]
    requires !IsPlayer(s'[op]) && IsPlayer(s'[ob])
    ensures forall j :: 0 <= j < |s'| && IsPlayer(s'[j]) ==> j == ob
  {
  }

  /** A step or a push writes no line break and overwrites none. */
  lemma StepBreaks(s: string, op: nat, ob: nat)
    requires op < |s| && ob < |s| && IsPlayer(s[op]) && s[ob] in {Empty, Trap}
    ensures SameBreaks(s, Stepped(s, op, ob))
  {
  }

  lemma PushBreaks(s: string, op: nat, ob: nat, obb: nat)
    requires op < |s| && ob < |s| && obb < |s|
    requires IsPlayer(s[op]) && s[ob] in {Box, BoxOverTrap} && s[obb] in {Empty, Trap}
    ensures SameBreaks(s, Pushed(s, op, ob, obb))
  {
  }

  /** The cell at `(px, py)`, the one a step `(dx, dy)` away and the one
      beyond have distinct indices. */
  lemma LocsDistinct(level: string, px: int, py: int, dx: int, dy: int)
    requires IsUnit(dx, dy)
    ensures var op, ob, obb := Loc(level, px, py), Loc(level, px + dx, py + dy),
                               Loc(level, px + dx + dx, py + dy + dy);
      (0 <= op ==> op != ob && op != obb) && (0 <= ob ==> ob != obb)
  {
    LocCell(level, px, py);
    LocCell(level, px + dx, py + dy);
    LocCell(level, px + dx + dx, py + dy + dy);
  }

  /** The indices `moveDir` works on, on a board with a player. */
  lemma MoveLocs(level: string, dx: int, dy: int) returns (op: int, ob: int, obb: int)
    requires HasPlayer(level) && IsUnit(dx, dy)
    ensures op == Loc(level, PX(level), PY(level))
    ensures ob == Loc(level, PX(level) + dx, PY(level) + dy)
    ensures obb == Loc(level, PX(level) + dx + dx, PY(level) + dy + dy)
    ensures op == FirstPlayer(level) && MoveIndices(level, op, ob, obb)
    ensures 0 <= ob ==> level[ob] != NewLine
    ensures 0 <= obb ==> level[obb] != NewLine
  {
    var px, py := PX(level), PY(level);
    op := Loc(level, px, py);
    ob := Loc(level, px + dx, py + dy);
    obb := Loc(level, px + dx + dx, py + dy + dy);
    PlayerLoc(level);
    LocsDistinct(level, px, py, dx, dy);
    LocCell(level, px + dx, py + dy);
    LocCell(level, px + dx + dx, py + dy + dy);
  }

  /** No move changes the number of boxes ('$' and '*') or of players
      ('@' and '+') on a board that has a player. */
  lemma MoveKeepsCounts(level: string, dx: int, dy: int)
    requires HasPlayer(level) && IsUnit(dx, dy)
    ensures Boxes(Move(level, dx, dy).level) == Boxes(level)
    ensures Players(Move(level, dx, dy).level) == Players(level)
  {
    var op, ob, obb := MoveLocs(level, dx, dy);
    MoveAtCounts(level, op, ob, obb);
  }

  /** Exactly one player symbol on the board. */
  predicate UniquePlayer(level: string)
  {
    HasPlayer(level) &&
    forall j :: 0 <= j < |level| && IsPlayer(level[j]) ==> j == FirstPlayer(level)
  }

  /** Index `i` holds the only player symbol of `s`. */
  predicate SolePlayer(s: string, i: int)
  {
    0 <= i < |s| && IsPlayer(s[i]) && forall j :: 0 <= j < |s| && IsPlayer(s[j]) ==> j == i
  }

  /** A board of the same shape as `level` whose only player symbol sits at
      the index of `(x, y)`: `findPlayerPosition` answers `(x, y)`, and every
      cell keeps the index it had on `level`. */
  lemma Landed(level: string, l': string, x: int, y: int, dx: int, dy: int)
    requires SameBreaks(level, l') && SolePlayer(l', Loc(level, x, y))
    ensures UniquePlayer(l') && PX(l') == x && PY(l') == y
    ensures Loc(l', x, y) == Loc(level, x, y)
    ensures Loc(l', x - dx, y - dy) == Loc(level, x - dx, y - dy)
    ensures Loc(l', x + dx, y + dy) == Loc(level, x + dx, y + dy)
  {
    LocShape(level, l', x, y);
    LocShape(level, l', x - dx, y - dy);
    LocShape(level, l', x + dx, y + dy);
    OnlyPlayerFound(l', x, y);
  }

  /** After a move from `(px, py)` by `(dx, dy)` that leaves the shape alone
      and puts the only player at `ob`, the player is found one step on, and
      the cells behind and in front of it are the ones the move used. */
  lemma MovedAtLands(level: string, l': string, px: int, py: int, dx: int, dy: int,
                     op: int, ob: int, obb: int)
    requires op == Loc(level, px, py) && ob == Loc(level, px + dx, py + dy)
    requires obb == Loc(level, px + dx + dx, py + dy + dy)
    requires SameBreaks(level, l') && SolePlayer(l', ob)
    ensures UniquePlayer(l') && PX(l') == px + dx && PY(l') == py + dy
    ensures Loc(l', PX(l'), PY(l')) == ob
    ensures Loc(l', PX(l') - dx, PY(l') - dy) == op
    ensures Loc(l', PX(l') + dx, PY(l') + dy) == obb
  {
    Landed(level, l', px + dx, py + dy, dx, dy);
    assert px + dx - dx == px && py + dy - dy == py;
  }

  /** A step keeps the shape and moves the only player from `op` to `ob`. */
  lemma StepFlat(level: string, op: nat, ob: nat)
    requires op < |level| && ob < |level| && SolePlayer(level, op) && level[ob] in {Empty, Trap}
    ensures SameBreaks(level, Stepped(level, op, ob)) && SolePlayer(Stepped(level, op, ob), ob)
  {
    StepBreaks(level, op, ob);
    MovedPlayer(level, Stepped(level, op, ob), op, ob);
  }

  /** A push keeps the shape and moves the only player from `op` to `ob`. */
  lemma PushFlat(level: string, op: nat, ob: nat, obb: nat)
    requires op < |level| && ob < |level| && obb < |level| && ob != obb
    requires SolePlayer(level, op) && level[ob] in {Box, BoxOverTrap} && level[obb] in {Empty, Trap}
    ensures SameBreaks(level, Pushed(level, op, ob, obb))
    ensures SolePlayer(Pushed(level, op, ob, obb), ob)
  {
    PushBreaks(level, op, ob, obb);
    MovedPlayer(level, Pushed(level, op, ob, obb), op, ob);
  }

  /** A move that happened on a board with one player was a step into an
      empty cell or trap, or a push of a box onto one. */
  lemma MoveCase(level: string, dx: int, dy: int) returns (op: int, ob: int, obb: int)
    requires UniquePlayer(level) && IsUnit(dx, dy)
    requires Move(level, dx, dy).moved
    ensures op == Loc(level, PX(level), PY(level))
    ensures ob == Loc(level, PX(level) + dx, PY(level) + dy)
    ensures obb == Loc(level, PX(level) + dx + dx, PY(level) + dy + dy)
    ensures MoveIndices(level, op, ob, obb) && SolePlayer(level, op)
    ensures 0 <= ob < |level|
    ensures level[ob] in {Empty, Trap} ||
      (level[ob] in {Box, BoxOverTrap} && 0 <= obb < |level| && level[obb] in {Empty, Trap})
  {
    op, ob, obb := MoveLocs(level, dx, dy);
    MoveAtCases(level, op, ob, obb);
  }

  /** What undoing a step needs to know about the board after it. */
  lemma StepUndoFacts(level: string, dx: int, dy: int, op: int, ob: int, obb: int)
    requires op == Loc(level, PX(level), PY(level))
    requires ob == Loc(level, PX(level) + dx, PY(level) + dy)
    requires obb == Loc(level, PX(level) + dx + dx, PY(level) + dy + dy)
    requires MoveIndices(level, op, ob, obb) && SolePlayer(level, op)
    requires 0 <= ob < |level| && level[ob] in {Empty, Trap}
    ensures !Move(level, dx, dy).pushed
    ensures SameBreaks(level, Move(level, dx, dy).level)
    ensures SolePlayer(Move(level, dx, dy).level, ob)
    ensures UndoAt(Move(level, dx, dy).level, ob, op, obb, false) == level
  {
    MoveAtCases(level, op, ob, obb);
    StepFlat(level, op, ob);
    StepUndoFlat(level, op, ob, obb);
  }

  /** What undoing a push needs to know about the board after it. */
  lemma PushUndoFacts(level: string, dx: int, dy: int, op: int, ob: int, obb: int)
    requires op == Loc(level, PX(level), PY(level))
    requires ob == Loc(level, PX(level) + dx, PY(level) + dy)
    requires obb == Loc(level, PX(level) + dx + dx, PY(level) + dy + dy)
    requires MoveIndices(level, op, ob, obb) && SolePlayer(level, op)
    requires 0 <= ob < |level| && level[ob] in {Box, BoxOverTrap}
    requires 0 <= obb < |level| && level[obb] in {Empty, Trap}
    ensures Move(level, dx, dy).pushed
    ensures SameBreaks(level, Move(level, dx, dy).level)
    ensures SolePlayer(Move(level, dx, dy).level, ob)
    ensures UndoAt(Move(level, dx, dy).level, ob, op, obb, true) == level
  {
    MoveAtCases(level, op, ob, obb);
    PushFlat(level, op, ob, obb);
    PushUndoFlat(level, op, ob, obb);
  }

  /** `undoMove` on a board `l'` reached by a move from `level`: it finds the
      player where the move put it, so it undoes the move's writes. */
  lemma UndoBack(level: string, l': string, px: int, py: int, dx: int, dy: int,
                 op: int, ob: int, obb: int, pushed: bool)
    requires op == Loc(level, px, py) && ob == Loc(level, px + dx, py + dy)
    requires obb == Loc(level, px + dx + dx, py + dy + dy)
    requires SameBreaks(level, l') && SolePlayer(l', ob)
    requires UndoAt(l', ob, op, obb, pushed) == level
    ensures Undo(l', dx, dy, pushed) == level
  {
    MovedAtLands(level, l', px, py, dx, dy, op, ob, obb);
  }

  /** Undoing a step restores the board. */
  lemma StepRoundTrip(level: string, dx: int, dy: int, op: int, ob: int, obb: int)
    requires op == Loc(level, PX(level), PY(level))
    requires ob == Loc(level, PX(level) + dx, PY(level) + dy)
    requires obb == Loc(level, PX(level) + dx + dx, PY(level) + dy + dy)
    requires MoveIndices(level, op, ob, obb) && SolePlayer(level, op)
    requires 0 <= ob < |level| && level[ob] in {Empty, Trap}
    ensures Undo(Move(level, dx, dy).level, dx, dy, Move(level, dx, dy).pushed) == level
  {
    StepUndoFacts(level, dx, dy, op, ob, obb);
    UndoBack(level, Move(level, dx, dy).level, PX(level), PY(level), dx, dy, op, ob, obb, false);
  }

  /** Undoing a push restores the board. */
  lemma PushRoundTrip(level: string, dx: int, dy: int, op: int, ob: int, obb: int)
    requires op == Loc(level, PX(level), PY(level))
    requires ob == Loc(level, PX(level) + dx, PY(level) + dy)
    requires obb == Loc(level, PX(level) + dx + dx, PY(level) + dy + dy)
    requires MoveIndices(level, op, ob, obb) && SolePlayer(level, op)
    requires 0 <= ob < |level| && level[ob] in {Box, BoxOverTrap}
    requires 0 <= obb < |level| && level[obb] in {Empty, Trap}
    ensures Undo(Move(level, dx, dy).level, dx, dy, Move(level, dx, dy).pushed) == level
  {
    PushUndoFacts(level, dx, dy, op, ob, obb);
    UndoBack(level, Move(level, dx, dy).level, PX(level), PY(level), dx, dy, op, ob, obb, true);
  }

  /** `undoMove` after a move that happened restores the board, on a board
      with exactly one player. */
  lemma UndoRoundTrip(level: string, dx: int, dy: int)
    requires UniquePlayer(level) && IsUnit(dx, dy)
    requires Move(level, dx, dy).moved
    ensures Undo(Move(level, dx, dy).level, dx, dy, Move(level, dx, dy).pushed) == level
  {
    var op, ob, obb := MoveCase(level, dx, dy);
    if level[ob] in {Empty, Trap} {
      StepRoundTrip(level, dx, dy, op, ob, obb);
    } else {
      PushRoundTrip(level, dx, dy, op, ob, obb);
    }
  }
}
