// The Sokoban page object: the current level text, the text it was loaded
// from, the move history with its cursor, and the markup shown for it.

module SokobanGame {
  import opened Sokoban

  /** One entry of the move history: the direction and whether a box moved. */
  datatype Step = Step(dx: int, dy: int, pushed: bool)

  class Game {
    var level: string
    var initial: string
    var atMove: nat
    var history: seq<Step>
    var html: string

    /** The history cursor never passes the end of the history. */
    predicate Valid()
      reads this
    {
      atMove <= |history|
    }

    /** The page starts on the given level, or on the built-in one when the
        text is empty. */
    constructor(levelData: string)
      ensures Valid()
      ensures level == initial == (if levelData == "" then DefaultLevel else levelData)
      ensures atMove == 0 && history == []
      ensures html == Page(level)
    {
      var data := if levelData == "" then DefaultLevel else levelData;
      level, initial, atMove, history := data, data, 0, [];
      html := "";
      new;
      UpdateHtml();
    }

    /** Puts the level on the page, remembers it for a restart and clears the
        history. */
    method LoadLevel(levelData: string)
      modifies this
      ensures Valid()
      ensures level == initial == levelData && atMove == 0 && history == []
      ensures html == Page(level)
    {
      level, initial, atMove, history := levelData, levelData, 0, [];
      UpdateHtml();
    }

    /** Renders every symbol of the level, then the passed note. */
    method UpdateHtml()
      modifies this
      ensures html == Page(level)
      ensures level == old(level) && initial == old(initial)
      ensures atMove == old(atMove) && history == old(history)
    {
      var str := Render(level);
      html := str;
    }

    /** `getItemAt`: reads one cell through the split lines. */
    method GetItemAt(x: int, y: int) returns (c: char)
      ensures c == CellAt(level, x, y)
    {
      c := ItemAt(level, x, y);
    }

    /** `setItemAt`: rewrites one cell through the split lines. */
    method SetItemAt(x: int, y: int, item: char)
      modifies this
      ensures level == WriteAt(old(level), x, y, item)
      ensures initial == old(initial) && atMove == old(atMove)
      ensures history == old(history) && html == old(html)
    {
      level := SetItem(level, x, y, item);
    }

    /** A step's two writes: the player onto `(x, y)`, then off `(pX, pY)`. */
    method StepWrites(pX: int, pY: int, x: int, y: int, p: char, b: char)
      modifies this
      ensures level == Set(Set(old(level), Loc(old(level), x, y), StepOnto(b)),
                           Loc(old(level), pX, pY), LeaveBehind(p))
      ensures initial == old(initial) && atMove == old(atMove)
      ensures history == old(history) && html == old(html)
    {
      ghost var l0 := level;
      SameBreaksRefl(l0);
      Written(l0, l0, x, y, StepOnto(b));
      SetItemAt(x, y, StepOnto(b));
      Written(l0, level, pX, pY, LeaveBehind(p));
      SetItemAt(pX, pY, LeaveBehind(p));
    }

    /** A push's three writes: the box onto `(xx, yy)`, the player onto
        `(x, y)`, then off `(pX, pY)`. */
    method PushWrites(pX: int, pY: int, x: int, y: int, xx: int, yy: int, p: char, b: char, bb: char)
      modifies this
      ensures level == Set(Set(Set(old(level), Loc(old(level), xx, yy), BoxOnto(bb)),
                               Loc(old(level), x, y), PushInto(b)),
                           Loc(old(level), pX, pY), LeaveBehind(p))
      ensures initial == old(initial) && atMove == old(atMove)
      ensures history == old(history) && html == old(html)
    {
      ghost var l0 := level;
      SameBreaksRefl(l0);
      Written(l0, l0, xx, yy, BoxOnto(bb));
      SetItemAt(xx, yy, BoxOnto(bb));
      Written(l0, level, x, y, PushInto(b));
      SetItemAt(x, y, PushInto(b));
      Written(l0, level, pX, pY, LeaveBehind(p));
      SetItemAt(pX, pY, LeaveBehind(p));
    }

    /** The cell writes `moveDir` and `redoMove` share: find the player,
        then step into an empty cell or trap, or push a box into one. */
    method MoveCells(dx: int, dy: int) returns (moved: bool, pushed: bool)
      modifies this
      ensures Outcome(level, moved, pushed) == Move(old(level), dx, dy)
      ensures initial == old(initial) && atMove == old(atMove)
      ensures history == old(history) && html == old(html)
    {
      ghost var l0 := level;
      var pX, pY := FindPlayerPosition(level);
      var p := GetItemAt(pX, pY);
      var x, y := pX + dx, pY + dy;
      var b := GetItemAt(x, y);
      moved, pushed := false, false;
      SameBreaksRefl(l0);
      if b == Empty || b == Trap {
        StepWrites(pX, pY, x, y, p, b);
        moved := true;
      } else if b == Box || b == BoxOverTrap {
        var xx, yy := x + dx, y + dy;
        var bb := GetItemAt(xx, yy);
        if bb == Empty || bb == Trap {
          PushWrites(pX, pY, x, y, xx, yy, p, b, bb);
          moved, pushed := true, true;
        }
      }
    }

    /** `moveDir`: a step or a push in direction `(dx, dy)`; a move that
        happens is recorded after the cursor, dropping any undone moves. */
    method MoveDir(dx: int, dy: int)
      requires Valid()
      modifies this
      ensures Valid() && initial == old(initial)
      ensures level == Move(old(level), dx, dy).level
      ensures Move(old(level), dx, dy).moved ==>
        atMove == old(atMove) + 1 &&
        history == old(history)[..old(atMove)] + [Step(dx, dy, Move(old(level), dx, dy).pushed)] &&
        html == Page(level)
      ensures !Move(old(level), dx, dy).moved ==>
        atMove == old(atMove) && history == old(history) && html == old(html)
    {
      var moved, pushed := MoveCells(dx, dy);
      if moved {
        atMove := atMove + 1;
        history := history[..atMove - 1] + [Step(dx, dy, pushed)];
        UpdateHtml();
      }
    }

    method MoveUp()
      requires Valid()
      modifies this
      ensures Valid() && level == Move(old(level), 0, -1).level
    {
      MoveDir(0, -1);
    }

    method MoveDown()
      requires Valid()
      modifies this
      ensures Valid() && level == Move(old(level), 0, 1).level
    {
      MoveDir(0, 1);
    }

    method MoveLeft()
      requires Valid()
      modifies this
      ensures Valid() && level == Move(old(level), -1, 0).level
    {
      MoveDir(-1, 0);
    }

    method MoveRight()
      requires Valid()
      modifies this
      ensures Valid() && level == Move(old(level), 1, 0).level
    {
      MoveDir(1, 0);
    }

    /** Undoing a push: the box back onto the player's cell `(pX, pY)`, then
        off the cell in front `(fX, fY)`. */
    method PullWrites(pX: int, pY: int, fX: int, fY: int, p: char, f: char)
      modifies this
      ensures level == Set(Set(old(level), Loc(old(level), pX, pY),
                               if p == PlayerOverTrap then BoxOverTrap else Box),
                           Loc(old(level), fX, fY), if f == BoxOverTrap then Trap else Empty)
      ensures initial == old(initial) && atMove == old(atMove)
      ensures history == old(history) && html == old(html)
    {
      ghost var l0 := level;
      var back := if p == PlayerOverTrap then BoxOverTrap else Box;
      SameBreaksRefl(l0);
      Written(l0, l0, pX, pY, back);
      SetItemAt(pX, pY, back);
      Written(l0, level, fX, fY, if f == BoxOverTrap then Trap else Empty);
      SetItemAt(fX, fY, if f == BoxOverTrap then Trap else Empty);
    }

    /** The cell writes of `undoMove` for a recorded move: put the player
        back behind its cell, then either clear the cell it left or pull the
        box in front back onto it. */
    method UndoCells(dx: int, dy: int, pushed: bool)
      modifies this
      ensures level == Undo(old(level), dx, dy, pushed)
      ensures initial == old(initial) && atMove == old(atMove)
      ensures history == old(history) && html == old(html)
    {
      ghost var l0 := level;
      var pX, pY := FindPlayerPosition(level);
      ghost var op := Loc(l0, pX, pY);
      ghost var or := Loc(l0, pX - dx, pY - dy);
      ghost var of := Loc(l0, pX + dx, pY + dy);
      var p := GetItemAt(pX, pY);
      var rX, rY := pX - dx, pY - dy;
      var r := GetItemAt(rX, rY);
      SameBreaksRefl(l0);
      Written(l0, l0, rX, rY, StepOnto(r));
      SetItemAt(rX, rY, StepOnto(r));
      ghost var s1 := level;
      assert s1 == Set(l0, or, StepOnto(At(l0, or)));
      if pushed {
        var fX, fY := pX + dx, pY + dy;
        Relocate(l0, rX, rY, StepOnto(r), fX, fY);
        var f := GetItemAt(fX, fY);
        assert f == At(s1, of);
        if f == BoxOverTrap || f == Box {
          Relocate(l0, rX, rY, StepOnto(r), pX, pY);
          PullWrites(pX, pY, fX, fY, p, f);
        }
      } else {
        Written(l0, level, pX, pY, LeaveBehind(p));
        SetItemAt(pX, pY, LeaveBehind(p));
      }
      assert level == UndoAt(l0, op, or, of, pushed);
      UndoIs(l0, dx, dy, pushed, pX, pY);
    }

    /** `undoMove`: takes back the move before the cursor, using its recorded
        direction and push flag; nothing happens at the start of the
        history. */
    method UndoMove()
      requires Valid()
      modifies this
      ensures Valid() && initial == old(initial) && history == old(history)
      ensures old(atMove) == 0 ==> level == old(level) && atMove == 0 && html == old(html)
      ensures old(atMove) > 0 ==>
        var m := old(history)[old(atMove) - 1];
        level == Undo(old(level), m.dx, m.dy, m.pushed) &&
        atMove == old(atMove) - 1 && html == Page(level)
    {
      if atMove == 0 {
        return;
      }
      var m := history[atMove - 1];
      UndoCells(m.dx, m.dy, m.pushed);
      atMove := atMove - 1;
      UpdateHtml();
    }

    /** `redoMove`: replays the move after the cursor in its recorded
        direction; nothing happens at the end of the history. */
    method RedoMove()
      requires Valid()
      modifies this
      ensures Valid() && initial == old(initial) && history == old(history)
      ensures old(atMove) == |old(history)| ==> level == old(level) && atMove == old(atMove) && html == old(html)
      ensures old(atMove) < |old(history)| ==>
        var m := old(history)[old(atMove)];
        level == Move(old(level), m.dx, m.dy).level &&
        atMove == old(atMove) + 1 && html == Page(level)
    {
      if atMove > |history| - 1 {
        return;
      }
      var m := history[atMove];
      var moved, pushed := MoveCells(m.dx, m.dy);
      UpdateHtml();
      atMove := atMove + 1;
    }

    /** `restartLevel`: reloads the text the level was loaded from. */
    method RestartLevel()
      modifies this
      ensures Valid()
      ensures level == initial == old(initial) && atMove == 0 && history == []
      ensures html == Page(level)
    {
      LoadLevel(initial);
    }
  }

  /** A write of a symbol other than a line break leaves every cell where it
      was. */
  lemma Relocate(level: string, x: int, y: int, item: char, x': int, y': int)
    requires item != NewLine
    ensures Loc(WriteAt(level, x, y, item), x', y') == Loc(level, x', y')
  {
    WriteKeepsBreaks(level, x, y, item);
    LocShape(level, WriteAt(level, x, y, item), x', y');
  }

  /** `updateHtml`'s loop: each symbol's image in order, then the passed
      note. */
  method Render(s: string) returns (str: string)
    ensures str == Page(s)
  {
    str := "";
    var i := 0;
    while i < |s|
      invariant 0 <= i <= |s|
      invariant str == Markup(s[..i])
    {
      MarkupNext(s, i);
      str := str + GetNode(s[i]);
      i := i + 1;
    }
    assert s[..i] == s;
    if LevelIsPassed(s) {
      str := str + PassedNote;
    }
  }

  /** The undo from the position `findPlayerPosition` answers. */
  lemma UndoIs(level: string, dx: int, dy: int, pushed: bool, px: int, py: int)
    requires (px, py) == PlayerPos(level)
    ensures Undo(level, dx, dy, pushed) == UndoAt(level, Loc(level, px, py), Loc(level, px - dx, py - dy),
                                                  Loc(level, px + dx, py + dy), pushed)
  {
  }

  lemma SameBreaksRefl(s: string)
    ensures SameBreaks(s, s)
  {
  }

  /** On a text with the line breaks of `l0`, a write at `(x, y)` lands at
      the index the cell has on `l0`, and keeps the breaks. */
  lemma Written(l0: string, level: string, x: int, y: int, item: char)
    requires SameBreaks(l0, level) && item != NewLine
    ensures WriteAt(level, x, y, item) == Set(level, Loc(l0, x, y), item)
    ensures SameBreaks(l0, WriteAt(level, x, y, item))
  {
    LocShape(l0, level, x, y);
    WriteKeepsBreaks(level, x, y, item);
  }

  /** Redoing an undone move on a board with one player makes the move
      again. */
  lemma RedoAfterUndo(level: string, dx: int, dy: int)
    requires UniquePlayer(level) && IsUnit(dx, dy) && Move(level, dx, dy).moved
    ensures Move(Undo(Move(level, dx, dy).level, dx, dy, Move(level, dx, dy).pushed), dx, dy)
         == Move(level, dx, dy)
  {
    UndoRoundTrip(level, dx, dy);
  }
}
