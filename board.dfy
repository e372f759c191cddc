/**
 * The board object of GoSudoku: the 9x9 cell values and focus flags as
 * two-dimensional arrays, the cursor, and the (never used) selection set.
 * The constructor builds the start of the program and `Update` handles one
 * message in place; both are proved against the pure state machine of
 * module `GridSpec`, whose properties module `GridProperties` proves.
 */
module Board {
  import opened GridSpec

  class Grid {
    var value: array2<int>
    var focused: array2<bool>
    var cursorX: int
    var cursorY: int
    var selected: set<Coordinate>

    /** The abstract state the fields stand for. */
    ghost var model: State

    /** The fields hold exactly `model`: 9x9 arrays cell for cell, the cursor and the selection. */
    ghost predicate Valid()
      reads this, value, focused
    {
      && value.Length0 == SIZE && value.Length1 == SIZE
      && focused.Length0 == SIZE && focused.Length1 == SIZE
      && WellFormed(model)
      && model.cursorX == cursorX && model.cursorY == cursorY
      && model.selected == selected
      && (forall y, x :: 0 <= y < SIZE && 0 <= x < SIZE ==> value[y, x] == model.values[y][x])
      && (forall y, x :: 0 <= y < SIZE && 0 <= x < SIZE ==> focused[y, x] == model.focus[y][x])
    }

    /**
     * `gridModel`: every cell is set to 0 and left unfocused row by row,
     * the cursor starts at (0,0) and the selection set is empty.
     */
    constructor ()
      ensures Valid() && fresh(value) && fresh(focused)
      ensures model == Initial()
    {
      var values := new int[SIZE, SIZE];
      var focus := new bool[SIZE, SIZE];
      var i := 0;
      while i < SIZE
        invariant 0 <= i <= SIZE
        invariant forall y, x :: 0 <= y < i && 0 <= x < SIZE ==> values[y, x] == 0 && !focus[y, x]
      {
        var j := 0;
        while j < SIZE
          invariant 0 <= j <= SIZE
          invariant forall y, x :: 0 <= y < i && 0 <= x < SIZE ==> values[y, x] == 0 && !focus[y, x]
          invariant forall x :: 0 <= x < j ==> values[i, x] == 0 && !focus[i, x]
        {
          values[i, j] := 0;
          focus[i, j] := false;
          j := j + 1;
        }
        i := i + 1;
      }
      value, focused := values, focus;
      cursorX, cursorY := 0, 0;
      selected := {};
      model := Initial();
    }

    /**
     * `model.Update`: handles one message in place and reports whether the
     * program is to stop. The new state is the one `Next` prescribes.
     */
    method Update(m: Msg) returns (quit: bool)
      requires Valid()
      modifies this, value, focused
      ensures Valid() && value == old(value) && focused == old(focused)
      ensures model == Next(old(model), m).state
      ensures quit == Next(old(model), m).quit
    {
      ghost var next := Next(model, m);
      match Dispatch(m) {
      case Quit =>
        quit := true;
      case Move(d) =>
        // clear the cursor's trace on the old cell
        focused[cursorY, cursorX] := false;
        if d == Up && cursorY > 0 {
          cursorY := cursorY - 1;
        }
        if d == Down && cursorY < value.Length0 - 1 {
          cursorY := cursorY + 1;
        }
        if d == Left && cursorX > 0 {
          cursorX := cursorX - 1;
        }
        if d == Right && cursorX < value.Length0 - 1 {
          cursorX := cursorX + 1;
        }
        // focus the cell under the new cursor
        focused[cursorY, cursorX] := true;
        quit := false;
      case Write(n) =>
        value[cursorY, cursorX] := n;
        quit := false;
      case Ignore =>
        quit := false;
      }
      model := next.state;
    }
  }
}
