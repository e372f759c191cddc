/**
 * The editable 9x9 grid of GoSudoku as a pure state machine: the keys the
 * program reacts to, how a key is dispatched, the grid state, and the
 * transition `Next` that `model.Update` performs for one message.
 */
module GridSpec {

  /** Number of rows and of columns of the board (`[9][9]spaces`). */
  const SIZE: int := 9

  /** The largest cursor coordinate, `len(m.grid)-1`. */
  const LAST: int := SIZE - 1

  datatype Option<T> = None | Some(value: T)

  datatype Direction = Up | Down | Left | Right

  /**
   * One keystroke. `CtrlC` is the interrupt key, `Rune(c)` a single typed
   * character, and `OtherKey` every other named key (enter, tab, escape,
   * an alt-modified rune, ...), none of whose names is a decimal number.
   */
  datatype Key = Arrow(dir: Direction) | CtrlC | Rune(c: char) | OtherKey

  /** A message delivered to `Update`: a key press, or any other event. */
  datatype Msg = KeyPress(key: Key) | NonKey

  /** What `Update` decides to do with a message. */
  datatype Action = Quit | Move(dir: Direction) | Write(digit: int) | Ignore

  /** A board position; the key type of the (never used) selection set. */
  datatype Coordinate = Coordinate(positionX: int, positionY: int)

  /**
   * The grid state. `values[y][x]` and `focus[y][x]` belong to the cell in
   * row `y` and column `x`; the cursor is `(cursorX, cursorY)`, so the cell
   * under it is `values[cursorY][cursorX]`. `focus` abstracts the text
   * input's focus state together with its text style.
   */
  datatype State = State(
    values: seq<seq<int>>,
    focus: seq<seq<bool>>,
    cursorX: int,
    cursorY: int,
    selected: set<Coordinate>)

  /** The result of one `Update`: the new state and whether to stop. */
  datatype Outcome = Outcome(state: State, quit: bool)

  predicate InRange(i: int) { 0 <= i < SIZE }

  predicate IsGrid<T>(g: seq<seq<T>>)
  {
    |g| == SIZE && forall y :: 0 <= y < SIZE ==> |g[y]| == SIZE
  }

  /** The shape every state has: two 9x9 grids and the cursor on the board. */
  predicate WellFormed(s: State)
  {
    IsGrid(s.values) && IsGrid(s.focus) && InRange(s.cursorX) && InRange(s.cursorY)
  }

  /** Every focused cell is the cursor cell (possibly none is focused). */
  ghost predicate FocusWithinCursor(s: State)
    requires WellFormed(s)
  {
    forall y, x :: 0 <= y < SIZE && 0 <= x < SIZE && s.focus[y][x] ==> y == s.cursorY && x == s.cursorX
  }

  /** Exactly the cursor cell is focused. */
  ghost predicate FocusIsCursor(s: State)
    requires WellFormed(s)
  {
    forall y, x :: 0 <= y < SIZE && 0 <= x < SIZE ==> (s.focus[y][x] <==> y == s.cursorY && x == s.cursorX)
  }

  /** Every cell is empty (0) or holds a digit 1..9. */
  ghost predicate ValuesAreDigits(s: State)
    requires WellFormed(s)
  {
    forall y, x :: 0 <= y < SIZE && 0 <= x < SIZE ==> 0 <= s.values[y][x] <= 9
  }

  /** The grid `g` with the cell in row `y`, column `x` replaced by `v`. */
  function SetCell<T>(g: seq<seq<T>>, y: int, x: int, v: T): (r: seq<seq<T>>)
    requires IsGrid(g) && InRange(y) && InRange(x)
    ensures IsGrid(r)
    ensures r[y][x] == v
    ensures forall i, j :: 0 <= i < SIZE && 0 <= j < SIZE && (i != y || j != x) ==> r[i][j] == g[i][j]
  {
    g[y := g[y][x := v]]
  }

  /**
   * The state `gridModel` builds: every value 0, the cursor at (0,0)
   * (Go's zero values), no cell focused (it never calls `Focus()`) and an
   * empty selection set.
   */
  function Initial(): (s: State)
    ensures WellFormed(s)
    ensures forall y, x :: 0 <= y < SIZE && 0 <= x < SIZE ==> s.values[y][x] == 0 && !s.focus[y][x]
    ensures s.cursorX == 0 && s.cursorY == 0 && s.selected == {}
  {
    State(seq(SIZE, _ => seq(SIZE, _ => 0)), seq(SIZE, _ => seq(SIZE, _ => false)), 0, 0, {})
  }

  /**
   * `strconv.Atoi` applied to the one-character string `[c]`: it succeeds
   * exactly on the decimal digits, with their numeric value.
   */
  function DigitValue(c: char): (r: Option<int>)
    ensures r.Some? <==> '0' <= c <= '9'
    ensures r.Some? ==> 0 <= r.value <= 9 && (r.value + '0' as int) as char == c
  {
    if '0' <= c <= '9' then Some(c as int - '0' as int) else None
  }

  /**
   * The `switch msg.String()` of `Update`: the quit keys first, then the
   * arrows, then any key that parses as a non-zero number; everything else
   * (digit 0 included) is ignored.
   */
  function Dispatch(m: Msg): (a: Action)
    ensures a == Quit <==> m == KeyPress(CtrlC) || m == KeyPress(Rune('q'))
    ensures a.Move? <==> m.KeyPress? && m.key.Arrow?
    ensures a.Move? ==> a.dir == m.key.dir
    ensures a.Write? <==> m.KeyPress? && m.key.Rune? && '1' <= m.key.c <= '9'
    ensures a.Write? ==> 1 <= a.digit <= 9 && DigitValue(m.key.c) == Some(a.digit)
  {
    match m
    case NonKey => Ignore
    case KeyPress(k) =>
      match k
      case CtrlC => Quit
      case Rune('q') => Quit
      case Arrow(d) => Move(d)
      case Rune(c) =>
        (match DigitValue(c)
         case Some(n) => if n != 0 then Write(n) else Ignore
         case None => Ignore)
      case OtherKey => Ignore
  }

  /** Clamping onto the board, the reference for what an arrow does to one axis. */
  function Clamp(i: int): (r: int)
    ensures InRange(r)
    ensures InRange(i) ==> r == i
    ensures i < 0 ==> r == 0
    ensures i > LAST ==> r == LAST
  {
    if i < 0 then 0 else if i > LAST then LAST else i
  }

  /**
   * The cursor after an arrow key: `m.cursorY--`, `m.cursorY++`,
   * `m.cursorX--` or `m.cursorX++`, each guarded by the board's edge. On
   * the board this is one clamped step along the key's own axis.
   */
  function MoveCursor(x: int, y: int, d: Direction): (r: (int, int))
    requires InRange(x) && InRange(y)
    ensures d == Up ==> r == (x, Clamp(y - 1))
    ensures d == Down ==> r == (x, Clamp(y + 1))
    ensures d == Left ==> r == (Clamp(x - 1), y)
    ensures d == Right ==> r == (Clamp(x + 1), y)
  {
    match d
    case Up => if y > 0 then (x, y - 1) else (x, y)
    case Down => if y < LAST then (x, y + 1) else (x, y)
    case Left => if x > 0 then (x - 1, y) else (x, y)
    case Right => if x < LAST then (x + 1, y) else (x, y)
  }

  /**
   * One call of `Update`. An arrow blurs the cell under the old cursor,
   * moves the cursor and focuses the cell under the new one; a digit 1..9
   * overwrites the value under the cursor; quit keys stop the program;
   * anything else leaves the state as it is.
   */
  function Next(s: State, m: Msg): (o: Outcome)
    requires WellFormed(s)
    ensures WellFormed(o.state)
    ensures o.quit <==> Dispatch(m) == Quit
    ensures o.state.selected == s.selected
  {
    match Dispatch(m)
    case Quit => Outcome(s, true)
    case Move(d) =>
      var blurred := SetCell(s.focus, s.cursorY, s.cursorX, false);
      var (nx, ny) := MoveCursor(s.cursorX, s.cursorY, d);
      Outcome(s.(focus := SetCell(blurred, ny, nx, true), cursorX := nx, cursorY := ny), false)
    case Write(n) => Outcome(s.(values := SetCell(s.values, s.cursorY, s.cursorX, n)), false)
    case Ignore => Outcome(s, false)
  }

  /**
   * A simplified event loop over a sequence of messages: each message is
   * handed to `Update` in order, and the loop ends at the first one whose
   * update asks to quit. (The program returns `tea.Quit` as a command and
   * leaves the ending to the library's loop; here the loop simply consumes
   * no further message.)
   */
  function Run(s: State, ms: seq<Msg>): (o: Outcome)
    requires WellFormed(s)
    ensures WellFormed(o.state)
    decreases |ms|
  {
    if ms == [] then Outcome(s, false)
    else
      var o1 := Next(s, ms[0]);
      if o1.quit then o1 else Run(o1.state, ms[1..])
  }
}
