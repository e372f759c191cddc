# GoSudoku grid state machine in Dafny

GoSudoku is a terminal program that shows a 9x9 board of single-character
input cells. The arrow keys move a cursor over the board. The cell under the
cursor gets input focus. Typing a digit 1..9 stores it in the cursor's cell.
`ctrl+c` or `q` ends the program.

This project models the board state and its one transition, `model.Update`,
together with the starting state built by `gridModel`:

- `grid_spec.dfy`, module `GridSpec`: the key alphabet (`Key`, `Msg`), the
  dispatch of a key to an action (`Dispatch`, with `DigitValue` standing for
  `strconv.Atoi` on a one-character key), the pure board `State`, the
  starting state `Initial`, the transition `Next` and the message loop `Run`.
- `grid_properties.dfy`, module `GridProperties`: the properties of `Next`
  and `Run` as lemmas. These cover clamped movement, refocusing, digit
  writes, idempotence, inert keys, quitting, and the invariant every
  reachable state keeps.
- `board.dfy`, module `Board`: class `Grid` with `value: array2<int>`,
  `focused: array2<bool>`, the cursor fields and the selection set. Its
  constructor fills the arrays in nested loops as `gridModel` does. Its
  `Update` method changes them in place. Both are proved to agree with
  `Initial` and `Next` through the ghost field `model`.

Cells are indexed `[cursorY][cursorX]`, row first, as in the source. The
per-cell flag `focused` abstracts the text input's `Focus()`/`Blur()` state
together with the text style swapped beside it.

Three behaviours of the code differ from what one might expect; the model
follows the code:

- Digit `0` is ignored (`numericInput != 0` at main.go:132). It does not
  clear the cell.
- `gridModel` never calls `Focus()`, so at the start no cell is focused. The
  invariant kept by every message is therefore "every focused cell is the
  cursor cell". Until the first arrow key no cell is focused
  (`NoFocusBeforeFirstArrow`); from the first arrow key on exactly the
  cursor cell is focused (`FocusIsCursorAfterFirstArrow`).
- A digit is written to the cursor cell whether or not that cell is focused.

## Model

| member | source | states |
|---|---|---|
| GridSpec.Initial | main.go:66-86 | the start state is well formed, all 81 values are 0, no cell is focused, the cursor is (0,0) and the selection set is empty |
| GridSpec.DigitValue | main.go:132 | converting a one-character key succeeds exactly for '0'..'9' and yields the digit's value 0..9 |
| GridSpec.Dispatch | main.go:97-139 | quit exactly for ctrl+c and q; move exactly for arrow keys, in the key's direction; write exactly for the characters '1'..'9', with a digit 1..9; everything else, digit 0 included, is ignored |
| GridSpec.Next | main.go:92-143 | one update keeps the state well formed (cursor within 0..8 on both axes), signals quit exactly for the quit keys, and never touches the selection set |
| GridSpec.Run | main.go:99-100 | a simplified event loop that feeds messages to the update in order and ends at the first quit signal; it only reaches well-formed states |
| GridSpec.Clamp | main.go:109-123 | the reference clamp onto 0..8: the result is on the board, equals the input when it is on the board, and is 0 or 8 below or above it |
| GridSpec.MoveCursor | main.go:109-123 | each guarded increment or decrement of the cursor is one step along the key's own axis clamped onto 0..8, with the other axis kept |
| GridSpec.SetCell | main.go:106-134 | an indexed cell write (blur at line 106, focus at line 126, value at line 134) changes exactly the addressed cell and keeps the 9x9 shape |
| GridProperties.InitialSatisfiesInvariant | main.go:66-86 | the start state satisfies the reachable-state invariant and has no focused cell |
| GridProperties.ArrowIsClampedStep | main.go:109-123 | each arrow sets its own axis to the clamped neighbour coordinate and leaves the other axis unchanged |
| GridProperties.ArrowAtEdgeStays | main.go:109-123 | Up at row 0, Down at row 8, Left at column 0 and Right at column 8 leave the cursor where it is (no wrap-around) |
| GridProperties.ArrowInsideMovesByOne | main.go:109-123 | away from the edge it points at, an arrow changes its axis by exactly one |
| GridProperties.ArrowRefocuses | main.go:105-127 | after an arrow the new cursor cell is focused, the old cursor cell is blurred unless it is the same cell, and every other cell keeps its focus flag |
| GridProperties.ArrowFocusesExactlyCursor | main.go:105-127 | if only the cursor cell could be focused before an arrow, exactly the new cursor cell is focused after it |
| GridProperties.ArrowKeepsValues | main.go:102-129 | arrow keys change no cell value and do not quit |
| GridProperties.DigitOverwritesCursorCell | main.go:132-137 | a digit 1..9 sets the cursor cell's value to that digit and leaves all other values, the cursor, all focus flags and the selection unchanged |
| GridProperties.DigitIsIdempotent | main.go:132-137 | typing the same digit twice yields the same outcome as typing it once |
| GridProperties.ZeroIsIgnored | main.go:132 | key 0 leaves the whole state unchanged and does not quit |
| GridProperties.NonDigitIsIgnored | main.go:131-142 | a character other than a digit or q leaves the whole state unchanged and does not quit |
| GridProperties.OtherMessagesAreIgnored | main.go:93-142 | other named keys and non-key messages leave the state unchanged and do not quit |
| GridProperties.QuitKeysStop | main.go:99-100 | ctrl+c and q signal termination and leave the state unchanged |
| GridProperties.OnlyArrowsAndDigitsChangeState | main.go:97-142 | any message that is neither an arrow nor a digit 1..9 leaves the state unchanged |
| GridProperties.NextPreservesInvariant | main.go:92-143 | every update keeps: well formed, focused cells within the cursor, values in 0..9, selection empty |
| GridProperties.NextPreservesExactFocus | main.go:102-129 | every update keeps "exactly the cursor cell is focused" |
| GridProperties.RunPreservesInvariant | main.go:92-143 | every state the loop reaches satisfies the invariant |
| GridProperties.RunPreservesExactFocus | main.go:102-129 | once exactly the cursor cell is focused, that stays so for every later message |
| GridProperties.FocusIsCursorAfterFirstArrow | main.go:66-129 | from the start state, after the first arrow key and any messages that follow, exactly the cursor cell is focused |
| GridProperties.RunStopsAtQuit | main.go:99-100 | once a quit key (ctrl+c or q) arrives the loop stops with the state it had; later messages have no effect |
| GridProperties.NoFocusWithoutArrow | main.go:102-127 | a run of messages containing no arrow key keeps an unfocused board unfocused, since only the arrow branch calls `Focus()` |
| GridProperties.NoFocusBeforeFirstArrow | main.go:66-127 | from the start state, as long as no arrow key has arrived, no cell is focused |
| GridProperties.EditingScenario | main.go:92-143 | Right x3, 5, Left, 0, q from the start: cursor (2,0), cell (3,0) holds 5 and is blurred, cell (2,0) is focused, every other value is 0, and the loop quits |
| GridProperties.UpAtTopScenario | main.go:109-111 | Up from the start leaves the cursor at (0,0) and focuses that cell |
| Board.Grid.constructor | main.go:66-86 | the nested loops leave 9x9 arrays of zero values and cleared focus flags, the cursor at (0,0), an empty selection; the object stands for `Initial` |
| Board.Grid.Update | main.go:92-143 | updates the arrays and cursor in place so that the object stands for `Next` of its old state, returns its quit signal, and keeps the same arrays |

## Left out

- `main`, `tea.NewProgram`, `p.Run` and `os.Exit` (main.go:13-19): process start-up and terminal I/O. `GridSpec.Run` stands in for the library's event loop, feeding messages to `Update` in order.
- `View` (main.go:145-185): the text frame is built by lipgloss `JoinHorizontal`, `JoinVertical` and `Render`, foreign library calls whose output is not specified here. The 3x3 gaps it draws are cosmetic.
- `InputStyle`, the style variables, `Init` and `textinput.Blink` (main.go:21-26, 52-64, 88-90): presentation settings.
- The `tea.Cmd` values `Update` returns (`tea.Quit`, the `Focus()` command, the text input's command): only the quit signal is modelled, as a boolean.
- The text input's own text, as changed by `input.Update(msg)` at main.go:135: internal state of a foreign widget. Only the cell's `value` field and an abstract focus flag are modelled.
- Multi-character key strings that `strconv.Atoi` would accept (such as a pasted "12" or "-3"): the key alphabet has single characters only, so `DigitValue` models `Atoi` on one character.
- Copy semantics: Go's `Update` has a value receiver and returns an updated copy of the model; the class updates one object in place, which is equivalent for the program, the only holder of the model.
- The `selected` map (main.go:49, main.go:84): created empty and never read or written by any transition. It is carried as a set that stays empty.
