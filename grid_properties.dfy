/**
 * What `Update` promises, stated over the pure transition `GridSpec.Next`
 * and the message loop `GridSpec.Run`.
 */
module GridProperties {
  import opened GridSpec

  /** The state invariant every reachable state satisfies. */
  ghost predicate Invariant(s: State)
  {
    WellFormed(s) && FocusWithinCursor(s) && ValuesAreDigits(s) && s.selected == {}
  }

  lemma InitialSatisfiesInvariant()
    ensures Invariant(Initial())
    ensures forall y, x :: 0 <= y < SIZE && 0 <= x < SIZE ==> !Initial().focus[y][x]
  {
  }

  // ---------------------------------------------------------------- arrows

  /**
   * An arrow moves the cursor one step along its own axis, clamped to
   * 0..8, and leaves the other axis alone.
   */
  lemma ArrowIsClampedStep(s: State, d: Direction)
    requires WellFormed(s)
    ensures var t := Next(s, KeyPress(Arrow(d))).state;
      && (d == Up ==> t.cursorX == s.cursorX && t.cursorY == Clamp(s.cursorY - 1))
      && (d == Down ==> t.cursorX == s.cursorX && t.cursorY == Clamp(s.cursorY + 1))
      && (d == Left ==> t.cursorY == s.cursorY && t.cursorX == Clamp(s.cursorX - 1))
      && (d == Right ==> t.cursorY == s.cursorY && t.cursorX == Clamp(s.cursorX + 1))
  {
  }

  /** At an edge the arrow pointing off the board leaves the cursor where it is; it never wraps. */
  lemma ArrowAtEdgeStays(s: State, d: Direction)
    requires WellFormed(s)
    requires (d == Up && s.cursorY == 0) || (d == Down && s.cursorY == LAST)
          || (d == Left && s.cursorX == 0) || (d == Right && s.cursorX == LAST)
    ensures var t := Next(s, KeyPress(Arrow(d))).state;
      t.cursorX == s.cursorX && t.cursorY == s.cursorY
  {
    ArrowIsClampedStep(s, d);
  }

  /** Away from the edge it points at, an arrow changes its own axis by exactly one. */
  lemma ArrowInsideMovesByOne(s: State, d: Direction)
    requires WellFormed(s)
    ensures var t := Next(s, KeyPress(Arrow(d))).state;
      && (d == Up && s.cursorY > 0 ==> t.cursorY == s.cursorY - 1)
      && (d == Down && s.cursorY < LAST ==> t.cursorY == s.cursorY + 1)
      && (d == Left && s.cursorX > 0 ==> t.cursorX == s.cursorX - 1)
      && (d == Right && s.cursorX < LAST ==> t.cursorX == s.cursorX + 1)
  {
    ArrowIsClampedStep(s, d);
  }

  /**
   * After an arrow the cell under the new cursor is focused, the cell under
   * the old cursor is blurred unless it is the same cell, and no other
   * cell's focus changes.
   */
  lemma ArrowRefocuses(s: State, d: Direction)
    requires WellFormed(s)
    ensures var t := Next(s, KeyPress(Arrow(d))).state;
      && t.focus[t.cursorY][t.cursorX]
      && ((t.cursorX, t.cursorY) != (s.cursorX, s.cursorY) ==> !t.focus[s.cursorY][s.cursorX])
      && forall y, x :: 0 <= y < SIZE && 0 <= x < SIZE
           && (x, y) != (s.cursorX, s.cursorY) && (x, y) != (t.cursorX, t.cursorY)
           ==> t.focus[y][x] == s.focus[y][x]
  {
  }

  /** If no cell other than the cursor's was focused, after an arrow exactly the cursor's cell is. */
  lemma ArrowFocusesExactlyCursor(s: State, d: Direction)
    requires WellFormed(s) && FocusWithinCursor(s)
    ensures FocusIsCursor(Next(s, KeyPress(Arrow(d))).state)
  {
    ArrowRefocuses(s, d);
  }

  /** Arrow keys change no value and do not stop the program. */
  lemma ArrowKeepsValues(s: State, d: Direction)
    requires WellFormed(s)
    ensures Next(s, KeyPress(Arrow(d))).state.values == s.values
    ensures !Next(s, KeyPress(Arrow(d))).quit
  {
  }

  // ---------------------------------------------------------------- digits

  /**
   * A digit 1..9 overwrites the value under the cursor with that digit and
   * changes nothing else: no other value, not the cursor, no focus.
   */
  lemma DigitOverwritesCursorCell(s: State, c: char)
    requires WellFormed(s) && '1' <= c <= '9'
    ensures var o := Next(s, KeyPress(Rune(c)));
      && !o.quit
      && o.state.values[s.cursorY][s.cursorX] == c as int - '0' as int
      && (forall y, x :: 0 <= y < SIZE && 0 <= x < SIZE && (y != s.cursorY || x != s.cursorX)
            ==> o.state.values[y][x] == s.values[y][x])
      && o.state.cursorX == s.cursorX && o.state.cursorY == s.cursorY
      && o.state.focus == s.focus
      && o.state.selected == s.selected
  {
  }

  /** Typing the same digit twice gives the same state as typing it once. */
  lemma DigitIsIdempotent(s: State, c: char)
    requires WellFormed(s) && '1' <= c <= '9'
    ensures var t := Next(s, KeyPress(Rune(c))).state;
      Next(t, KeyPress(Rune(c))) == Next(s, KeyPress(Rune(c)))
  {
    var t := Next(s, KeyPress(Rune(c))).state;
    var u := Next(t, KeyPress(Rune(c))).state;
    DigitOverwritesCursorCell(s, c);
    DigitOverwritesCursorCell(t, c);
    assert u.values == t.values by {
      forall y | 0 <= y < SIZE ensures u.values[y] == t.values[y] {
        assert forall x :: 0 <= x < SIZE ==> u.values[y][x] == t.values[y][x];
      }
    }
  }

  // ------------------------------------------------------- inert and quit keys

  /** Digit 0 is ignored: it neither clears the cell nor stops the program. */
  lemma ZeroIsIgnored(s: State)
    requires WellFormed(s)
    ensures Next(s, KeyPress(Rune('0'))) == Outcome(s, false)
  {
  }

  /** A character that is neither a digit nor `q` leaves the whole state unchanged. */
  lemma NonDigitIsIgnored(s: State, c: char)
    requires WellFormed(s) && !('0' <= c <= '9') && c != 'q'
    ensures Next(s, KeyPress(Rune(c))) == Outcome(s, false)
  {
  }

  /** Named keys other than the arrows and ctrl+c, and non-key messages, are ignored. */
  lemma OtherMessagesAreIgnored(s: State)
    requires WellFormed(s)
    ensures Next(s, KeyPress(OtherKey)) == Outcome(s, false)
    ensures Next(s, NonKey) == Outcome(s, false)
  {
  }

  /** ctrl+c and q signal termination and change nothing. */
  lemma QuitKeysStop(s: State)
    requires WellFormed(s)
    ensures Next(s, KeyPress(CtrlC)) == Outcome(s, true)
    ensures Next(s, KeyPress(Rune('q'))) == Outcome(s, true)
  {
  }

  /** Only an arrow or a non-zero digit can change the state; every other message leaves it as it is. */
  lemma OnlyArrowsAndDigitsChangeState(s: State, m: Msg)
    requires WellFormed(s)
    ensures !(m.KeyPress? && (m.key.Arrow? || (m.key.Rune? && '1' <= m.key.c <= '9')))
      ==> Next(s, m).state == s
  {
  }

  // ------------------------------------------------------------ the loop

  /** One step keeps the invariant: focused cells within the cursor, values digits, nothing selected. */
  lemma NextPreservesInvariant(s: State, m: Msg)
    requires Invariant(s)
    ensures Invariant(Next(s, m).state)
  {
    if Dispatch(m).Move? {
      ArrowFocusesExactlyCursor(s, Dispatch(m).dir);
    }
  }

  /** One step from a state where exactly the cursor cell is focused keeps it so. */
  lemma NextPreservesExactFocus(s: State, m: Msg)
    requires Invariant(s) && FocusIsCursor(s)
    ensures FocusIsCursor(Next(s, m).state)
  {
    if Dispatch(m).Move? {
      ArrowFocusesExactlyCursor(s, Dispatch(m).dir);
    }
  }

  /** Every state the loop reaches satisfies the invariant. */
  lemma {:induction false} RunPreservesInvariant(s: State, ms: seq<Msg>)
    requires Invariant(s)
    ensures Invariant(Run(s, ms).state)
    decreases |ms|
  {
    if ms != [] {
      NextPreservesInvariant(s, ms[0]);
      if !Next(s, ms[0]).quit {
        RunPreservesInvariant(Next(s, ms[0]).state, ms[1..]);
      }
    }
  }

  /** Once exactly the cursor cell is focused, every later state has exactly the cursor cell focused. */
  lemma {:induction false} RunPreservesExactFocus(s: State, ms: seq<Msg>)
    requires Invariant(s) && FocusIsCursor(s)
    ensures FocusIsCursor(Run(s, ms).state)
    decreases |ms|
  {
    if ms != [] {
      NextPreservesInvariant(s, ms[0]);
      NextPreservesExactFocus(s, ms[0]);
      if !Next(s, ms[0]).quit {
        RunPreservesExactFocus(Next(s, ms[0]).state, ms[1..]);
      }
    }
  }

  /** From the initial state, after the first arrow key exactly the cursor cell stays focused. */
  lemma FocusIsCursorAfterFirstArrow(before: seq<Msg>, d: Direction, after: seq<Msg>)
    requires !Run(Initial(), before).quit
    ensures var s := Run(Initial(), before).state;
      var t := Next(s, KeyPress(Arrow(d))).state;
      FocusIsCursor(Run(t, after).state)
  {
    var s := Run(Initial(), before).state;
    InitialSatisfiesInvariant();
    RunPreservesInvariant(Initial(), before);
    ArrowFocusesExactlyCursor(s, d);
    NextPreservesInvariant(s, KeyPress(Arrow(d)));
    RunPreservesExactFocus(Next(s, KeyPress(Arrow(d))).state, after);
  }

  /** The loop stops at a quit key (ctrl+c or q): later messages have no effect. */
  lemma {:induction false} RunStopsAtQuit(s: State, before: seq<Msg>, q: Msg, after: seq<Msg>)
    requires WellFormed(s) && !Run(s, before).quit && Dispatch(q) == Quit
    ensures Run(s, before + [q] + after) == Outcome(Run(s, before).state, true)
    decreases |before|
  {
    if before == [] {
      assert before + [q] + after == [q] + after;
    } else {
      assert (before + [q] + after)[1..] == before[1..] + [q] + after;
      RunStopsAtQuit(Next(s, before[0]).state, before[1..], q, after);
    }
  }

  /** Not a single cell is focused. */
  ghost predicate NothingFocused(s: State)
    requires WellFormed(s)
  {
    forall y, x :: 0 <= y < SIZE && 0 <= x < SIZE ==> !s.focus[y][x]
  }

  /** A message that is not an arrow key. */
  predicate NotArrow(m: Msg)
  {
    !(m.KeyPress? && m.key.Arrow?)
  }

  /** Only an arrow key focuses a cell: messages without one leave an unfocused board unfocused. */
  lemma {:induction false} NoFocusWithoutArrow(s: State, ms: seq<Msg>)
    requires Invariant(s) && NothingFocused(s)
    requires forall i :: 0 <= i < |ms| ==> NotArrow(ms[i])
    ensures NothingFocused(Run(s, ms).state)
    decreases |ms|
  {
    if ms != [] {
      assert NotArrow(ms[0]);
      NextPreservesInvariant(s, ms[0]);
      if !Next(s, ms[0]).quit {
        assert forall i :: 0 <= i < |ms[1..]| ==> NotArrow(ms[1..][i]) by {
          forall i | 0 <= i < |ms[1..]| ensures NotArrow(ms[1..][i]) {
            assert ms[1..][i] == ms[i + 1];
          }
        }
        NoFocusWithoutArrow(Next(s, ms[0]).state, ms[1..]);
      }
    }
  }

  /** From the start state, no cell is focused as long as no arrow key has arrived. */
  lemma NoFocusBeforeFirstArrow(ms: seq<Msg>)
    requires forall i :: 0 <= i < |ms| ==> NotArrow(ms[i])
    ensures NothingFocused(Run(Initial(), ms).state)
  {
    InitialSatisfiesInvariant();
    NoFocusWithoutArrow(Initial(), ms);
  }

  // ----------------------------------------------------------- scenarios

  /**
   * From the start: Right three times, 5, Left, 0, q. The cursor ends at
   * (2,0), cell (3,0) holds 5 and is blurred, cell (2,0) is focused and
   * empty, every other cell is empty, and the loop has stopped.
   */
  lemma EditingScenario()
    ensures var o := Run(Initial(), [KeyPress(Arrow(Right)), KeyPress(Arrow(Right)), KeyPress(Arrow(Right)),
                                     KeyPress(Rune('5')), KeyPress(Arrow(Left)), KeyPress(Rune('0')),
                                     KeyPress(Rune('q'))]);
      && o.quit
      && o.state.cursorX == 2 && o.state.cursorY == 0
      && o.state.values[0][3] == 5
      && (forall y, x :: 0 <= y < SIZE && 0 <= x < SIZE && (y, x) != (0, 3) ==> o.state.values[y][x] == 0)
      && o.state.focus[0][2] && !o.state.focus[0][3]
  {
  }

  /** Up at the top edge leaves the cursor at (0,0). */
  lemma UpAtTopScenario()
    ensures var o := Run(Initial(), [KeyPress(Arrow(Up))]);
      !o.quit && o.state.cursorX == 0 && o.state.cursorY == 0 && o.state.focus[0][0]
  {
    ArrowAtEdgeStays(Initial(), Up);
    ArrowRefocuses(Initial(), Up);
  }
}
