# Tic-tac-toe game-state engine

This project is a Dafny model of the game-state engine of a console
tic-tac-toe program written in Python. The engine has three copies:

- `TurnHandler` (`turn_handler.py`) owns one round. It holds a 3x3 board of
  `'-'`, `'X'` and `'O'`, the move list of each player, and the list of
  open cells. The open-cell list is rebuilt by a row-major scan after every
  move. The class also holds the one-move-win search and the computer
  player's move choice: its own win, else block player one, else the
  centre, else a random outer cell.
- `BoardManager` (`board_manager.py`) creates the board and a `TurnHandler`
  that shares it. It detects wins and draws, keeps the two win streaks, and
  carries them from one round to the next.
- `Controller` (`main.py`) is an earlier copy of both in a single class. Its
  board holds strings. `change_state` takes separate `state` and `turn`
  arguments. It tests for a draw before looking for wins. Its input filter
  applies a move before checking that the input was valid.

Layout, one module per file:

| file | module | contents |
|---|---|---|
| `tiles.dfy` | `Tiles` | cells, the tables of winning lines and outer cells, a 3x3 grid as a value, the row-major open-cell scan, and the invariant that ties the move lists to the grid |
| `heuristic.dfy` | `Heuristic` | `find_winning_move` and the deterministic part of `computer_turn`, shared by both copies |
| `verdicts.dfy` | `Verdicts` | the two `check_for_win` scans and the win-before-draw order, compared |
| `turn_handler.dfy` | `TurnHandling` | the `TurnHandler` class and the parser of `player_turn` |
| `board_manager.dfy` | `BoardManagement` | the `BoardManager` class |
| `controller.dfy` | `Control` | the `Controller` class and its digit filter |

The classes keep the source's shape:

- The board is an `array2`.
- The move lists and the open-cell list are `seq` fields that the methods
  reassign.
- `update_open_spaces` is the source's pair of nested loops.
- `check_for_win` is a loop over the table of lines.

Each method is proved against a pure specification function:

- `OpenCells` for the scan;
- `FindWinningMove` and `ComputerPlan` for the computer's move;
- `ManagerScan` and `ControllerVerdict` for the two `check_for_win` copies;
- `SetCell` for the board after a move.

The lemmas are proved about those functions. `Consistent()` says that each
move list is exactly the cells holding that player's mark, with no repeats,
and that the two move lists and the open list together count nine cells.
Every mutating method preserves it.

### Where the code and its own promise differ

The docstring of `check_for_win` (`board_manager.py:39`) says the method
recognises a won, lost or drawn position. A board whose last free cell
completes a line is a won position, so a faithful check would test every
line for both players before it calls a full board a draw. This model
follows the code, and neither copy of `check_for_win` keeps that order:

- `board_manager.py` tests for a draw inside the loop, after each line. On a
  full board it looks only at the first line (the top row) before reporting
  a draw.
- `main.py` reports a draw whenever no cell is open, before it looks at any
  line.

`Verdicts.ReferenceStatus` is the win-before-draw order. Two lemmas compare
it with the code:

- `CopiesAgreeWhileOpen` proves that all three agree while a cell is open.
- `LastMoveWinReportedAsDraw` shows a board filled by player one's winning
  move. Both copies call it a draw, and `ReferenceStatus` calls it a win.

The parsers also differ. `turn_handler.py` refuses any character that is not
a digit, so `"1 2"` is refused, even though its prompt says a space is
optional. `main.py` drops every character other than `1`, `2` and `3`.

## Model

| member | source | states |
|---|---|---|
| Tiles.CentreAndOuterCoverBoard | turn_handler.py:17 | every valid cell is the centre or one of the eight outer cells |
| Tiles.OpenInRowsMembers | turn_handler.py:120-123 | the first rows of the scan yield exactly their `'-'` cells, at most three per row, in strictly increasing row-major position |
| Tiles.OpenCells | turn_handler.py:115-126 | the open list holds exactly the valid cells that contain the empty mark, at most nine, in strictly increasing row-major position |
| Tiles.OpenCellsNoDup | turn_handler.py:115-126 | the open list has no repeated cell |
| Tiles.OpenCellsOfEmptyGrid | turn_handler.py:5-13 | on an all-empty board all nine cells are open and the k-th one is at row-major position k |
| Tiles.OpenCountAfterClaim | turn_handler.py:103-113 | writing a mark into an empty cell shortens the open list by exactly one |
| Tiles.EmptyBoardMatches | turn_handler.py:5-13 | an empty board with empty move lists satisfies the move-list invariant: 0 + 0 + 9 cells |
| Tiles.ClaimByOne | turn_handler.py:103-106 | player one claiming an empty cell keeps each list equal to its mark's cells, without repeats, with the three counts summing to nine |
| Tiles.ClaimByTwo | turn_handler.py:107-109 | the same for player two |
| Tiles.MovesDisjoint | turn_handler.py:95-113 | under the invariant no cell is in both move lists |
| Heuristic.FindFrom | turn_handler.py:86-93 | from line i on: None exactly when no line can be completed; otherwise the cell is the first completion, in table order, with cell 2, then 1, then 0 tried as the missing cell |
| Heuristic.FindWinningMove | turn_handler.py:82-93 | None (the source's `[]`) exactly when no line has two cells in `moves` and the third open; otherwise the first such completion in scan order |
| Heuristic.WinningMoveCompletesLine | turn_handler.py:86-92 | a found cell is open, and the other two cells of its line are in `moves` |
| Heuristic.NoMovesNoWin | turn_handler.py:65-66 | with no moves there is nothing to complete, so the guard on player one's list never changes the choice |
| Heuristic.ComputerPlan | turn_handler.py:56-74 | strict priority: own winning cell, else player one's winning cell, else the centre if open, else no fixed choice; any chosen cell is open |
| Heuristic.MoveBank | turn_handler.py:76 | the bank is exactly the outer cells that are open |
| Heuristic.BankCoversOpenCells | turn_handler.py:72-77 | with the centre taken, every open cell is in the bank, so the bank is non-empty when any cell is open |
| Heuristic.ComputerAlwaysMoves | turn_handler.py:56-80 | with a cell open, either the plan names a cell or the bank is non-empty |
| Verdicts.FirstWin | main.py:47-63 | never a draw; in progress exactly when neither player owns any line; a win names player 1 or 2 |
| Verdicts.FirstWinIsFirstOwned | main.py:47-62 | a reported win is for the first owned line in table order, and player one when both own it |
| Verdicts.ManagerScan | board_manager.py:40-70 | a draw only on a full board when line i is owned by neither; in progress only when no line is owned and a cell is open or the table is done |
| Verdicts.ManagerScanIsFirstOwned | board_manager.py:40-67 | a reported win is for the first owned line, player one first; on a full board only the line examined first can be reported |
| Verdicts.ControllerVerdict | main.py:36-63 | a draw exactly when no cell is open; in progress exactly when a cell is open and no line is owned |
| Verdicts.ReferenceStatus | board_manager.py:39 | the win-before-draw order: a draw exactly when no cell is open and no line is owned |
| Verdicts.WinIsFirstOwnedLine | main.py:47-62 | the win reported by main.py's check, and by the reference order, is for the first owned line in table order |
| Verdicts.ScanAgreesWhileOpen | board_manager.py:40-70 | with a cell open, the board_manager scan from any line equals main.py's line loop from that line |
| Verdicts.CopiesAgreeWhileOpen | board_manager.py:38-70 | with a cell open, board_manager.py, main.py and the reference order report the same outcome |
| Verdicts.ManagerInProgressExactly | board_manager.py:61-70 | board_manager.py's check reports no outcome exactly when a cell is open and no line is owned |
| Verdicts.ManagerOnFullBoard | board_manager.py:40-67 | on a full board only the first line is checked before a draw is reported |
| Verdicts.LastMoveWinReportedAsDraw | board_manager.py:60-67 | a board filled by player one's diagonal win is a draw for both copies and a win for the reference order |
| Verdicts.TopRowWins | main.py:47-55 | player one's top row is reported as player one's win by all three |
| TurnHandling.Lowered | turn_handler.py:31 | one value per character, each the digit's value minus one |
| TurnHandling.KeepAllowed | turn_handler.py:42 | every kept value is in [0,2]; nothing is dropped exactly when all values are in [0,2], and then the list is unchanged (which values survive a drop is stated by the three lemmas below) |
| TurnHandling.KeepAllowedAppend | turn_handler.py:42 | filtering a concatenation concatenates the filtered parts, so the filter keeps order and works value by value |
| TurnHandling.KeepAllowedOne | turn_handler.py:42 | a single value is kept exactly when it is in [0,2] |
| TurnHandling.KeepAllowedSnoc | turn_handler.py:42 | appending a value to the input appends it to the result exactly when it is in [0,2]; with the empty case this fixes the result for every input |
| TurnHandling.ParseCoordinates | turn_handler.py:27-48 | not numeric exactly when some character is not a digit; wrong count exactly when all are digits but there are not two; accepted exactly when there are two characters in '1'..'3'; the cell is each digit minus one |
| TurnHandling.SpacedInputRefused | turn_handler.py:29-34 | `"1 2"` is refused as not numeric, and `"12"` gives cell (0,1) |
| TurnHandling.TurnHandler.constructor | turn_handler.py:5-18 | the handler uses the given board and table, both move lists are empty, the open list matches the board, and an all-empty board starts consistent |
| TurnHandling.TurnHandler.UpdateOpenSpaces | turn_handler.py:115-126 | the rebuilt list is `OpenCells` of the board, and nothing else changes |
| TurnHandling.TurnHandler.FindWinningMove | turn_handler.py:82-93 | a found cell is open; None exactly when no line can be completed |
| TurnHandling.TurnHandler.ChangeState | turn_handler.py:95-113 | a taken cell returns false and changes nothing. Turn 1 writes 'X' and extends player one's list only; turn 2 writes 'O' and extends player two's list only; any other turn writes nothing. The open list is re-derived and shrinks by one after a mark. The invariant is kept |
| TurnHandling.TurnHandler.ComputerTurn | turn_handler.py:56-80 | claims one previously open cell for 'O': the planned cell, else a cell of the bank. The open list shrinks by one and the invariant is kept |
| TurnHandling.TurnHandler.PlayerTurn | turn_handler.py:27-54 | refused input changes nothing; on parsed input the move is made exactly when the cell is empty: player 1 writes 'X' and extends only player one's list, player 2 writes 'O' and extends only player two's; an occupied cell changes nothing |
| BoardManagement.NewRound | board_manager.py:7-36 | a new all-'-' board and a new handler on that board with the fixed table, empty lists, nine open cells, consistent |
| BoardManagement.BoardManager.constructor | board_manager.py:5-36 | fresh round on a shared board, streaks as given (0 by default), winner 0, game running |
| BoardManagement.BoardManager.CheckForWin | board_manager.py:38-70 | returns whether `ManagerScan` reports an outcome. A win raises the winner's streak by one, clears the other's and sets the winner. A draw clears both streaks and sets winner 0. Otherwise nothing changes |
| BoardManagement.BoardManager.ResetBoard | board_manager.py:80-83 | every field set again as by the constructor, with the given streaks and a new board and handler |
| BoardManagement.BoardManager.FinishRound | board_manager.py:127-135 | "y": play again with the streaks kept; "r": play again with both streaks at 0; "n": stop with no field of the manager changed |
| Control.DigitFilter | main.py:92-93 | every kept value is in [0,2]; nothing is dropped exactly when every character is in '1'..'3', and then each value is its character minus '1' (which values survive a drop is stated by the lemmas below) |
| Control.DigitFilterAppend | main.py:93 | filtering a concatenation concatenates the filtered parts, so the filter keeps order and works character by character |
| Control.DigitFilterCons | main.py:93 | the first character contributes its value minus one when it is '1'..'3' and nothing otherwise, followed by the filtered rest |
| Control.DigitFilterOne | main.py:93 | a single character gives [its value minus one] when it is '1'..'3', and [] otherwise |
| Control.DigitFilterSnoc | main.py:93 | appending a character appends its value minus one exactly when it is '1'..'3'; with the empty case this fixes the result for every input |
| Control.DigitFilterDropsAll | main.py:93 | a line without '1'..'3' filters to [] |
| Control.DigitFilterLeadingDigit | main.py:93 | an allowed digit followed only by dropped characters gives that digit's value alone |
| Control.DigitFilterSkipsSeparator | main.py:92-95 | two allowed digits around any run of dropped characters (spaces, commas, other digits) name the cell of those two digits |
| Control.FilterAgreesWithParser | main.py:92-93 | on input that turn_handler.py accepts, the filter yields the same cell |
| Control.FilterIgnoresSeparators | main.py:92-93 | `"1 2"` filters to [0,1] where turn_handler.py refuses it; `"14"` filters to [0]; `"123"` to [0,1,2] |
| Control.Controller.constructor | main.py:23-34 | an all-"-" board with nine open cells, empty lists, empty characters, streaks and winner 0 |
| Control.Controller.StartsConsistent | main.py:169-170 | once two distinct characters other than "-" are chosen, a fresh controller satisfies the invariant |
| Control.Controller.CheckForWin | main.py:36-63 | returns whether `ControllerVerdict` reports an outcome, with the same streak and winner updates as board_manager.py |
| Control.Controller.ChangeState | main.py:65-85 | a taken cell returns false and changes nothing. Otherwise `state` alone picks the character written and `turn` alone picks the list extended; open cells are re-derived. The invariant is kept when state equals turn |
| Control.Controller.PlayerTurn | main.py:92-102 | the move from the first two filtered coordinates is applied whenever that cell is empty. The result is true only when exactly two coordinates were given, so input with more than two changes the board and still returns false |
| Control.Controller.FindWinningMove | main.py:104-113 | the same contract as the TurnHandler copy |
| Control.Controller.ComputerTurn | main.py:115-138 | claims one previously open cell with player two's character, by the same priority as the TurnHandler copy; the invariant is kept |
| Control.Controller.UpdateOpenSpaces | main.py:140-149 | the rebuilt list is `OpenCells` of the board |

## Left out

- Console I/O is not modelled: the `input()` prompts, the `print` messages and `display_board` in all three files. `player_turn` takes the typed line as a parameter. The replay prompt's retry loop is replaced by the precondition on `FinishRound`.
- `random.choice` is not modelled. The random pick is a nondeterministic choice from the move bank (`:|`).
- TurnHandling.TurnHandler.ComputerTurn: the chosen cell is returned as a ghost out-parameter; the source returns nothing.
- TurnHandling.TurnHandler.ComputerTurn: requires an open cell. With none, the source calls `random.choice` on an empty bank, which raises an exception.
- Control.Controller.ComputerTurn: the same two notes apply.
- TurnHandling.TurnHandler.ChangeState: requires the row and column to be in [0,2]. Python's negative-index wrap-around and its `IndexError` are not modelled.
- Control.Controller.ChangeState: requires the row and column to be in [0,2], as above.
- Control.Controller.PlayerTurn: requires at least two filtered coordinates. With fewer, the source raises `IndexError` before any check.
- TurnHandling.ParseCoordinates: treats only ASCII `'0'`-`'9'` as digits. Python's `int` also accepts other Unicode digits.
- Control.Controller.ChangeState: the source re-derives the open cells through the module-level `controller` object, not through `self`. The model uses the receiver, which is the same object when the script runs.
- Control.Controller.ChangeState: the invariant is stated only for calls with `state == turn`, which are the only calls the source makes. With different values, a cell's character and the list that records it disagree.
- `play_round` is not modelled (board_manager.py:85-123), nor the script at the end of main.py (main.py:160-196). Both are round loops driven by console input, around the modelled operations. The fields `game_running` and `is_two_player` are kept but nothing reads them.
- The winning-streak message after a round is not modelled (board_manager.py:113-118, main.py:192-196); it is output only.
- The commented-out prompts for the players' characters are not modelled (main.py:167-168).
- Saving win counts to a file: none of these files does this.
