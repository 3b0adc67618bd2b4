/**
 * Win and draw detection. The two copies of check_for_win in the source
 * scan the same table but place the draw test differently:
 * BoardManager (board_manager.py) tests for a draw inside the loop, after
 * each line; Controller (main.py) tests for a draw before the loop. Both are
 * modelled as written and compared with the win-before-draw order that
 * check_for_win's docstring (board_manager.py:39) implies: a won position is
 * reported as won.
 */
module Verdicts {
  import opened Tiles

  datatype Verdict = InProgress | Won(player: int) | Drawn

  /** All three cells of the line are in `moves`. */
  predicate Owns(moves: seq<Cell>, line: Line) {
    line.0 in moves && line.1 in moves && line.2 in moves
  }

  /** Neither player owns any line from `i` on. */
  ghost predicate NoOwnedLineFrom(lines: seq<Line>, p1: seq<Cell>, p2: seq<Cell>, i: int) {
    forall j :: i <= j < |lines| && 0 <= j ==> !Owns(p1, lines[j]) && !Owns(p2, lines[j])
  }

  /**
   * Line j is the first line from `i` on that either player owns, and
   * `player` is the one reported for it: player one when both own it.
   */
  ghost predicate FirstOwnedBy(lines: seq<Line>, p1: seq<Cell>, p2: seq<Cell>, i: int, j: int, player: int)
    requires 0 <= i <= j < |lines|
  {
    && (forall j' :: i <= j' < j ==> !Owns(p1, lines[j']) && !Owns(p2, lines[j']))
    && (player == 1 || player == 2)
    && (player == 1 <==> Owns(p1, lines[j]))
    && (player == 2 ==> Owns(p2, lines[j]))
  }

  /** The line loop of main.py's check_for_win, from line `i` on: wins only. */
  function FirstWin(lines: seq<Line>, p1: seq<Cell>, p2: seq<Cell>, i: nat): (v: Verdict)
    requires i <= |lines|
    ensures v != Drawn
    ensures v == InProgress <==> NoOwnedLineFrom(lines, p1, p2, i)
    ensures v.Won? ==> v.player == 1 || v.player == 2
    decreases |lines| - i
  {
    if i == |lines| then InProgress
    else if Owns(p1, lines[i]) then Won(1)
    else if Owns(p2, lines[i]) then Won(2)
    else FirstWin(lines, p1, p2, i + 1)
  }

  /** A win found by FirstWin is reported for the first owned line from `i` on. */
  lemma {:induction false} FirstWinIsFirstOwned(lines: seq<Line>, p1: seq<Cell>, p2: seq<Cell>, i: nat)
    requires i <= |lines|
    ensures var v := FirstWin(lines, p1, p2, i);
            v.Won? ==> exists j :: i <= j < |lines| && FirstOwnedBy(lines, p1, p2, i, j, v.player)
    decreases |lines| - i
  {
    var v := FirstWin(lines, p1, p2, i);
    if i < |lines| {
      if Owns(p1, lines[i]) {
        assert FirstOwnedBy(lines, p1, p2, i, i, 1);
      } else if Owns(p2, lines[i]) {
        assert FirstOwnedBy(lines, p1, p2, i, i, 2);
      } else if v.Won? {
        FirstWinIsFirstOwned(lines, p1, p2, i + 1);
        var j :| i + 1 <= j < |lines| && FirstOwnedBy(lines, p1, p2, i + 1, j, v.player);
        assert FirstOwnedBy(lines, p1, p2, i, j, v.player);
      }
    }
  }

  /**
   * The loop of board_manager.py's check_for_win, from line `i` on: player
   * one's win, player two's win, then the draw test, line by line.
   */
  function ManagerScan(lines: seq<Line>, p1: seq<Cell>, p2: seq<Cell>, open: seq<Cell>, i: nat): (v: Verdict)
    requires i <= |lines|
    ensures v == Drawn ==> open == [] && i < |lines| && !Owns(p1, lines[i]) && !Owns(p2, lines[i])
    ensures v == InProgress ==> NoOwnedLineFrom(lines, p1, p2, i) && (open != [] || i == |lines|)
    ensures v.Won? ==> v.player == 1 || v.player == 2
    decreases |lines| - i
  {
    if i == |lines| then InProgress
    else if Owns(p1, lines[i]) then Won(1)
    else if Owns(p2, lines[i]) then Won(2)
    else if open == [] then Drawn
    else ManagerScan(lines, p1, p2, open, i + 1)
  }

  /**
   * A win found by ManagerScan is reported for the first owned line from
   * `i` on, and on a full board only line `i` itself can be reported.
   */
  lemma {:induction false} ManagerScanIsFirstOwned(lines: seq<Line>, p1: seq<Cell>, p2: seq<Cell>, open: seq<Cell>, i: nat)
    requires i <= |lines|
    ensures var v := ManagerScan(lines, p1, p2, open, i);
            v.Won? ==> exists j :: i <= j < |lines| && FirstOwnedBy(lines, p1, p2, i, j, v.player)
                                   && (open != [] || j == i)
    decreases |lines| - i
  {
    var v := ManagerScan(lines, p1, p2, open, i);
    if i < |lines| {
      if Owns(p1, lines[i]) {
        assert FirstOwnedBy(lines, p1, p2, i, i, 1);
      } else if Owns(p2, lines[i]) {
        assert FirstOwnedBy(lines, p1, p2, i, i, 2);
      } else if open != [] && v.Won? {
        ManagerScanIsFirstOwned(lines, p1, p2, open, i + 1);
        var j :| i + 1 <= j < |lines| && FirstOwnedBy(lines, p1, p2, i + 1, j, v.player);
        assert FirstOwnedBy(lines, p1, p2, i, j, v.player);
      }
    }
  }

  /** What main.py's check_for_win decides: a draw whenever no cell is open, else the first owned line. */
  function ControllerVerdict(lines: seq<Line>, p1: seq<Cell>, p2: seq<Cell>, open: seq<Cell>): (v: Verdict)
    ensures v == Drawn <==> open == []
    ensures v == InProgress <==> open != [] && NoOwnedLineFrom(lines, p1, p2, 0)
    ensures v.Won? ==> v.player == 1 || v.player == 2
  {
    if open == [] then Drawn else FirstWin(lines, p1, p2, 0)
  }

  /**
   * The order check_for_win's docstring implies: every line is checked for a
   * win before a full board counts as a draw.
   */
  function ReferenceStatus(lines: seq<Line>, p1: seq<Cell>, p2: seq<Cell>, open: seq<Cell>): (v: Verdict)
    ensures v == Drawn <==> open == [] && NoOwnedLineFrom(lines, p1, p2, 0)
    ensures v == InProgress <==> open != [] && NoOwnedLineFrom(lines, p1, p2, 0)
    ensures v.Won? ==> v.player == 1 || v.player == 2
  {
    var w := FirstWin(lines, p1, p2, 0);
    if w.Won? then w else if open == [] then Drawn else InProgress
  }

  /**
   * A win reported by main.py's check_for_win or by the win-before-draw
   * order names the first line in table order that either player owns,
   * player one when both do.
   */
  lemma WinIsFirstOwnedLine(lines: seq<Line>, p1: seq<Cell>, p2: seq<Cell>, open: seq<Cell>)
    ensures var v := ControllerVerdict(lines, p1, p2, open);
            v.Won? ==> exists j :: 0 <= j < |lines| && FirstOwnedBy(lines, p1, p2, 0, j, v.player)
    ensures var v := ReferenceStatus(lines, p1, p2, open);
            v.Won? ==> exists j :: 0 <= j < |lines| && FirstOwnedBy(lines, p1, p2, 0, j, v.player)
  {
    FirstWinIsFirstOwned(lines, p1, p2, 0);
  }

  lemma {:induction false} ScanAgreesWhileOpen(lines: seq<Line>, p1: seq<Cell>, p2: seq<Cell>, open: seq<Cell>, i: nat)
    requires i <= |lines| && open != []
    ensures ManagerScan(lines, p1, p2, open, i) == FirstWin(lines, p1, p2, i)
    decreases |lines| - i
  {
    if i < |lines| && !Owns(p1, lines[i]) && !Owns(p2, lines[i]) {
      ScanAgreesWhileOpen(lines, p1, p2, open, i + 1);
    }
  }

  /**
   * While at least one cell is open, the two copies of check_for_win report
   * the same outcome, and it is the win-before-draw outcome.
   */
  lemma CopiesAgreeWhileOpen(lines: seq<Line>, p1: seq<Cell>, p2: seq<Cell>, open: seq<Cell>)
    requires open != []
    ensures ManagerScan(lines, p1, p2, open, 0) == ControllerVerdict(lines, p1, p2, open)
    ensures ControllerVerdict(lines, p1, p2, open) == ReferenceStatus(lines, p1, p2, open)
  {
    ScanAgreesWhileOpen(lines, p1, p2, open, 0);
  }

  /**
   * board_manager.py's check_for_win lets the round go on exactly when some
   * cell is open and nobody owns a line.
   */
  lemma ManagerInProgressExactly(lines: seq<Line>, p1: seq<Cell>, p2: seq<Cell>, open: seq<Cell>)
    requires |lines| > 0
    ensures ManagerScan(lines, p1, p2, open, 0) == InProgress <==> open != [] && NoOwnedLineFrom(lines, p1, p2, 0)
  {
    if open != [] {
      ScanAgreesWhileOpen(lines, p1, p2, open, 0);
    }
  }

  /** On a full board board_manager.py looks only at the first line before reporting a draw. */
  lemma ManagerOnFullBoard(lines: seq<Line>, p1: seq<Cell>, p2: seq<Cell>)
    requires |lines| > 0
    ensures ManagerScan(lines, p1, p2, [], 0)
         == if Owns(p1, lines[0]) then Won(1) else if Owns(p2, lines[0]) then Won(2) else Drawn
  {
  }

  /**
   * A board filled by player one's last move, which completes the main
   * diagonal:
   *   X X O
   *   X X O
   *   O O X
   * Both copies report a draw, where the win-before-draw order reports
   * player one's win.
   */
  lemma LastMoveWinReportedAsDraw()
    ensures var p1 := [Cell(0, 0), Cell(0, 1), Cell(1, 0), Cell(1, 1), Cell(2, 2)];
            var p2 := [Cell(0, 2), Cell(1, 2), Cell(2, 0), Cell(2, 1)];
            && ManagerScan(WinningPositions, p1, p2, [], 0) == Drawn
            && ControllerVerdict(WinningPositions, p1, p2, []) == Drawn
            && ReferenceStatus(WinningPositions, p1, p2, []) == Won(1)
  {
    var p1 := [Cell(0, 0), Cell(0, 1), Cell(1, 0), Cell(1, 1), Cell(2, 2)];
    var p2 := [Cell(0, 2), Cell(1, 2), Cell(2, 0), Cell(2, 1)];
    assert !Owns(p1, WinningPositions[0]) && !Owns(p2, WinningPositions[0]);
    assert FirstWin(WinningPositions, p1, p2, 6) == Won(1);
    assert !Owns(p1, WinningPositions[5]) && !Owns(p2, WinningPositions[5]);
    assert !Owns(p1, WinningPositions[4]) && !Owns(p2, WinningPositions[4]);
    assert !Owns(p1, WinningPositions[3]) && !Owns(p2, WinningPositions[3]);
    assert !Owns(p1, WinningPositions[2]) && !Owns(p2, WinningPositions[2]);
    assert !Owns(p1, WinningPositions[1]) && !Owns(p2, WinningPositions[1]);
  }

  /** Top row for player one after five alternating moves: every copy reports player one's win. */
  lemma TopRowWins()
    ensures var p1 := [Cell(0, 0), Cell(0, 1), Cell(0, 2)];
            var p2 := [Cell(1, 1), Cell(2, 2)];
            var open := [Cell(1, 0), Cell(1, 2), Cell(2, 0), Cell(2, 1)];
            && ManagerScan(WinningPositions, p1, p2, open, 0) == Won(1)
            && ControllerVerdict(WinningPositions, p1, p2, open) == Won(1)
            && ReferenceStatus(WinningPositions, p1, p2, open) == Won(1)
  {
    var p1 := [Cell(0, 0), Cell(0, 1), Cell(0, 2)];
    assert Owns(p1, WinningPositions[0]);
  }
}
