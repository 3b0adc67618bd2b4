/**
 * The one-move-win search and the computer player's move choice, shared by
 * TurnHandler (turn_handler.py) and Controller (main.py), whose two copies
 * of this logic are identical.
 */
module Heuristic {
  import opened Tiles

  /** The k-th cell (0, 1 or 2) of a line. */
  function Nth(line: Line, k: int): Cell
    requires 0 <= k < 3
  {
    if k == 0 then line.0 else if k == 1 then line.1 else line.2
  }

  /** Cell k of the line is open and the other two cells are in `moves`. */
  predicate Completes(line: Line, moves: seq<Cell>, open: seq<Cell>, k: int)
    requires 0 <= k < 3
  {
    && Nth(line, k) in open
    && (k == 0 || line.0 in moves)
    && (k == 1 || line.1 in moves)
    && (k == 2 || line.2 in moves)
  }

  /** Some cell of the line would complete it for the owner of `moves`. */
  predicate Completable(line: Line, moves: seq<Cell>, open: seq<Cell>) {
    Completes(line, moves, open, 0) || Completes(line, moves, open, 1) || Completes(line, moves, open, 2)
  }

  /**
   * Cell k of line j is the first completion met when the lines from `i` on
   * are tried in order and, within a line, cell 2 before cell 1 before cell 0.
   */
  ghost predicate FirstCompletion(lines: seq<Line>, moves: seq<Cell>, open: seq<Cell>, i: int, j: int, k: int)
    requires 0 <= i <= j < |lines| && 0 <= k < 3
  {
    && Completes(lines[j], moves, open, k)
    && (forall k' :: k < k' < 3 ==> !Completes(lines[j], moves, open, k'))
    && (forall j' :: i <= j' < j ==> !Completable(lines[j'], moves, open))
  }

  /** The scan of find_winning_move, from line `i` on. */
  function FindFrom(lines: seq<Line>, moves: seq<Cell>, open: seq<Cell>, i: nat): (r: Option<Cell>)
    requires i <= |lines|
    ensures r.None? <==> forall j :: i <= j < |lines| ==> !Completable(lines[j], moves, open)
    ensures r.Some? ==> exists j, k :: i <= j < |lines| && 0 <= k < 3
                          && FirstCompletion(lines, moves, open, i, j, k) && r.value == Nth(lines[j], k)
    decreases |lines| - i
  {
    if i == |lines| then None
    else
      var line := lines[i];
      if line.0 in moves && line.1 in moves && line.2 in open then
        assert FirstCompletion(lines, moves, open, i, i, 2);
        Some(line.2)
      else if line.0 in moves && line.2 in moves && line.1 in open then
        assert FirstCompletion(lines, moves, open, i, i, 1);
        Some(line.1)
      else if line.1 in moves && line.2 in moves && line.0 in open then
        assert FirstCompletion(lines, moves, open, i, i, 0);
        Some(line.0)
      else
        var r := FindFrom(lines, moves, open, i + 1);
        assert !Completable(line, moves, open);
        assert r.Some? ==> exists j, k :: i <= j < |lines| && 0 <= k < 3
                              && FirstCompletion(lines, moves, open, i, j, k) && r.value == Nth(lines[j], k) by {
          if r.Some? {
            var j, k :| i + 1 <= j < |lines| && 0 <= k < 3
                        && FirstCompletion(lines, moves, open, i + 1, j, k) && r.value == Nth(lines[j], k);
            assert FirstCompletion(lines, moves, open, i, j, k);
          }
        }
        r
  }

  /**
   * find_winning_move: the first cell, in table order, that completes a
   * line for the owner of `moves`; None (the source's `[]`) when there is none.
   */
  function FindWinningMove(lines: seq<Line>, moves: seq<Cell>, open: seq<Cell>): (r: Option<Cell>)
    ensures r.None? <==> forall j :: 0 <= j < |lines| ==> !Completable(lines[j], moves, open)
    ensures r.Some? ==> exists j, k :: 0 <= j < |lines| && 0 <= k < 3
                          && FirstCompletion(lines, moves, open, 0, j, k) && r.value == Nth(lines[j], k)
  {
    FindFrom(lines, moves, open, 0)
  }

  /** A found move is open and the other two cells of its line are in `moves`. */
  lemma WinningMoveCompletesLine(lines: seq<Line>, moves: seq<Cell>, open: seq<Cell>)
    requires FindWinningMove(lines, moves, open).Some?
    ensures var c := FindWinningMove(lines, moves, open).value;
      && c in open
      && exists j :: 0 <= j < |lines| && c in [lines[j].0, lines[j].1, lines[j].2]
           && (c == lines[j].0 || lines[j].0 in moves)
           && (c == lines[j].1 || lines[j].1 in moves)
           && (c == lines[j].2 || lines[j].2 in moves)
  {
    var c := FindWinningMove(lines, moves, open).value;
    var j, k :| 0 <= j < |lines| && 0 <= k < 3
                && FirstCompletion(lines, moves, open, 0, j, k) && c == Nth(lines[j], k);
    assert Completes(lines[j], moves, open, k);
  }

  /** With no moves made there is nothing to complete: the guard on player one's moves never changes the choice. */
  lemma NoMovesNoWin(lines: seq<Line>, open: seq<Cell>)
    ensures FindWinningMove(lines, [], open) == None
  {
  }

  /**
   * The deterministic part of computer_turn: the computer's own winning
   * cell, else player one's winning cell (only looked for once player one
   * has moved), else the centre if it is open; None leaves the choice to
   * the random pick among the open outer cells.
   */
  function ComputerPlan(lines: seq<Line>, p1: seq<Cell>, p2: seq<Cell>, open: seq<Cell>): (r: Option<Cell>)
    ensures r.Some? ==> r.value in open
    ensures FindWinningMove(lines, p2, open).Some? ==> r == FindWinningMove(lines, p2, open)
    ensures FindWinningMove(lines, p2, open).None? && FindWinningMove(lines, p1, open).Some?
            ==> r == FindWinningMove(lines, p1, open)
    ensures FindWinningMove(lines, p2, open).None? && FindWinningMove(lines, p1, open).None?
            ==> r == if Centre in open then Some(Centre) else None
  {
    NoMovesNoWin(lines, open);
    var own := FindWinningMove(lines, p2, open);
    if own.Some? then
      WinningMoveCompletesLine(lines, p2, open);
      own
    else if p1 != [] && FindWinningMove(lines, p1, open).Some? then
      WinningMoveCompletesLine(lines, p1, open);
      FindWinningMove(lines, p1, open)
    else if Centre in open then Some(Centre)
    else None
  }

  /** The cells of `cells` that are open, in the order of `cells`. */
  function KeepOpen(cells: seq<Cell>, open: seq<Cell>): (r: seq<Cell>)
    ensures |r| <= |cells|
    ensures forall c {:trigger c in r} :: c in r <==> c in cells && c in open
  {
    if cells == [] then []
    else (if cells[0] in open then [cells[0]] else []) + KeepOpen(cells[1..], open)
  }

  /** move_bank: the open outer cells, edges before corners. */
  function MoveBank(open: seq<Cell>): (bank: seq<Cell>)
    ensures forall c {:trigger c in bank} :: c in bank <==> c in OuterPositions && c in open
  {
    KeepOpen(OuterPositions, open)
  }

  /**
   * When the plan leaves the choice to chance and some cell is open, the
   * bank holds every open cell, so the random pick always has a cell to take.
   */
  lemma BankCoversOpenCells(open: seq<Cell>)
    requires forall c {:trigger c in open} :: c in open ==> ValidCell(c)
    requires Centre !in open
    ensures forall c {:trigger c in open} :: c in open ==> c in MoveBank(open)
    ensures open != [] ==> MoveBank(open) != []
  {
    forall c | c in open ensures c in MoveBank(open) {
      CentreAndOuterCoverBoard(c);
    }
    if open != [] {
      assert open[0] in open;
    }
  }

  /** The computer always has a move when a cell is open: either the plan or a non-empty bank of open cells. */
  lemma ComputerAlwaysMoves(lines: seq<Line>, p1: seq<Cell>, p2: seq<Cell>, open: seq<Cell>)
    requires forall c {:trigger c in open} :: c in open ==> ValidCell(c)
    requires open != []
    ensures ComputerPlan(lines, p1, p2, open).None? ==> MoveBank(open) != []
  {
    if ComputerPlan(lines, p1, p2, open).None? {
      BankCoversOpenCells(open);
    }
  }
}
