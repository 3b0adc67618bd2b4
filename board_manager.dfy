/**
 * board_manager.py: the BoardManager class, which owns the board of a round,
 * the two win streaks and the round's winner, and shares the board with its
 * TurnHandler.
 */
module BoardManagement {
  import opened Tiles
  import opened Verdicts
  import opened TurnHandling

  /** An empty board and a TurnHandler for it, as __init__ builds them. */
  method NewRound() returns (b: array2<char>, handler: TurnHandler)
    ensures fresh(b) && fresh(handler)
    ensures b.Length0 == 3 && b.Length1 == 3 && AllEmpty(Snapshot(b), EmptyMark)
    ensures handler.board == b && handler.winningPositions == WinningPositions
    ensures handler.playerOneMoves == [] && handler.playerTwoMoves == []
    ensures handler.Consistent() && |handler.openSpaces| == 9
  {
    b := new char[3, 3]((i, j) => EmptyMark);
    assert AllEmpty(Snapshot(b), EmptyMark);
    handler := new TurnHandler(b, WinningPositions);
    OpenCellsOfEmptyGrid(Snapshot(b), EmptyMark);
  }

  class BoardManager {
    var board: array2<char>
    var playerOneWinstreak: int
    var playerTwoWinstreak: int
    var winner: int
    var gameRunning: bool
    var isTwoPlayer: string
    var winningPositions: seq<Line>
    var turnHandler: TurnHandler

    /** The TurnHandler writes on this manager's board and both use the fixed table of lines. */
    ghost predicate Valid()
      reads this, turnHandler, turnHandler.board
    {
      && turnHandler.board == board
      && turnHandler.Valid()
      && winningPositions == WinningPositions
      && turnHandler.winningPositions == WinningPositions
    }

    /** The board and move lists are those of a round nobody has played in yet. */
    ghost predicate FreshRound()
      reads this, turnHandler, turnHandler.board
    {
      && Valid()
      && AllEmpty(Snapshot(board), EmptyMark)
      && turnHandler.playerOneMoves == [] && turnHandler.playerTwoMoves == []
      && turnHandler.Consistent()
      && |turnHandler.openSpaces| == 9
    }

    constructor (p1Winstreak: int := 0, p2Winstreak: int := 0)
      ensures FreshRound() && fresh(board) && fresh(turnHandler)
      ensures playerOneWinstreak == p1Winstreak && playerTwoWinstreak == p2Winstreak
      ensures winner == 0 && gameRunning && isTwoPlayer == ""
    {
      var b, handler := NewRound();
      board := b;
      playerOneWinstreak := p1Winstreak;
      playerTwoWinstreak := p2Winstreak;
      winner := 0;
      gameRunning := true;
      isTwoPlayer := "";
      winningPositions := WinningPositions;
      turnHandler := handler;
    }

    /**
     * check_for_win: walks the lines in table order; a line owned by player
     * one, then by player two, ends the round with that player's streak
     * raised and the other's cleared; after each line that nobody owns, a
     * board without open cells ends the round as a draw with both streaks
     * cleared. True when the round is over.
     */
    method CheckForWin() returns (over: bool)
      requires Valid()
      modifies this`playerOneWinstreak, this`playerTwoWinstreak, this`winner
      ensures var v := ManagerScan(WinningPositions, turnHandler.playerOneMoves,
                                   turnHandler.playerTwoMoves, turnHandler.openSpaces, 0);
              && over == (v != InProgress)
              && (v == Won(1) ==> && playerOneWinstreak == old(playerOneWinstreak) + 1
                                  && playerTwoWinstreak == 0 && winner == 1)
              && (v == Won(2) ==> && playerOneWinstreak == 0
                                  && playerTwoWinstreak == old(playerTwoWinstreak) + 1 && winner == 2)
              && (v == Drawn ==> playerOneWinstreak == 0 && playerTwoWinstreak == 0 && winner == 0)
              && (v == InProgress ==> && playerOneWinstreak == old(playerOneWinstreak)
                                      && playerTwoWinstreak == old(playerTwoWinstreak)
                                      && winner == old(winner))
    {
      ghost var p1, p2, open := turnHandler.playerOneMoves, turnHandler.playerTwoMoves, turnHandler.openSpaces;
      var i := 0;
      while i < |winningPositions|
        invariant 0 <= i <= |winningPositions|
        invariant ManagerScan(WinningPositions, p1, p2, open, i) == ManagerScan(WinningPositions, p1, p2, open, 0)
        invariant playerOneWinstreak == old(playerOneWinstreak) && playerTwoWinstreak == old(playerTwoWinstreak)
        invariant winner == old(winner)
      {
        var pos := winningPositions[i];
        if pos.0 in turnHandler.playerOneMoves && pos.1 in turnHandler.playerOneMoves
           && pos.2 in turnHandler.playerOneMoves {
          playerOneWinstreak := playerOneWinstreak + 1;
          playerTwoWinstreak := 0;
          winner := 1;
          return true;
        }
        if pos.0 in turnHandler.playerTwoMoves && pos.1 in turnHandler.playerTwoMoves
           && pos.2 in turnHandler.playerTwoMoves {
          playerOneWinstreak := 0;
          playerTwoWinstreak := playerTwoWinstreak + 1;
          winner := 2;
          return true;
        }
        if turnHandler.openSpaces == [] {
          playerOneWinstreak := 0;
          playerTwoWinstreak := 0;
          winner := 0;
          return true;
        }
        i := i + 1;
      }
      return false;
    }

    /**
     * reset_board: everything __init__ sets is set again, with the given
     * streaks; the board and the TurnHandler are new objects.
     */
    method ResetBoard(p1Winstreak: int, p2Winstreak: int)
      modifies this
      ensures FreshRound() && fresh(board) && fresh(turnHandler)
      ensures playerOneWinstreak == p1Winstreak && playerTwoWinstreak == p2Winstreak
      ensures winner == 0 && gameRunning && isTwoPlayer == ""
    {
      var b, handler := NewRound();
      board := b;
      playerOneWinstreak := p1Winstreak;
      playerTwoWinstreak := p2Winstreak;
      winner := 0;
      gameRunning := true;
      isTwoPlayer := "";
      winningPositions := WinningPositions;
      turnHandler := handler;
    }

    /**
     * The replay choice at the end of play_round, on an answer the prompt
     * loop has already accepted: "y" plays again with the streaks kept,
     * "r" plays again with both streaks cleared, "n" stops and changes
     * nothing.
     */
    method FinishRound(newRound: string) returns (again: bool)
      requires newRound == "y" || newRound == "r" || newRound == "n"
      modifies this
      ensures again <==> newRound != "n"
      ensures again ==> FreshRound() && fresh(board) && fresh(turnHandler) && winner == 0
      ensures newRound == "y" ==> && playerOneWinstreak == old(playerOneWinstreak)
                                  && playerTwoWinstreak == old(playerTwoWinstreak)
      ensures newRound == "r" ==> playerOneWinstreak == 0 && playerTwoWinstreak == 0
      ensures newRound == "n" ==> unchanged(this)
    {
      if newRound == "y" {
        ResetBoard(playerOneWinstreak, playerTwoWinstreak);
        return true;
      } else if newRound == "r" {
        ResetBoard(0, 0);
        return true;
      } else {
        return false;
      }
    }
  }
}
