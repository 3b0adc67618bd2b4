/**
 * turn_handler.py: the TurnHandler class, which owns the move lists and the
 * open-cell list of one round and writes moves onto a board it shares with
 * its BoardManager.
 */
module TurnHandling {
  import opened Tiles
  import opened Heuristic

  const EmptyMark: char := '-'
  const PlayerOneMark: char := 'X'
  const PlayerTwoMark: char := 'O'

  /** The numbers a player may type for a row or a column. */
  const AllowedNumbers: seq<int> := [1, 2, 3]

  datatype InputError =
    | NotNumeric    // some character is not a decimal digit
    | WrongCount    // not exactly two characters
    | NotAllowed    // a digit outside 1..3
    | Occupied      // the chosen cell is taken

  datatype Result<T> = Ok(value: T) | Err(error: InputError)

  predicate IsDigit(ch: char) {
    '0' <= ch <= '9'
  }

  /** int(ch) - 1 for every character, as `semifiltered_coords` holds them. */
  function Lowered(s: string): (xs: seq<int>)
    requires forall i :: 0 <= i < |s| ==> IsDigit(s[i])
    ensures |xs| == |s|
    ensures forall i :: 0 <= i < |s| ==> xs[i] == (s[i] as int - '0' as int) - 1
  {
    if s == [] then [] else [(s[0] as int - '0' as int) - 1] + Lowered(s[1..])
  }

  /** The values x with x + 1 in AllowedNumbers, in order, as `filtered_coords` holds them. */
  function KeepAllowed(xs: seq<int>): (ys: seq<int>)
    ensures |ys| <= |xs|
    ensures forall i :: 0 <= i < |ys| ==> 0 <= ys[i] <= 2
    ensures |ys| == |xs| <==> forall i :: 0 <= i < |xs| ==> 0 <= xs[i] <= 2
    ensures |ys| == |xs| ==> ys == xs
  {
    if xs == [] then []
    else (if xs[0] + 1 in AllowedNumbers then [xs[0]] else []) + KeepAllowed(xs[1..])
  }

  /** KeepAllowed works value by value: filtering a concatenation concatenates the filtered parts. */
  lemma {:induction false} KeepAllowedAppend(xs: seq<int>, ys: seq<int>)
    ensures KeepAllowed(xs + ys) == KeepAllowed(xs) + KeepAllowed(ys)
    decreases |xs|
  {
    if xs == [] {
      assert xs + ys == ys;
    } else {
      var head := if xs[0] + 1 in AllowedNumbers then [xs[0]] else [];
      calc {
        KeepAllowed(xs + ys);
        { assert (xs + ys)[0] == xs[0] && (xs + ys)[1..] == xs[1..] + ys; }
        head + KeepAllowed(xs[1..] + ys);
        { KeepAllowedAppend(xs[1..], ys); }
        head + (KeepAllowed(xs[1..]) + KeepAllowed(ys));
        { assert head + (KeepAllowed(xs[1..]) + KeepAllowed(ys)) == (head + KeepAllowed(xs[1..])) + KeepAllowed(ys); }
        (head + KeepAllowed(xs[1..])) + KeepAllowed(ys);
      }
    }
  }

  /** A single value is kept exactly when it lies in 0..2. */
  lemma KeepAllowedOne(x: int)
    ensures KeepAllowed([x]) == if 0 <= x <= 2 then [x] else []
  {
    assert [x][1..] == [];
  }

  /**
   * The kept values, in order: appending a value to the input appends it to
   * the result exactly when it lies in 0..2.
   */
  lemma KeepAllowedSnoc(xs: seq<int>, x: int)
    ensures KeepAllowed(xs + [x]) == KeepAllowed(xs) + (if 0 <= x <= 2 then [x] else [])
  {
    KeepAllowedAppend(xs, [x]);
    KeepAllowedOne(x);
  }

  /**
   * The checks of player_turn on the typed line, in the source's order:
   * every character must be a digit, there must be exactly two of them,
   * and both must be 1, 2 or 3; the result is the zero-based cell.
   */
  function ParseCoordinates(s: string): (r: Result<Cell>)
    ensures r == Err(NotNumeric) <==> exists i :: 0 <= i < |s| && !IsDigit(s[i])
    ensures r == Err(WrongCount) <==> (forall i :: 0 <= i < |s| ==> IsDigit(s[i])) && |s| != 2
    ensures r.Ok? <==> |s| == 2 && '1' <= s[0] <= '3' && '1' <= s[1] <= '3'
    ensures r.Ok? ==> ValidCell(r.value) && r.value == Cell(s[0] as int - '1' as int, s[1] as int - '1' as int)
    ensures r != Err(Occupied)
  {
    if exists i :: 0 <= i < |s| && !IsDigit(s[i]) then Err(NotNumeric)
    else
      var semi := Lowered(s);
      if |semi| != 2 then Err(WrongCount)
      else
        var filtered := KeepAllowed(semi);
        if |filtered| != 2 then Err(NotAllowed)
        else Ok(Cell(filtered[0], filtered[1]))
  }

  /** A space between the two digits is refused: int(' ') is not a number. */
  lemma SpacedInputRefused()
    ensures ParseCoordinates("1 2") == Err(NotNumeric)
    ensures ParseCoordinates("12") == Ok(Cell(0, 1))
  {
    assert !IsDigit("1 2"[1]);
  }

  /** The mark written for player 1 or player 2. */
  function MarkOf(turn: int): char {
    if turn == 1 then PlayerOneMark else PlayerTwoMark
  }

  class TurnHandler {
    var board: array2<char>
    var openSpaces: seq<Cell>
    var playerOneMoves: seq<Cell>
    var playerTwoMoves: seq<Cell>
    const winningPositions: seq<Line>

    /** The board is 3x3 and `openSpaces` is its row-major list of '-' cells. */
    ghost predicate Valid()
      reads this, board
    {
      && board.Length0 == 3 && board.Length1 == 3
      && openSpaces == OpenCells(Snapshot(board), EmptyMark)
    }

    /**
     * Valid, and the move lists are exactly the 'X' and 'O' cells without
     * repeats, so that moves and open cells add up to nine.
     */
    ghost predicate Consistent()
      reads this, board
    {
      && Valid()
      && MovesMatch(Snapshot(board), EmptyMark, PlayerOneMark, PlayerTwoMark, playerOneMoves, playerTwoMoves)
    }

    constructor (board: array2<char>, winPos: seq<Line>)
      requires board.Length0 == 3 && board.Length1 == 3
      ensures Valid()
      ensures this.board == board && winningPositions == winPos
      ensures playerOneMoves == [] && playerTwoMoves == []
      ensures AllEmpty(Snapshot(board), EmptyMark) ==> Consistent()
    {
      this.board := board;
      openSpaces := [];
      winningPositions := winPos;
      new;
      UpdateOpenSpaces();
      playerOneMoves := [];
      playerTwoMoves := [];
      if AllEmpty(Snapshot(board), EmptyMark) {
        EmptyBoardMatches(Snapshot(board), EmptyMark, PlayerOneMark, PlayerTwoMark);
      }
    }

    /** Rebuilds `openSpaces` by scanning the board row by row. */
    method UpdateOpenSpaces()
      requires board.Length0 == 3 && board.Length1 == 3
      modifies this`openSpaces
      ensures openSpaces == OpenCells(Snapshot(board), EmptyMark)
    {
      ghost var g := GridOf(board);
      var newOpenSpaces: seq<Cell> := [];
      for row := 0 to 3
        invariant newOpenSpaces == OpenInRows(g, EmptyMark, row)
      {
        for col := 0 to 3
          invariant newOpenSpaces == OpenInRows(g, EmptyMark, row) + OpenInRow(g, EmptyMark, row, col)
        {
          if board[row, col] == EmptyMark {
            newOpenSpaces := newOpenSpaces + [Cell(row, col)];
          }
        }
      }
      GridExtensionality(g, Snapshot(board));
      openSpaces := newOpenSpaces;
    }

    /** find_winning_move over this round's open cells. */
    function FindWinningMove(moves: seq<Cell>): (r: Option<Cell>)
      reads this
      ensures r.Some? ==> r.value in openSpaces
      ensures r.None? <==> forall j :: 0 <= j < |winningPositions| ==> !Completable(winningPositions[j], moves, openSpaces)
    {
      var r := Heuristic.FindWinningMove(winningPositions, moves, openSpaces);
      if r.Some? then WinningMoveCompletesLine(winningPositions, moves, openSpaces); r else r
    }

    /**
     * change_state: claims an empty cell for player `turn` (1 writes 'X'
     * and extends player one's list, 2 writes 'O' and extends player two's;
     * any other number writes nothing) and re-derives the open cells.
     * A taken cell is refused and nothing changes.
     */
    method ChangeState(pos: Cell, turn: int) returns (ok: bool)
      requires Valid() && ValidCell(pos)
      modifies board, this`openSpaces, this`playerOneMoves, this`playerTwoMoves
      ensures Valid()
      ensures ok == (old(board[pos.row, pos.col]) == EmptyMark)
      ensures !ok ==> Snapshot(board) == old(Snapshot(board)) && openSpaces == old(openSpaces)
      ensures !ok || (turn != 1 && turn != 2) ==>
                playerOneMoves == old(playerOneMoves) && playerTwoMoves == old(playerTwoMoves)
      ensures ok && turn != 1 && turn != 2 ==> Snapshot(board) == old(Snapshot(board))
      ensures ok && turn == 1 ==> && Snapshot(board) == SetCell(old(Snapshot(board)), pos, PlayerOneMark)
                                  && playerOneMoves == old(playerOneMoves) + [pos]
                                  && playerTwoMoves == old(playerTwoMoves)
      ensures ok && turn == 2 ==> && Snapshot(board) == SetCell(old(Snapshot(board)), pos, PlayerTwoMark)
                                  && playerTwoMoves == old(playerTwoMoves) + [pos]
                                  && playerOneMoves == old(playerOneMoves)
      ensures old(Consistent()) ==> Consistent()
      ensures ok && (turn == 1 || turn == 2) ==> |openSpaces| + 1 == |old(openSpaces)|
    {
      if board[pos.row, pos.col] != EmptyMark {
        return false;
      }
      ghost var g := Snapshot(board);
      ghost var wasConsistent := Consistent();
      if turn == 1 || turn == 2 {
        var mark := MarkOf(turn);
        board[pos.row, pos.col] := mark;
        GridExtensionality(Snapshot(board), SetCell(g, pos, mark));
        OpenCountAfterClaim(g, EmptyMark, pos, mark);
        if turn == 1 {
          playerOneMoves := playerOneMoves + [pos];
          if wasConsistent {
            ClaimByOne(g, EmptyMark, PlayerOneMark, PlayerTwoMark, old(playerOneMoves), playerTwoMoves, pos);
          }
        } else {
          playerTwoMoves := playerTwoMoves + [pos];
          if wasConsistent {
            ClaimByTwo(g, EmptyMark, PlayerOneMark, PlayerTwoMark, playerOneMoves, old(playerTwoMoves), pos);
          }
        }
      }
      UpdateOpenSpaces();
      return true;
    }

    /**
     * computer_turn: plays the computer's winning cell, else blocks player
     * one's winning cell, else takes the centre, else an open outer cell
     * chosen at random. `played` names the cell written (the source returns
     * nothing).
     */
    method ComputerTurn() returns (ghost played: Cell)
      requires Valid() && openSpaces != []
      modifies board, this`openSpaces, this`playerOneMoves, this`playerTwoMoves
      ensures Valid()
      ensures played in old(openSpaces)
      ensures match ComputerPlan(winningPositions, old(playerOneMoves), old(playerTwoMoves), old(openSpaces))
              case Some(c) => played == c
              case None => played in MoveBank(old(openSpaces))
      ensures Snapshot(board) == SetCell(old(Snapshot(board)), played, PlayerTwoMark)
      ensures playerTwoMoves == old(playerTwoMoves) + [played] && playerOneMoves == old(playerOneMoves)
      ensures old(Consistent()) ==> Consistent()
      ensures |openSpaces| + 1 == |old(openSpaces)|
    {
      var computerMove := FindWinningMove(playerTwoMoves);
      if computerMove.Some? {
        played := computerMove.value;
        var _ := ChangeState(computerMove.value, 2);
        return;
      }
      if playerOneMoves != [] {
        computerMove := FindWinningMove(playerOneMoves);
        if computerMove.Some? {
          played := computerMove.value;
          var _ := ChangeState(computerMove.value, 2);
          return;
        }
      }
      var move: Cell;
      if Centre in openSpaces {
        move := Centre;
      } else {
        var moveBank := MoveBank(openSpaces);
        ComputerAlwaysMoves(winningPositions, playerOneMoves, playerTwoMoves, openSpaces);
        assert moveBank[0] in moveBank;
        move :| move in moveBank;
      }
      played := move;
      var _ := ChangeState(move, 2);
    }

    /**
     * player_turn on an already-read line of input: the parse checks, then
     * change_state at the parsed cell; true when the move was made.
     */
    method PlayerTurn(input: string, player: int) returns (ok: bool)
      requires Valid()
      modifies board, this`openSpaces, this`playerOneMoves, this`playerTwoMoves
      ensures Valid()
      ensures ParseCoordinates(input).Err? ==>
                && !ok && Snapshot(board) == old(Snapshot(board)) && openSpaces == old(openSpaces)
                && playerOneMoves == old(playerOneMoves) && playerTwoMoves == old(playerTwoMoves)
      ensures ParseCoordinates(input).Ok? ==>
                var pos := ParseCoordinates(input).value;
                && ok == (old(board[pos.row, pos.col]) == EmptyMark)
                && (!ok ==> Snapshot(board) == old(Snapshot(board)) && openSpaces == old(openSpaces))
                && (!ok || (player != 1 && player != 2) ==>
                      && Snapshot(board) == old(Snapshot(board))
                      && playerOneMoves == old(playerOneMoves) && playerTwoMoves == old(playerTwoMoves))
                && (ok && player == 1 ==> && Snapshot(board) == SetCell(old(Snapshot(board)), pos, PlayerOneMark)
                                          && playerOneMoves == old(playerOneMoves) + [pos]
                                          && playerTwoMoves == old(playerTwoMoves))
                && (ok && player == 2 ==> && Snapshot(board) == SetCell(old(Snapshot(board)), pos, PlayerTwoMark)
                                          && playerTwoMoves == old(playerTwoMoves) + [pos]
                                          && playerOneMoves == old(playerOneMoves))
      ensures old(Consistent()) ==> Consistent()
    {
      var parsed := ParseCoordinates(input);
      if parsed.Err? {
        return false;
      }
      ok := ChangeState(parsed.value, player);
    }
  }
}
