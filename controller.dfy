/**
 * main.py: the Controller class, the earlier single-class copy of the game
 * engine. Its board holds strings: "-" for an empty cell and the players'
 * characters, which start out empty and are set by the script that drives
 * the game.
 */
module Control {
  import opened Tiles
  import opened Heuristic
  import opened Verdicts
  import TurnHandling

  const Blank: string := "-"

  /** The characters the input filter keeps, as main.py's ALLOWED_NUMBERS. */
  predicate Allowed(ch: char) {
    '1' <= ch <= '3'
  }

  /**
   * filtered_coords: int(ch) - 1 for every character of `s` that is '1',
   * '2' or '3', in order; every other character is dropped.
   */
  function DigitFilter(s: string): (r: seq<int>)
    ensures |r| <= |s|
    ensures forall i :: 0 <= i < |r| ==> 0 <= r[i] <= 2
    ensures |r| == |s| <==> forall i :: 0 <= i < |s| ==> Allowed(s[i])
    ensures |r| == |s| ==> forall i :: 0 <= i < |s| ==> r[i] == s[i] as int - '1' as int
  {
    if s == [] then []
    else
      var rest := DigitFilter(s[1..]);
      assert forall i :: 1 <= i < |s| ==> s[i] == s[1..][i - 1];
      if Allowed(s[0]) then [s[0] as int - '1' as int] + rest else rest
  }

  /** The filter works character by character: filtering a concatenation concatenates the filtered parts. */
  lemma {:induction false} DigitFilterAppend(s: string, t: string)
    ensures DigitFilter(s + t) == DigitFilter(s) + DigitFilter(t)
    decreases |s|
  {
    if s == [] {
      assert s + t == t;
    } else {
      var head := if Allowed(s[0]) then [s[0] as int - '1' as int] else [];
      calc {
        DigitFilter(s + t);
        { assert s + t == [s[0]] + (s[1..] + t); }
        DigitFilter([s[0]] + (s[1..] + t));
        { DigitFilterCons(s[0], s[1..] + t); }
        head + DigitFilter(s[1..] + t);
        { DigitFilterAppend(s[1..], t); }
        head + (DigitFilter(s[1..]) + DigitFilter(t));
        { assert head + (DigitFilter(s[1..]) + DigitFilter(t)) == (head + DigitFilter(s[1..])) + DigitFilter(t); }
        (head + DigitFilter(s[1..])) + DigitFilter(t);
        { assert s == [s[0]] + s[1..]; DigitFilterCons(s[0], s[1..]); }
        DigitFilter(s) + DigitFilter(t);
      }
    }
  }

  /** One step of the filter: the first character's value, if it is kept, then the rest. */
  lemma DigitFilterCons(ch: char, s: string)
    ensures DigitFilter([ch] + s) == (if Allowed(ch) then [ch as int - '1' as int] else []) + DigitFilter(s)
  {
    assert ([ch] + s)[1..] == s;
  }

  /** A single character is kept, as its zero-based value, exactly when it is '1', '2' or '3'. */
  lemma DigitFilterOne(ch: char)
    ensures DigitFilter([ch]) == if Allowed(ch) then [ch as int - '1' as int] else []
  {
    assert [ch][1..] == [];
  }

  /**
   * The kept values, in order: appending a character to the line appends
   * its value to the result exactly when the character is allowed.
   */
  lemma DigitFilterSnoc(s: string, ch: char)
    ensures DigitFilter(s + [ch]) == DigitFilter(s) + (if Allowed(ch) then [ch as int - '1' as int] else [])
  {
    DigitFilterAppend(s, [ch]);
    DigitFilterOne(ch);
  }

  /** A line without allowed characters filters to nothing. */
  lemma {:induction false} DigitFilterDropsAll(s: string)
    requires forall i :: 0 <= i < |s| ==> !Allowed(s[i])
    ensures DigitFilter(s) == []
    decreases |s|
  {
    if s != [] {
      assert !Allowed(s[0]);
      assert forall i :: 0 <= i < |s[1..]| ==> s[1..][i] == s[i + 1];
      DigitFilterDropsAll(s[1..]);
    }
  }

  /** An allowed digit followed by characters that are all dropped yields that digit alone. */
  lemma DigitFilterLeadingDigit(a: char, sep: string)
    requires Allowed(a)
    requires forall i :: 0 <= i < |sep| ==> !Allowed(sep[i])
    ensures DigitFilter([a] + sep) == [a as int - '1' as int]
  {
    DigitFilterAppend([a], sep);
    DigitFilterOne(a);
    DigitFilterDropsAll(sep);
  }

  /**
   * Two allowed digits around any separator without allowed characters
   * (spaces, commas, other digits) name the cell of those two digits.
   */
  lemma DigitFilterSkipsSeparator(a: char, sep: string, b: char)
    requires Allowed(a) && Allowed(b)
    requires forall i :: 0 <= i < |sep| ==> !Allowed(sep[i])
    ensures DigitFilter([a] + sep + [b]) == [a as int - '1' as int, b as int - '1' as int]
  {
    DigitFilterLeadingDigit(a, sep);
    DigitFilterSnoc([a] + sep, b);
  }

  /** On a line that turn_handler.py accepts, the filter yields the same cell. */
  lemma FilterAgreesWithParser(s: string)
    requires TurnHandling.ParseCoordinates(s).Ok?
    ensures var c := TurnHandling.ParseCoordinates(s).value;
            DigitFilter(s) == [c.row, c.col]
  {
    assert DigitFilter(s[1..]) == DigitFilter(s[1..][1..]) + [s[1] as int - '1' as int];
  }

  /**
   * The filter drops what turn_handler.py refuses: a space between the
   * digits, and digits other than 1..3.
   */
  lemma FilterIgnoresSeparators()
    ensures DigitFilter("1 2") == [0, 1] && TurnHandling.ParseCoordinates("1 2").Err?
    ensures DigitFilter("14") == [0]
    ensures DigitFilter("123") == [0, 1, 2]
  {
    assert !TurnHandling.IsDigit("1 2"[1]);
    assert "1 2"[1..] == " 2" && " 2"[1..] == "2";
    assert "14"[1..] == "4";
    assert "123"[1..] == "23" && "23"[1..] == "3";
  }

  class Controller {
    var board: array2<string>
    var openSpaces: seq<Cell>
    var winner: int
    var playerOneMoves: seq<Cell>
    var playerTwoMoves: seq<Cell>
    var playerOneChar: string
    var playerTwoChar: string
    var playerOneWinstreak: int
    var playerTwoWinstreak: int

    /** The board is 3x3 and `openSpaces` is its row-major list of "-" cells. */
    ghost predicate Valid()
      reads this, board
    {
      && board.Length0 == 3 && board.Length1 == 3
      && openSpaces == OpenCells(Snapshot(board), Blank)
    }

    /**
     * Valid, the two characters are distinct and not "-", and the move
     * lists are exactly the cells holding them, without repeats.
     */
    ghost predicate Consistent()
      reads this, board
    {
      && Valid()
      && playerOneChar != Blank && playerTwoChar != Blank && playerOneChar != playerTwoChar
      && MovesMatch(Snapshot(board), Blank, playerOneChar, playerTwoChar, playerOneMoves, playerTwoMoves)
    }

    constructor ()
      ensures Valid() && fresh(board) && AllEmpty(Snapshot(board), Blank) && |openSpaces| == 9
      ensures playerOneMoves == [] && playerTwoMoves == []
      ensures playerOneChar == "" && playerTwoChar == ""
      ensures winner == 0 && playerOneWinstreak == 0 && playerTwoWinstreak == 0
    {
      board := new string[3, 3]((i, j) => Blank);
      openSpaces := [];
      new;
      assert AllEmpty(Snapshot(board), Blank);
      UpdateOpenSpaces();
      OpenCellsOfEmptyGrid(Snapshot(board), Blank);
      winner := 0;
      playerOneMoves := [];
      playerTwoMoves := [];
      playerOneChar := "";
      playerTwoChar := "";
      playerOneWinstreak, playerTwoWinstreak := 0, 0;
    }

    /** Once both characters are chosen, a fresh controller starts consistent. */
    lemma StartsConsistent()
      requires Valid() && AllEmpty(Snapshot(board), Blank)
      requires playerOneMoves == [] && playerTwoMoves == []
      requires playerOneChar != Blank && playerTwoChar != Blank && playerOneChar != playerTwoChar
      ensures Consistent()
    {
      EmptyBoardMatches(Snapshot(board), Blank, playerOneChar, playerTwoChar);
    }

    /**
     * check_for_win, draw test first: no open cell is a draw with both
     * streaks cleared; otherwise the first line owned by player one, then
     * by player two, ends the round with that player's streak raised and
     * the other's cleared. True when the round is over.
     */
    method CheckForWin() returns (over: bool)
      modifies this`playerOneWinstreak, this`playerTwoWinstreak, this`winner
      ensures var v := ControllerVerdict(WinningPositions, playerOneMoves, playerTwoMoves, openSpaces);
              && over == (v != InProgress)
              && (v == Won(1) ==> && playerOneWinstreak == old(playerOneWinstreak) + 1
                                  && playerTwoWinstreak == 0 && winner == 1)
              && (v == Won(2) ==> && playerOneWinstreak == 0
                                  && playerTwoWinstreak == old(playerTwoWinstreak) + 1 && winner == 2)
              && (v == Drawn ==> playerOneWinstreak == 0 && playerTwoWinstreak == 0 && winner == 0)
              && (v == InProgress ==> && playerOneWinstreak == old(playerOneWinstreak)
                                      && playerTwoWinstreak == old(playerTwoWinstreak)
                                      && winner == old(winner))
    {
      if openSpaces == [] {
        playerOneWinstreak := 0;
        playerTwoWinstreak := 0;
        winner := 0;
        return true;
      }
      var i := 0;
      while i < |WinningPositions|
        invariant 0 <= i <= |WinningPositions|
        invariant FirstWin(WinningPositions, playerOneMoves, playerTwoMoves, i)
               == FirstWin(WinningPositions, playerOneMoves, playerTwoMoves, 0)
        invariant playerOneWinstreak == old(playerOneWinstreak) && playerTwoWinstreak == old(playerTwoWinstreak)
        invariant winner == old(winner)
      {
        var pos := WinningPositions[i];
        if pos.0 in playerOneMoves && pos.1 in playerOneMoves && pos.2 in playerOneMoves {
          playerOneWinstreak := playerOneWinstreak + 1;
          playerTwoWinstreak := 0;
          winner := 1;
          return true;
        }
        if pos.0 in playerTwoMoves && pos.1 in playerTwoMoves && pos.2 in playerTwoMoves {
          playerOneWinstreak := 0;
          playerTwoWinstreak := playerTwoWinstreak + 1;
          winner := 2;
          return true;
        }
        i := i + 1;
      }
      return false;
    }

    /**
     * change_state: on an empty cell, `state` picks the character written
     * (1: player one's, 2: player two's, otherwise none) and `turn`
     * independently picks the move list extended (1, 2, otherwise none);
     * the open cells are then re-derived. A taken cell is refused and
     * nothing changes.
     */
    method ChangeState(pos: Cell, state: int, turn: int) returns (ok: bool)
      requires Valid() && ValidCell(pos)
      modifies board, this`openSpaces, this`playerOneMoves, this`playerTwoMoves
      ensures Valid()
      ensures ok == (old(board[pos.row, pos.col]) == Blank)
      ensures !ok ==> Snapshot(board) == old(Snapshot(board)) && openSpaces == old(openSpaces)
      ensures Snapshot(board) == if ok && state == 1 then SetCell(old(Snapshot(board)), pos, playerOneChar)
                                 else if ok && state == 2 then SetCell(old(Snapshot(board)), pos, playerTwoChar)
                                 else old(Snapshot(board))
      ensures playerOneMoves == if ok && turn == 1 then old(playerOneMoves) + [pos] else old(playerOneMoves)
      ensures playerTwoMoves == if ok && turn == 2 then old(playerTwoMoves) + [pos] else old(playerTwoMoves)
      ensures old(Consistent()) && state == turn ==> Consistent()
    {
      if board[pos.row, pos.col] != Blank {
        return false;
      }
      ghost var g := Snapshot(board);
      ghost var wasConsistent := Consistent();
      if state == 1 {
        board[pos.row, pos.col] := playerOneChar;
        GridExtensionality(Snapshot(board), SetCell(g, pos, playerOneChar));
      } else if state == 2 {
        board[pos.row, pos.col] := playerTwoChar;
        GridExtensionality(Snapshot(board), SetCell(g, pos, playerTwoChar));
      }
      if turn == 1 {
        playerOneMoves := playerOneMoves + [pos];
        if wasConsistent && state == turn {
          ClaimByOne(g, Blank, playerOneChar, playerTwoChar, old(playerOneMoves), playerTwoMoves, pos);
        }
      } else if turn == 2 {
        playerTwoMoves := playerTwoMoves + [pos];
        if wasConsistent && state == turn {
          ClaimByTwo(g, Blank, playerOneChar, playerTwoChar, playerOneMoves, old(playerTwoMoves), pos);
        }
      }
      UpdateOpenSpaces();
      return true;
    }

    /**
     * player_turn on an already-read line: the filtered coordinates name
     * the cell, the move is applied for `player`, and only then are the
     * count and the cell checked; true when exactly two coordinates were
     * given and the cell was empty.
     */
    method PlayerTurn(input: string, player: int) returns (ok: bool)
      requires Valid() && |DigitFilter(input)| >= 2
      modifies board, this`openSpaces, this`playerOneMoves, this`playerTwoMoves
      ensures Valid()
      ensures var f := DigitFilter(input);
              ok == (|f| == 2 && old(board[f[0], f[1]]) == Blank)
      ensures var f := DigitFilter(input);
              var pos, empty := Cell(f[0], f[1]), old(board[f[0], f[1]]) == Blank;
              && Snapshot(board) == (if empty && player == 1 then SetCell(old(Snapshot(board)), pos, playerOneChar)
                                     else if empty && player == 2 then SetCell(old(Snapshot(board)), pos, playerTwoChar)
                                     else old(Snapshot(board)))
              && playerOneMoves == (if empty && player == 1 then old(playerOneMoves) + [pos] else old(playerOneMoves))
              && playerTwoMoves == (if empty && player == 2 then old(playerTwoMoves) + [pos] else old(playerTwoMoves))
      ensures old(Consistent()) ==> Consistent()
    {
      var filteredCoords := DigitFilter(input);
      var tileEmpty := ChangeState(Cell(filteredCoords[0], filteredCoords[1]), player, player);
      if !(|filteredCoords| == 2) || !tileEmpty {
        return false;
      }
      return true;
    }

    /** find_winning_move over the controller's open cells. */
    function FindWinningMove(moves: seq<Cell>): (r: Option<Cell>)
      reads this
      ensures r.Some? ==> r.value in openSpaces
      ensures r.None? <==> forall j :: 0 <= j < |WinningPositions| ==> !Completable(WinningPositions[j], moves, openSpaces)
    {
      var r := Heuristic.FindWinningMove(WinningPositions, moves, openSpaces);
      if r.Some? then WinningMoveCompletesLine(WinningPositions, moves, openSpaces); r else r
    }

    /**
     * computer_turn: the computer's winning cell, else player one's winning
     * cell, else the centre, else an open outer cell chosen at random,
     * written with player two's character. `played` names the cell (the
     * source returns nothing).
     */
    method ComputerTurn() returns (ghost played: Cell)
      requires Valid() && openSpaces != []
      modifies board, this`openSpaces, this`playerOneMoves, this`playerTwoMoves
      ensures Valid()
      ensures played in old(openSpaces)
      ensures match ComputerPlan(WinningPositions, old(playerOneMoves), old(playerTwoMoves), old(openSpaces))
              case Some(c) => played == c
              case None => played in MoveBank(old(openSpaces))
      ensures Snapshot(board) == SetCell(old(Snapshot(board)), played, playerTwoChar)
      ensures playerTwoMoves == old(playerTwoMoves) + [played] && playerOneMoves == old(playerOneMoves)
      ensures old(Consistent()) ==> Consistent()
    {
      var computerMove := FindWinningMove(playerTwoMoves);
      if computerMove.Some? {
        played := computerMove.value;
        var _ := ChangeState(computerMove.value, 2, 2);
        return;
      }
      if playerOneMoves != [] {
        computerMove := FindWinningMove(playerOneMoves);
        if computerMove.Some? {
          played := computerMove.value;
          var _ := ChangeState(computerMove.value, 2, 2);
          return;
        }
      }
      if Centre in openSpaces {
        computerMove := Some(Centre);
      } else {
        var moveBank := MoveBank(openSpaces);
        ComputerAlwaysMoves(WinningPositions, playerOneMoves, playerTwoMoves, openSpaces);
        assert moveBank[0] in moveBank;
        var move :| move in moveBank;
        computerMove := Some(move);
      }
      played := computerMove.value;
      var _ := ChangeState(computerMove.value, 2, 2);
    }

    /** update_open_spaces: the row-major scan of the board for "-" cells. */
    method UpdateOpenSpaces()
      requires board.Length0 == 3 && board.Length1 == 3
      modifies this`openSpaces
      ensures openSpaces == OpenCells(Snapshot(board), Blank)
    {
      ghost var g := GridOf(board);
      var newOpenSpaces: seq<Cell> := [];
      for rowNum := 0 to 3
        invariant newOpenSpaces == OpenInRows(g, Blank, rowNum)
      {
        for colNum := 0 to 3
          invariant newOpenSpaces == OpenInRows(g, Blank, rowNum) + OpenInRow(g, Blank, rowNum, colNum)
        {
          if board[rowNum, colNum] == Blank {
            newOpenSpaces := newOpenSpaces + [Cell(rowNum, colNum)];
          }
        }
      }
      GridExtensionality(g, Snapshot(board));
      openSpaces := newOpenSpaces;
    }
  }
}
