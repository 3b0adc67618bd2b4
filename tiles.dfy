/**
 * The board vocabulary shared by every copy of the game engine: cells,
 * winning lines, the fixed tables, a 3x3 grid as a value, the row-major
 * scan for open cells, and the invariant that ties the per-player move
 * lists to the grid.
 */
module Tiles {

  datatype Option<T> = None | Some(value: T)

  /** A board coordinate (row, column); the nine valid ones have both parts in [0,2]. */
  datatype Cell = Cell(row: int, col: int)

  /** A winning configuration: three cells. */
  type Line = (Cell, Cell, Cell)

  predicate ValidCell(c: Cell) {
    0 <= c.row < 3 && 0 <= c.col < 3
  }

  /** Position of a cell in a row-major scan of the board. */
  function Index(c: Cell): int {
    3 * c.row + c.col
  }

  /** The eight winning configurations: rows, then columns, then the two diagonals. */
  const WinningPositions: seq<Line> :=
    [(Cell(0, 0), Cell(0, 1), Cell(0, 2)),
     (Cell(1, 0), Cell(1, 1), Cell(1, 2)),
     (Cell(2, 0), Cell(2, 1), Cell(2, 2)),
     (Cell(0, 0), Cell(1, 0), Cell(2, 0)),
     (Cell(0, 1), Cell(1, 1), Cell(2, 1)),
     (Cell(0, 2), Cell(1, 2), Cell(2, 2)),
     (Cell(0, 0), Cell(1, 1), Cell(2, 2)),
     (Cell(2, 0), Cell(1, 1), Cell(0, 2))]

  /** The eight non-centre cells: edge midpoints first, then corners. */
  const OuterPositions: seq<Cell> :=
    [Cell(0, 1), Cell(1, 0), Cell(1, 2), Cell(2, 1),
     Cell(0, 0), Cell(0, 2), Cell(2, 0), Cell(2, 2)]

  const Centre: Cell := Cell(1, 1)

  /** Every valid cell is either the centre or one of the outer cells. */
  lemma CentreAndOuterCoverBoard(c: Cell)
    requires ValidCell(c)
    ensures c == Centre || c in OuterPositions
  {
    var o := OuterPositions;
    if c.row == 0 {
      if c.col == 0 { assert c == o[4]; }
      else if c.col == 1 { assert c == o[0]; }
      else { assert c == o[5]; }
    } else if c.row == 1 {
      if c.col == 0 { assert c == o[1]; }
      else if c.col == 2 { assert c == o[2]; }
    } else {
      if c.col == 0 { assert c == o[6]; }
      else if c.col == 1 { assert c == o[3]; }
      else { assert c == o[7]; }
    }
  }

  // ---------------------------------------------------------------------
  // A 3x3 grid as a value

  predicate WellFormed<T>(g: seq<seq<T>>) {
    |g| == 3 && forall r :: 0 <= r < 3 ==> |g[r]| == 3
  }

  function At<T>(g: seq<seq<T>>, c: Cell): T
    requires WellFormed(g) && ValidCell(c)
  {
    g[c.row][c.col]
  }

  /** The grid with cell `c` overwritten by `v`. */
  function SetCell<T>(g: seq<seq<T>>, c: Cell, v: T): (h: seq<seq<T>>)
    requires WellFormed(g) && ValidCell(c)
    ensures WellFormed(h)
    ensures forall d :: ValidCell(d) ==> At(h, d) == if d == c then v else At(g, d)
  {
    g[c.row := g[c.row][c.col := v]]
  }

  /** Two grids that agree on every cell are equal. */
  lemma GridExtensionality<T>(g: seq<seq<T>>, h: seq<seq<T>>)
    requires WellFormed(g) && WellFormed(h)
    requires forall c :: ValidCell(c) ==> At(g, c) == At(h, c)
    ensures g == h
  {
    forall r | 0 <= r < 3 ensures g[r] == h[r] {
      forall k | 0 <= k < 3 ensures g[r][k] == h[r][k] {
        assert At(g, Cell(r, k)) == At(h, Cell(r, k));
      }
    }
  }

  /** The contents of a 3x3 array, row by row. */
  function Snapshot<T>(b: array2<T>): (g: seq<seq<T>>)
    reads b
    requires b.Length0 == 3 && b.Length1 == 3
    ensures WellFormed(g)
    ensures forall c :: ValidCell(c) ==> At(g, c) == b[c.row, c.col]
  {
    [[b[0, 0], b[0, 1], b[0, 2]],
     [b[1, 0], b[1, 1], b[1, 2]],
     [b[2, 0], b[2, 1], b[2, 2]]]
  }

  /**
   * A grid with the same cells as `b`, without its definition as the
   * `Snapshot` literal; `GridExtensionality` recovers the equality.
   */
  lemma GridOf<T>(b: array2<T>) returns (g: seq<seq<T>>)
    requires b.Length0 == 3 && b.Length1 == 3
    ensures WellFormed(g)
    ensures forall c :: ValidCell(c) ==> At(g, c) == b[c.row, c.col]
  {
    g := Snapshot(b);
  }

  ghost predicate AllEmpty<T>(g: seq<seq<T>>, empty: T)
    requires WellFormed(g)
  {
    forall c :: ValidCell(c) ==> At(g, c) == empty
  }

  // ---------------------------------------------------------------------
  // Open cells: the row-major scan

  /** The cells holding `empty` among the first `cols` cells of row `row`, left to right. */
  function OpenInRow<T(==)>(g: seq<seq<T>>, empty: T, row: int, cols: nat): seq<Cell>
    requires WellFormed(g) && 0 <= row < 3 && cols <= 3
  {
    if cols == 0 then []
    else
      var c := Cell(row, cols - 1);
      OpenInRow(g, empty, row, cols - 1) + (if At(g, c) == empty then [c] else [])
  }

  /** The cells holding `empty` in the first `rows` rows, row by row. */
  function OpenInRows<T(==)>(g: seq<seq<T>>, empty: T, rows: nat): seq<Cell>
    requires WellFormed(g) && rows <= 3
  {
    if rows == 0 then [] else OpenInRows(g, empty, rows - 1) + OpenInRow(g, empty, rows - 1, 3)
  }

  /** A row prefix yields exactly its `empty` cells, left to right. */
  lemma {:induction false} OpenInRowMembers<T>(g: seq<seq<T>>, empty: T, row: int, cols: nat)
    requires WellFormed(g) && 0 <= row < 3 && cols <= 3
    ensures var r := OpenInRow(g, empty, row, cols);
      && |r| <= cols
      && (forall c {:trigger c in r} :: c in r <==> ValidCell(c) && c.row == row && c.col < cols && At(g, c) == empty)
      && (forall i :: 0 <= i < |r| ==> r[i].row == row)
      && (forall i, j :: 0 <= i < j < |r| ==> r[i].col < r[j].col)
  {
    if cols > 0 {
      OpenInRowMembers(g, empty, row, cols - 1);
      var prev := OpenInRow(g, empty, row, cols - 1);
      assert forall i :: 0 <= i < |prev| ==> prev[i].col < cols - 1 by {
        forall i | 0 <= i < |prev| ensures prev[i].col < cols - 1 { assert prev[i] in prev; }
      }
    }
  }

  /** The first `rows` rows yield exactly their `empty` cells, in increasing scan position. */
  lemma {:induction false} OpenInRowsMembers<T>(g: seq<seq<T>>, empty: T, rows: nat)
    requires WellFormed(g) && rows <= 3
    ensures var r := OpenInRows(g, empty, rows);
      && |r| <= 3 * rows
      && (forall c {:trigger c in r} :: c in r <==> ValidCell(c) && c.row < rows && At(g, c) == empty)
      && (forall i, j :: 0 <= i < j < |r| ==> Index(r[i]) < Index(r[j]))
  {
    if rows > 0 {
      OpenInRowsMembers(g, empty, rows - 1);
      OpenInRowMembers(g, empty, rows - 1, 3);
      var prev, last := OpenInRows(g, empty, rows - 1), OpenInRow(g, empty, rows - 1, 3);
      assert forall i :: 0 <= i < |prev| ==> Index(prev[i]) < 3 * (rows - 1) by {
        forall i | 0 <= i < |prev| ensures Index(prev[i]) < 3 * (rows - 1) { assert prev[i] in prev; }
      }
      assert forall i :: 0 <= i < |last| ==> 3 * (rows - 1) <= Index(last[i]) by {
        forall i | 0 <= i < |last| ensures 3 * (rows - 1) <= Index(last[i]) { assert last[i] in last; }
      }
      var r := prev + last;
      forall i, j | 0 <= i < j < |r| ensures Index(r[i]) < Index(r[j]) {
        if j < |prev| {
        } else if i >= |prev| {
          assert r[i] == last[i - |prev|] && r[j] == last[j - |prev|];
        } else {
          assert r[j] == last[j - |prev|];
        }
      }
    }
  }

  /** The open cells of the whole board, in row-major order. */
  function OpenCells<T(==)>(g: seq<seq<T>>, empty: T): (r: seq<Cell>)
    requires WellFormed(g)
    ensures |r| <= 9
    ensures forall c {:trigger c in r} :: c in r <==> ValidCell(c) && At(g, c) == empty
    ensures forall i, j :: 0 <= i < j < |r| ==> Index(r[i]) < Index(r[j])
  {
    OpenInRowsMembers(g, empty, 3);
    OpenInRows(g, empty, 3)
  }

  predicate NoDup<T(==)>(s: seq<T>) {
    forall i, j :: 0 <= i < j < |s| ==> s[i] != s[j]
  }

  /** Strictly increasing scan positions rule out repeated cells. */
  lemma OpenCellsNoDup<T>(g: seq<seq<T>>, empty: T)
    requires WellFormed(g)
    ensures NoDup(OpenCells(g, empty))
  {
    var r := OpenCells(g, empty);
    forall i, j | 0 <= i < j < |r| ensures r[i] != r[j] {
      assert Index(r[i]) < Index(r[j]);
    }
  }

  lemma {:induction false} OpenInRowOfEmptyGrid<T>(g: seq<seq<T>>, empty: T, row: int, cols: nat)
    requires WellFormed(g) && AllEmpty(g, empty) && 0 <= row < 3 && cols <= 3
    ensures |OpenInRow(g, empty, row, cols)| == cols
    ensures forall k :: 0 <= k < cols ==> OpenInRow(g, empty, row, cols)[k] == Cell(row, k)
  {
    if cols > 0 {
      OpenInRowOfEmptyGrid(g, empty, row, cols - 1);
      assert At(g, Cell(row, cols - 1)) == empty;
    }
  }

  lemma {:induction false} OpenInRowsOfEmptyGrid<T>(g: seq<seq<T>>, empty: T, rows: nat)
    requires WellFormed(g) && AllEmpty(g, empty) && rows <= 3
    ensures |OpenInRows(g, empty, rows)| == 3 * rows
    ensures forall k :: 0 <= k < 3 * rows ==> Index(OpenInRows(g, empty, rows)[k]) == k
  {
    if rows > 0 {
      OpenInRowsOfEmptyGrid(g, empty, rows - 1);
      OpenInRowOfEmptyGrid(g, empty, rows - 1, 3);
    }
  }

  /** On an empty board all nine cells are open, the k-th one at scan position k. */
  lemma OpenCellsOfEmptyGrid<T>(g: seq<seq<T>>, empty: T)
    requires WellFormed(g) && AllEmpty(g, empty)
    ensures |OpenCells(g, empty)| == 9
    ensures forall k :: 0 <= k < 9 ==> Index(OpenCells(g, empty)[k]) == k
  {
    OpenInRowsOfEmptyGrid(g, empty, 3);
  }

  lemma {:induction false} OpenInRowAfterClaim<T>(g: seq<seq<T>>, empty: T, c: Cell, v: T, row: int, cols: nat)
    requires WellFormed(g) && ValidCell(c) && At(g, c) == empty && v != empty
    requires 0 <= row < 3 && cols <= 3
    ensures |OpenInRow(SetCell(g, c, v), empty, row, cols)| + (if c.row == row && c.col < cols then 1 else 0)
         == |OpenInRow(g, empty, row, cols)|
  {
    if cols > 0 {
      OpenInRowAfterClaim(g, empty, c, v, row, cols - 1);
    }
  }

  lemma {:induction false} OpenInRowsAfterClaim<T>(g: seq<seq<T>>, empty: T, c: Cell, v: T, rows: nat)
    requires WellFormed(g) && ValidCell(c) && At(g, c) == empty && v != empty && rows <= 3
    ensures |OpenInRows(SetCell(g, c, v), empty, rows)| + (if c.row < rows then 1 else 0)
         == |OpenInRows(g, empty, rows)|
  {
    if rows > 0 {
      OpenInRowsAfterClaim(g, empty, c, v, rows - 1);
      OpenInRowAfterClaim(g, empty, c, v, rows - 1, 3);
    }
  }

  /** Claiming an open cell removes exactly one cell from the open list. */
  lemma OpenCountAfterClaim<T>(g: seq<seq<T>>, empty: T, c: Cell, v: T)
    requires WellFormed(g) && ValidCell(c) && At(g, c) == empty && v != empty
    ensures |OpenCells(SetCell(g, c, v), empty)| + 1 == |OpenCells(g, empty)|
  {
    OpenInRowsAfterClaim(g, empty, c, v, 3);
  }

  // ---------------------------------------------------------------------
  // The move lists agree with the grid

  /**
   * `p1` lists exactly the cells holding `one`, `p2` exactly those holding
   * `two`, neither repeats a cell, and together with the open cells they
   * account for all nine cells.
   */
  ghost predicate MovesMatch<T>(g: seq<seq<T>>, empty: T, one: T, two: T, p1: seq<Cell>, p2: seq<Cell>)
    requires WellFormed(g)
  {
    && NoDup(p1) && NoDup(p2)
    && (forall c {:trigger c in p1} :: c in p1 <==> ValidCell(c) && At(g, c) == one)
    && (forall c {:trigger c in p2} :: c in p2 <==> ValidCell(c) && At(g, c) == two)
    && |p1| + |p2| + |OpenCells(g, empty)| == 9
  }

  /** A fresh board with empty move lists satisfies the invariant. */
  lemma EmptyBoardMatches<T>(g: seq<seq<T>>, empty: T, one: T, two: T)
    requires WellFormed(g) && AllEmpty(g, empty) && one != empty && two != empty
    ensures MovesMatch(g, empty, one, two, [], [])
  {
    OpenCellsOfEmptyGrid(g, empty);
  }

  lemma AppendFresh<T>(s: seq<T>, x: T)
    requires NoDup(s) && x !in s
    ensures NoDup(s + [x])
  {
  }

  /** Player one claiming an open cell keeps the invariant. */
  lemma ClaimByOne<T>(g: seq<seq<T>>, empty: T, one: T, two: T, p1: seq<Cell>, p2: seq<Cell>, c: Cell)
    requires WellFormed(g) && MovesMatch(g, empty, one, two, p1, p2)
    requires ValidCell(c) && At(g, c) == empty
    requires one != empty && two != empty && one != two
    ensures MovesMatch(SetCell(g, c, one), empty, one, two, p1 + [c], p2)
  {
    AppendFresh(p1, c);
    OpenCountAfterClaim(g, empty, c, one);
  }

  /** Player two claiming an open cell keeps the invariant. */
  lemma ClaimByTwo<T>(g: seq<seq<T>>, empty: T, one: T, two: T, p1: seq<Cell>, p2: seq<Cell>, c: Cell)
    requires WellFormed(g) && MovesMatch(g, empty, one, two, p1, p2)
    requires ValidCell(c) && At(g, c) == empty
    requires one != empty && two != empty && one != two
    ensures MovesMatch(SetCell(g, c, two), empty, one, two, p1, p2 + [c])
  {
    AppendFresh(p2, c);
    OpenCountAfterClaim(g, empty, c, two);
  }

  /** Under the invariant no cell is in both move lists. */
  lemma MovesDisjoint<T>(g: seq<seq<T>>, empty: T, one: T, two: T, p1: seq<Cell>, p2: seq<Cell>, c: Cell)
    requires WellFormed(g) && MovesMatch(g, empty, one, two, p1, p2) && one != two
    ensures !(c in p1 && c in p2)
  {
  }
}
