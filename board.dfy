/**
  The 3x3 tic-tac-toe board of MainWindow.py and its win/draw detection
  (`check_win`). A board is the list `self.fields`: nine cells, `None` for an
  empty cell, `"X"` for player_1 and `"O"` for player_2.
 */
module Board {

  datatype Cell = Empty | X | O

  /** `self.player_1` and `self.player_2`, fixed when the window is built. */
  const Player1: Cell := X
  const Player2: Cell := O

  /**
    The mark of the side to move: player_1's when `player1` holds (`self.turn`
    in `on_button`, `max_player` in `minmax`), player_2's otherwise.
   */
  function Mark(player1: bool): (c: Cell)
    ensures c != Empty
    ensures c == Player1 <==> player1
  {
    if player1 then Player1 else Player2
  }

  const EmptyBoard: seq<Cell> := [Empty, Empty, Empty, Empty, Empty, Empty, Empty, Empty, Empty]

  /** Nine cells, row by row: rows are 0-2, 3-5, 6-8. */
  type Board = b: seq<Cell> | |b| == 9 witness EmptyBoard

  type Triple = (nat, nat, nat)

  /**
    The eight winning lines in the order `check_win` inspects them: row 0,
    column 0, row 1, column 1, row 2, column 2, then the two diagonals.
   */
  const Lines: seq<Triple> := [(0, 1, 2), (0, 3, 6), (3, 4, 5), (1, 4, 7),
                               (6, 7, 8), (2, 5, 8), (0, 4, 8), (2, 4, 6)]

  /** What `check_win` returns: `(False, ())`, `(True, (i, j, k))` or `(True, (-1, -1, -1))`. */
  datatype Outcome = Ongoing | Line(cells: Triple) | Draw
  {
    /** The first component of the pair `check_win` returns. */
    predicate Over() { !Ongoing? }
  }

  /** Python's `all(...)` over cells: every cell is taken. */
  predicate AllMarked(s: seq<Cell>) {
    forall k :: 0 <= k < |s| ==> s[k] != Empty
  }

  lemma AllMarkedThree(x: Cell, y: Cell, z: Cell)
    ensures AllMarked([x, y, z]) <==> x != Empty && y != Empty && z != Empty
  {
    assert [x, y, z][0] == x && [x, y, z][1] == y && [x, y, z][2] == z;
  }

  /** Reference meaning of a winning line: three equal marks on a board. */
  predicate Uniform(b: Board, t: Triple) {
    t.0 < 9 && t.1 < 9 && t.2 < 9 &&
    b[t.0] != Empty && b[t.0] == b[t.1] && b[t.1] == b[t.2]
  }

  /** Line `m` is uniform and no line before it (in scan order) is. */
  predicate IsFirstUniform(b: Board, m: int) {
    0 <= m < 8 && Uniform(b, Lines[m]) &&
    forall m' {:trigger Uniform(b, Lines[m'])} :: 0 <= m' < m ==> !Uniform(b, Lines[m'])
  }

  lemma RowAndColumnLines(i: nat)
    requires i < 3
    ensures Lines[2 * i] == (3 * i, 3 * i + 1, 3 * i + 2)
    ensures Lines[2 * i + 1] == (i, i + 3, i + 6)
  {
  }

  /**
    The `for i in range(3)` loop of `check_win`: row i, then column i, then
    the rows and columns after them. `Ongoing` here means that no row or
    column from i on is a line.
   */
  function ScanRowsAndColumns(b: Board, i: nat): (r: Outcome)
    requires i <= 3
    ensures r.Ongoing? || r.Line?
    ensures r.Line? ==>
      exists m :: 2 * i <= m < 6 && Lines[m] == r.cells && Uniform(b, Lines[m]) &&
        forall m' :: 2 * i <= m' < m ==> !Uniform(b, Lines[m'])
    ensures r.Ongoing? ==> forall m :: 2 * i <= m < 6 ==> !Uniform(b, Lines[m])
    decreases 3 - i
  {
    if i == 3 then Ongoing
    else
      var k := i * 3;
      RowAndColumnLines(i);
      assert b[k..k + 3] == [b[k], b[k + 1], b[k + 2]];
      AllMarkedThree(b[k], b[k + 1], b[k + 2]);
      AllMarkedThree(b[i], b[i + 3], b[i + 6]);
      if AllMarked(b[k..k + 3]) && b[k] == b[k + 1] && b[k + 1] == b[k + 2] then
        assert Uniform(b, Lines[2 * i]);
        Line((k, k + 1, k + 2))
      else if AllMarked([b[i], b[i + 3], b[i + 6]]) && b[i] == b[i + 3] && b[i + 3] == b[i + 6] then
        assert !Uniform(b, Lines[2 * i]) && Uniform(b, Lines[2 * i + 1]);
        Line((i, i + 3, i + 6))
      else
        assert !Uniform(b, Lines[2 * i]) && !Uniform(b, Lines[2 * i + 1]);
        ScanRowsAndColumns(b, i + 1)
  }

  /**
    `check_win`. A reported line is made of board cells; a draw is reported
    only on a full board, and "not over" only on a board with an empty cell.
    CheckWinReportsFirstLine states which line is reported.
   */
  function CheckWin(b: Board): (r: Outcome)
    ensures r.Line? ==> r.cells.0 < 9 && r.cells.1 < 9 && r.cells.2 < 9
    ensures r.Draw? ==> AllMarked(b)
    ensures r.Ongoing? ==> !AllMarked(b)
  {
    var rows := ScanRowsAndColumns(b, 0);
    if rows.Line? then rows
    else if AllMarked([b[0], b[4], b[8]]) && b[0] == b[4] && b[4] == b[8] then
      Line((0, 4, 8))
    else if AllMarked([b[2], b[4], b[6]]) && b[2] == b[4] && b[4] == b[6] then
      Line((2, 4, 6))
    else if AllMarked(b) then Draw
    else Ongoing
  }

  /**
    `check_win` reports the first uniform line in scan order (row 0,
    column 0, row 1, column 1, row 2, column 2, the diagonals); with no
    uniform line, a full board is a draw and any other board is not over.
   */
  lemma CheckWinReportsFirstLine(b: Board)
    ensures CheckWin(b).Line? ==> exists m :: IsFirstUniform(b, m) && Lines[m] == CheckWin(b).cells
    ensures !CheckWin(b).Line? ==> forall m {:trigger Uniform(b, Lines[m])} :: 0 <= m < 8 ==> !Uniform(b, Lines[m])
    ensures !CheckWin(b).Line? ==> (CheckWin(b).Draw? <==> AllMarked(b))
  {
    var rows := ScanRowsAndColumns(b, 0);
    assert Lines[6] == (0, 4, 8) && Lines[7] == (2, 4, 6);
    AllMarkedThree(b[0], b[4], b[8]);
    AllMarkedThree(b[2], b[4], b[6]);
  }

  /**
    Placing a mark never ends a finished game's result: a uniform line stays
    uniform, and a drawn board has no empty cell to place on.
   */
  lemma {:induction false} PlacingKeepsOver(b: Board, c: nat, v: Cell)
    requires c < 9 && b[c] == Empty && v != Empty
    requires CheckWin(b).Over()
    ensures CheckWin(b[c := v]).Over()
  {
    CheckWinReportsFirstLine(b);
    var m :| IsFirstUniform(b, m) && Lines[m] == CheckWin(b).cells;
    assert Uniform(b[c := v], Lines[m]);
  }

  /** The indices `i` with `fields[i] is None`, in ascending order, starting at `from`. */
  function EmptyIndicesFrom(b: Board, from: nat): (r: seq<nat>)
    requires from <= 9
    ensures forall k :: 0 <= k < |r| ==> from <= r[k] < 9 && b[r[k]] == Empty
    ensures forall j :: from <= j < 9 && b[j] == Empty ==> j in r
    ensures forall k, l :: 0 <= k < l < |r| ==> r[k] < r[l]
    decreases 9 - from
  {
    if from == 9 then []
    else if b[from] == Empty then [from] + EmptyIndicesFrom(b, from + 1)
    else EmptyIndicesFrom(b, from + 1)
  }

  /** `[i for i, f in enumerate(self.fields) if f is None]` of `random_move`. */
  function EmptyIndices(b: Board): (r: seq<nat>)
    ensures forall k :: 0 <= k < |r| ==> r[k] < 9 && b[r[k]] == Empty
    ensures forall j :: 0 <= j < 9 && b[j] == Empty ==> j in r
    ensures forall k, l :: 0 <= k < l < |r| ==> r[k] < r[l]
    ensures r == [] <==> AllMarked(b)
  {
    var r := EmptyIndicesFrom(b, 0);
    assert r != [] ==> b[r[0]] == Empty;
    r
  }

  /** The highest-indexed empty cell below `n`, or -1 when cells 0..n-1 are all taken. */
  function LastEmptyBelow(b: Board, n: nat): (k: int)
    requires n <= 9
    ensures -1 <= k < n
    ensures k != -1 ==> b[k] == Empty
  {
    if n == 0 then -1
    else if b[n - 1] == Empty then n - 1
    else LastEmptyBelow(b, n - 1)
  }

  /** LastEmptyBelow finds the empty cell with the highest index below `n`, and finds one if there is one. */
  lemma {:induction false} LastEmptyBelowIsHighest(b: Board, n: nat)
    requires n <= 9
    ensures forall j :: LastEmptyBelow(b, n) < j < n ==> b[j] != Empty
    ensures LastEmptyBelow(b, n) == -1 <==> forall j :: 0 <= j < n ==> b[j] != Empty
  {
    if n > 0 && b[n - 1] != Empty {
      LastEmptyBelowIsHighest(b, n - 1);
    }
  }

  /** The highest-indexed empty cell of a board that is not full. */
  function LastEmpty(b: Board): (k: nat)
    requires !AllMarked(b)
    ensures k < 9 && b[k] == Empty
  {
    LastEmptyBelowIsHighest(b, 9);
    LastEmptyBelow(b, 9)
  }
}
