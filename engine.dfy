/**
  The decision engine of MainWindow.py as specification functions: what
  `minmax` returns for a board and which cell `best_move` picks.

  `minmax` loops over every empty cell, but it returns `value`, the result of
  the LAST recursive call, not the `best_value` it accumulates. Its result is
  therefore the score of the child for the highest-indexed empty cell, and
  `Score` follows exactly that chain of moves down to a finished board.
 */
module Engine {
  import opened Board

  lemma PlacingUsesUpAnEmptyCell(b: Board, k: nat, v: Cell)
    requires k < 9 && b[k] == Empty && v != Empty
    ensures multiset(b[k := v])[Empty] == multiset(b)[Empty] - 1
  {
  }

  /**
    What `minmax(board, depth, max_player)` returns. A finished board scores
    0 for a draw, 1 when the winning line starts with player_1's mark and -1
    otherwise; an unfinished board scores what its last-indexed child scores.
   */
  function Score(b: Board, maxPlayer: bool): (r: int)
    ensures -1 <= r <= 1
    decreases multiset(b)[Empty]
  {
    match CheckWin(b)
    case Draw => 0
    case Line(t) => if b[t.0] == Player1 then 1 else -1
    case Ongoing =>
      var k := LastEmpty(b);
      PlacingUsesUpAnEmptyCell(b, k, Mark(maxPlayer));
      Score(b[k := Mark(maxPlayer)], !maxPlayer)
  }

  /** How `minmax` scores a finished board. */
  lemma ScoreOfFinished(b: Board, maxPlayer: bool)
    requires CheckWin(b).Over()
    ensures CheckWin(b).Draw? ==> Score(b, maxPlayer) == 0
    ensures CheckWin(b).Line? ==>
      Score(b, maxPlayer) == if b[CheckWin(b).cells.0] == Player1 then 1 else -1
  {
  }

  /** An unfinished board scores what the child for its highest-indexed empty cell scores. */
  lemma ScoreOfOngoing(b: Board, maxPlayer: bool)
    requires CheckWin(b) == Ongoing
    ensures LastEmptyBelow(b, 9) != -1
    ensures Score(b, maxPlayer) == Score(b[LastEmptyBelow(b, 9) := Mark(maxPlayer)], !maxPlayer)
  {
    LastEmptyBelowIsHighest(b, 9);
  }

  /** When `k` is the highest empty cell, the board scores what its child on `k` scores. */
  lemma ScoreFollowsHighestEmpty(b: Board, maxPlayer: bool, k: nat)
    requires CheckWin(b) == Ongoing && k < 9 && b[k] == Empty
    requires forall j :: k < j < 9 ==> b[j] != Empty
    ensures Score(b, maxPlayer) == Score(b[k := Mark(maxPlayer)], !maxPlayer)
  {
    ScoreOfOngoing(b, maxPlayer);
    LastEmptyBelowIsHighest(b, 9);
  }

  /** The score `best_move` computes for putting player_2 on cell `j`. */
  function CandidateScore(b: Board, j: nat): (r: int)
    requires j < 9
    ensures -1 <= r <= 1
  {
    Score(b[j := Player2], true)
  }

  /**
    The cell `best_move` picks: an empty cell; the first empty cell scoring 0
    when there is one, otherwise the first empty cell of minimum score.
   */
  ghost predicate IsChosen(b: Board, c: int) {
    0 <= c < 9 && b[c] == Empty &&
    if exists j :: 0 <= j < 9 && b[j] == Empty && CandidateScore(b, j) == 0 then
      CandidateScore(b, c) == 0 &&
      forall j :: 0 <= j < c && b[j] == Empty ==> CandidateScore(b, j) != 0
    else
      forall j :: 0 <= j < 9 && b[j] == Empty ==>
        CandidateScore(b, c) <= CandidateScore(b, j) && (j < c ==> CandidateScore(b, c) < CandidateScore(b, j))
  }

  /** At most one cell meets the description of `best_move`'s choice. */
  lemma ChosenUnique(b: Board, c1: int, c2: int)
    requires IsChosen(b, c1) && IsChosen(b, c2)
    ensures c1 == c2
  {
  }

  /** The loop variables of `best_move`: `_best` (-1 for `None`), `_best_value`, and whether it has hit `break`. */
  datatype Search = Search(best: int, bestValue: int, stopped: bool)

  /** `best_move`'s loop after it has looked at cells 0..n-1. */
  function BestSearch(b: Board, n: nat): (s: Search)
    requires n <= 9
    ensures -1 <= s.best < n
    ensures s.best != -1 ==> b[s.best] == Empty
    ensures s.best == -1 ==> !s.stopped && s.bestValue == 10
    ensures s.stopped ==> CandidateScore(b, s.best) == 0
  {
    if n == 0 then Search(-1, 10, false)
    else
      var s := BestSearch(b, n - 1);
      var move := n - 1;
      if s.stopped || b[move] != Empty then s
      else
        var counted := CandidateScore(b, move);
        var s' := if counted < s.bestValue then Search(move, counted, false) else s;
        if counted == 0 then Search(move, s'.bestValue, true) else s'
  }

  /** Once the loop has hit `break`, later cells change nothing. */
  lemma {:induction false} BestSearchStopsAtBreak(b: Board, n: nat, m: nat)
    requires n <= m <= 9 && BestSearch(b, n).stopped
    ensures BestSearch(b, m) == BestSearch(b, n)
    decreases m - n
  {
    if n < m {
      BestSearchStopsAtBreak(b, n, m - 1);
    }
  }

  /** What the loop variables of `best_move` say about the cells 0..n-1 already looked at. */
  ghost predicate SearchSoFar(b: Board, n: nat, s: Search)
    requires n <= 9
  {
    if s.stopped then
      0 <= s.best < n && b[s.best] == Empty && CandidateScore(b, s.best) == 0 &&
      forall j :: 0 <= j < s.best && b[j] == Empty ==> CandidateScore(b, j) != 0
    else if s.best == -1 then
      s.bestValue == 10 && forall j :: 0 <= j < n ==> b[j] != Empty
    else
      0 <= s.best < n && b[s.best] == Empty && s.bestValue == CandidateScore(b, s.best) &&
      (forall j :: 0 <= j < n && b[j] == Empty ==> CandidateScore(b, j) != 0 && s.bestValue <= CandidateScore(b, j)) &&
      (forall j :: 0 <= j < s.best && b[j] == Empty ==> s.bestValue < CandidateScore(b, j))
  }

  lemma BestSearchStep(b: Board, n: nat)
    requires 0 < n <= 9 && SearchSoFar(b, n - 1, BestSearch(b, n - 1))
    ensures SearchSoFar(b, n, BestSearch(b, n))
  {
    var s := BestSearch(b, n - 1);
    var move := n - 1;
    if !s.stopped && b[move] == Empty {
      var counted := CandidateScore(b, move);
      if counted == 0 {
        assert BestSearch(b, n).best == move;
      } else if counted < s.bestValue {
        assert BestSearch(b, n) == Search(move, counted, false);
      } else {
        assert BestSearch(b, n) == s;
      }
    }
  }

  lemma {:induction false} BestSearchInvariant(b: Board, n: nat)
    requires n <= 9
    ensures SearchSoFar(b, n, BestSearch(b, n))
  {
    if n > 0 {
      BestSearchInvariant(b, n - 1);
      BestSearchStep(b, n);
    }
  }

  /** `best_move`'s choice on a board with an empty cell: the first cell scoring 0 if any, else the first of least score. */
  function ChosenMove(b: Board): (c: nat)
    requires !AllMarked(b)
    ensures IsChosen(b, c)
  {
    BestSearchInvariant(b, 9);
    BestSearch(b, 9).best
  }
}
