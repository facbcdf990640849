/**
  Concrete boards run through the model: which line `check_win` reports,
  what `minmax` returns, and which cell `best_move` takes.
 */
module Scenarios {
  import opened Board
  import opened Engine
  import opened Session

  /** X holds row 0 while O holds two cells of row 1: row 0 is reported. */
  lemma RowZeroIsReported()
    ensures CheckWin([X, X, X, O, O, Empty, Empty, Empty, Empty]) == Line((0, 1, 2))
  {
  }

  /** A full board without a line is a draw. */
  lemma FullBoardWithoutLineIsDraw()
    ensures CheckWin([X, O, X, O, X, O, O, X, O]) == Draw
  {
  }

  /** Row 1 and column 0 are both complete; column 0 comes first in the scan. */
  lemma ColumnZeroBeforeRowOne()
    ensures CheckWin([X, O, O, X, X, X, X, O, O]) == Line((0, 3, 6))
  {
  }

  /** Clicking a taken cell in a two-player game changes nothing. */
  lemma SecondClickOnSameCellIsIgnored()
    ensures Click(Initial(true), 0).fields[0] == X
    ensures Click(Click(Initial(true), 0), 0) == Click(Initial(true), 0)
  {
  }

  /** The boards on the chain that `minmax` follows from the empty board are all unfinished ... */
  lemma ChainOngoingEarly()
    ensures CheckWin([Empty, Empty, Empty, Empty, Empty, Empty, Empty, Empty, X]) == Ongoing
    ensures CheckWin([Empty, Empty, Empty, Empty, Empty, Empty, Empty, O, X]) == Ongoing
    ensures CheckWin([Empty, Empty, Empty, Empty, Empty, Empty, X, O, X]) == Ongoing
  {
  }

  lemma ChainOngoingLate()
    ensures CheckWin([Empty, Empty, Empty, Empty, Empty, O, X, O, X]) == Ongoing
    ensures CheckWin([Empty, Empty, Empty, Empty, X, O, X, O, X]) == Ongoing
    ensures CheckWin([Empty, Empty, Empty, O, X, O, X, O, X]) == Ongoing
  {
  }

  /** ... until X completes the diagonal (2, 4, 6). */
  lemma ChainEndsOnDiagonal()
    ensures CheckWin([Empty, Empty, X, O, X, O, X, O, X]) == Line((2, 4, 6))
  {
  }

  /** From five marks on, the chain places X on 4, O on 3 and X on 2, and X wins. */
  lemma ScoreOfLateChain(b5: Board)
    requires b5 == [Empty, Empty, Empty, Empty, Empty, O, X, O, X]
    ensures Score(b5, true) == 1
  {
    var b4 := b5[4 := X];
    var b3 := b4[3 := O];
    var b2 := b3[2 := X];
    assert b4 == [Empty, Empty, Empty, Empty, X, O, X, O, X];
    assert b3 == [Empty, Empty, Empty, O, X, O, X, O, X];
    assert b2 == [Empty, Empty, X, O, X, O, X, O, X];
    ChainOngoingLate();
    ChainEndsOnDiagonal();
    ScoreFollowsHighestEmpty(b5, true, 4);
    ScoreFollowsHighestEmpty(b4, false, 3);
    ScoreFollowsHighestEmpty(b3, true, 2);
    ScoreOfFinished(b2, false);
  }

  /**
    `minmax` on the empty board with player_1 to move: following the highest
    empty cell each time fills 8, 7, 6, 5, 4, 3, 2 and completes X's
    diagonal (2, 4, 6), so the result is 1 and not the 0 of a game played
    well by both sides.
   */
  lemma ScoreOfEmptyBoard()
    ensures Score(EmptyBoard, true) == 1
  {
    var b8 := EmptyBoard[8 := X];
    var b7 := b8[7 := O];
    var b6 := b7[6 := X];
    var b5 := b6[5 := O];
    assert b8 == [Empty, Empty, Empty, Empty, Empty, Empty, Empty, Empty, X];
    assert b7 == [Empty, Empty, Empty, Empty, Empty, Empty, Empty, O, X];
    assert b6 == [Empty, Empty, Empty, Empty, Empty, Empty, X, O, X];
    assert b5 == [Empty, Empty, Empty, Empty, Empty, O, X, O, X];
    EmptyBoardOngoing();
    ChainOngoingEarly();
    ScoreFollowsHighestEmpty(EmptyBoard, true, 8);
    ScoreFollowsHighestEmpty(b8, false, 7);
    ScoreFollowsHighestEmpty(b7, true, 6);
    ScoreFollowsHighestEmpty(b6, false, 5);
    ScoreOfLateChain(b5);
  }
}
