# Tic-tac-toe game logic

A model of the game logic in `MainWindow.py`, a tic-tac-toe window built
with PyQt5. Two people can play each other, or one person (player_1, `X`)
can play the computer (player_2, `O`). The computer's move comes from a
minimax-style search. The Qt widgets are taken away. What remains is:

- the board `self.fields`: nine cells, `None` or a player's mark;
- the flags `self.turn`, `self.stop_game` and `self.chosen_mode`;
- the handlers that change them.

The project has five modules:

- `Board` (board.dfy): cells, the eight lines in the order `check_win`
  scans them, and `CheckWin`, with a lemma saying which line it reports.
- `Engine` (engine.dfy): the specification functions.
  - `Score` is what `minmax` returns.
  - `ChosenMove` is the cell `best_move` picks. It is described by the
    predicate `IsChosen`: the first empty cell scoring 0, else the first
    empty cell of least score.
- `Session` (session.dfy): the window's state as a value.
  - Each handler has a function giving the state it leaves behind.
  - Lemmas show that every handler keeps `stop_game` equal to "the board
    is finished".
  - Lemmas show that the counts of the two marks stay in step with `turn`.
- `Window` (main_window.dfy): the class `MainWindow` with the four
  attributes as fields, the board as an `array`, and one method per
  handler.
  - Every handler's postcondition ties its new state to the `Session`
    function of the old state.
  - `SetField`, `SetWinner` and `ClearFields` state their effect on the
    fields directly.
  - `MinMax` and `BestMove` work in place on the live board, as the source
    does: place a mark, recurse, take the mark back.
  - `MinMax` and `PlaceAndSearch` are proved to restore the board and to
    return `Engine.Score`.
  - `BestMove` keeps the board unchanged as a loop invariant across its
    trial placements. It then puts player_2's mark on `Engine.ChosenMove`
    of the board, so its new state is `Session.BestMoveStep` of the old.
- `Scenarios` (scenarios.dfy): concrete boards worked through the model.

`minmax` loops over every empty cell but returns `value`, the result of the
last recursive call, not the `best_value` it accumulates. The model follows
the code. `Score` of a board still being played is the score of its child
on the highest-indexed empty cell. `Scenarios.ScoreOfEmptyBoard` proves that
the empty board with player_1 to move scores 1. A minimax search over both
players' best replies would give 0. `best_move` therefore plays on these last-child
scores, and the model keeps that behaviour.

## Model

| member | source | states |
|---|---|---|
| Board.CheckWin | MainWindow.py:173-195 | a reported line is three board cells; a draw is reported only on a full board; "not over" only on a board with an empty cell |
| Board.CheckWinReportsFirstLine | MainWindow.py:175-195 | the reported line is the first line, in the order row 0, column 0, row 1, column 1, row 2, column 2, diagonal 0-4-8, diagonal 2-4-6, whose three cells hold the same mark; with no such line, the result is a draw exactly when the board is full |
| Board.ScanRowsAndColumns | MainWindow.py:175-184 | the `for i in range(3)` loop reports the first uniform row or column from row i on, and reports none only when none of them is uniform |
| Board.PlacingKeepsOver | MainWindow.py:173-195 | adding a mark to a finished board leaves it finished |
| Board.Mark | MainWindow.py:89-92 | the mark of the side to move is never `None`, and it is player_1's exactly when player_1 is to move (`self.turn` in `on_button`, `max_player` in `minmax`, lines 158 and 167) |
| Board.LastEmptyBelow | MainWindow.py:155-161 | the last empty cell the `minmax` loop meets below n, or -1: the result is -1 or an empty cell below n |
| Board.EmptyIndices | MainWindow.py:110 | `empty_fields` lists exactly the empty cells, in ascending order, and is empty exactly when `all(self.fields)` holds |
| Board.LastEmptyBelowIsHighest | MainWindow.py:155-161 | the last cell the `minmax` loop tries below n is the highest-indexed empty one; there is none exactly when cells 0..n-1 are all taken |
| Engine.Score | MainWindow.py:143-171 | `minmax` always returns -1, 0 or 1 |
| Engine.ScoreOfFinished | MainWindow.py:144-151 | a finished board scores 0 for a draw, 1 when the first cell of the winning line holds player_1's mark, and -1 otherwise |
| Engine.ScoreOfOngoing | MainWindow.py:153-171 | a board still being played has an empty cell, and it scores what its child on the highest-indexed empty cell scores with the other side to move |
| Engine.ScoreFollowsHighestEmpty | MainWindow.py:153-171 | for every board still being played, with `k` its highest-indexed empty cell, the score is what the child with the mover's mark on `k` scores, with the other side to move |
| Engine.CandidateScore | MainWindow.py:126-129 | the `counted_value` of putting player_2 on a cell and calling `minmax(board, 0, True)`, which lies in -1..1 |
| Engine.BestSearch | MainWindow.py:121-135 | the loop variables of `best_move` after cells 0..n-1. `_best` is `None` (-1) or an empty cell below n. While it is `None`, the loop has not hit `break` and `_best_value` is still 10. After `break`, `_best` scored 0 |
| Engine.ChosenMove | MainWindow.py:119-135 | the cell `best_move` picks is empty; it is the first empty cell whose candidate scores 0 when there is one, and otherwise the first empty cell of least score |
| Engine.ChosenUnique | MainWindow.py:119-135 | at most one cell fits that description |
| Engine.BestSearchInvariant | MainWindow.py:121-135 | after cells 0..n-1, `_best`, `_best_value` and the `break` flag describe the cells seen so far: `None` means none was empty; after `break` it is the first zero-scoring cell; otherwise it is the first of least score and none scored 0 |
| Engine.BestSearchStopsAtBreak | MainWindow.py:133-135 | once the loop has hit `break`, later cells change nothing |
| Session.Initial | MainWindow.py:20-37 | all nine cells empty, player_1 to move, game running, the mode as given |
| Session.SetMode | MainWindow.py:40-46 | only the mode changes |
| Session.Restart | MainWindow.py:59-65 | all nine cells empty, player_1 to move, game running, the mode kept |
| Session.ComputerMove | MainWindow.py:137-141 | player_2's mark on the cell and no other change to the board; `stop_game` set if it was set or the new board is finished; the turn flips and the mode is kept |
| Session.BestMoveStep | MainWindow.py:119-141 | a full board is left alone; otherwise player_2's mark goes on the cell `IsChosen` describes, no other cell changes, `stop_game` is set if the new board is finished, the turn flips and the mode is kept |
| Session.RandomMoveStep | MainWindow.py:107-117 | a full board is left alone; otherwise player_2's mark goes on one empty cell, no other cell changes, `stop_game` is set if the new board is finished, the turn flips and the mode is kept |
| Session.RandomMoveReachesEveryEmptyCell | MainWindow.py:109-113 | every empty cell is taken for some value `randint` can draw |
| Session.Click | MainWindow.py:80-100 | a click on a stopped game or a taken cell changes nothing. Otherwise the clicked cell gets the mark of the player on turn and `stop_game` ends up equal to "the board is finished". In two-player mode, or when the click finishes the game, only that cell changes and the turn flips. Otherwise the computer answers on a different empty cell chosen as `IsChosen` says, and the turn ends where it started |
| Session.InitialIsConsistent | MainWindow.py:20-37 | the state `__init__` builds is not finished, `stop_game` agrees with the board, neither player has a mark, and all nine cells are free |
| Session.RestartIsFresh | MainWindow.py:59-65 | `on_restart` gives the state `__init__` builds, keeping the mode; it is not finished, consistent and balanced |
| Session.ComputerMoveKeepsConsistent | MainWindow.py:137-141 | the computer's move keeps `stop_game` equal to "the board is finished" |
| Session.HandlersKeepConsistent | MainWindow.py:40-141 | `on_button`, `best_move`, `random_move`, `on_mode` and `on_restart` all keep `stop_game` equal to "the board is finished" |
| Session.ClickKeepsBalanced | MainWindow.py:80-100 | a click keeps the count of player_1's marks equal to player_2's, plus one when player_2 is on turn |
| Window.MainWindow.constructor | MainWindow.py:20-37 | a fresh nine-cell board, all empty; player_1 to move; game running; the mode is the check box's state |
| Window.MainWindow.OnMode | MainWindow.py:40-46 | only `chosen_mode` changes, to the check box's state |
| Window.MainWindow.ClearFields | MainWindow.py:54-57 | every cell is empty afterwards |
| Window.MainWindow.OnRestart | MainWindow.py:59-65 | the new state is `Session.Restart` of the old |
| Window.MainWindow.SetWinner | MainWindow.py:67-78 | `stop_game` is set; nothing else of the game state changes |
| Window.MainWindow.SetField | MainWindow.py:102-105 | exactly the given cell takes the given mark |
| Window.MainWindow.OnButton | MainWindow.py:80-100 | the new state is `Session.Click` of the old |
| Window.MainWindow.RandomMove | MainWindow.py:107-117 | the new state is `Session.RandomMoveStep` of the old for the drawn index |
| Window.MainWindow.PlayComputerMark | MainWindow.py:137-141 | player_2's mark on the cell, `set_winner` if that finishes the game, the turn flips |
| Window.MainWindow.BestMove | MainWindow.py:119-141 | the trial placements leave the board as it was, and the new state is `Session.BestMoveStep` of the old |
| Window.MainWindow.MinMax | MainWindow.py:143-171 | the board is restored on return, and the value returned is `Engine.Score` of the board |
| Window.MainWindow.PlaceAndSearch | MainWindow.py:155-161 | one iteration of a `minmax` loop restores the board and returns the score of the child |
| Scenarios.RowZeroIsReported | MainWindow.py:175-180 | a board with row 0 all `X` reports row 0 |
| Scenarios.ColumnZeroBeforeRowOne | MainWindow.py:175-184 | with column 0 and row 1 both complete, column 0 is reported, because columns are scanned between rows |
| Scenarios.FullBoardWithoutLineIsDraw | MainWindow.py:192-194 | a full board with no line is a draw |
| Scenarios.SecondClickOnSameCellIsIgnored | MainWindow.py:85-87 | a second click on the same cell changes nothing |
| Scenarios.ScoreOfEmptyBoard | MainWindow.py:143-171 | `minmax(empty board, 0, True)` returns 1 |

## Left out

- The Qt side is not modelled: the buttons and their labels and colours, `clear_buttons`, the winner label, the window title and loading `main.ui`. The arguments of `set_winner` only choose labels and colours, so `SetWinner` takes none.
- `randint` in `random_move` becomes the parameter `r` of `RandomMove`. Its precondition is the range `randint(0, len(empty_fields) - 1)` guarantees.
- `main.py`, which only creates the application and the window, is not part of this model.
- The button wiring in `__init__` only ever passes 0..8 to `on_button`, so `OnButton` requires `i < 9`.
- `depth` in `minmax` is passed along and never read. `best_value` is computed and never returned. Both are kept in `MinMax` as the source has them.
- `PlaceAndSearch` is factored out of `minmax`'s loops: it places the mark, recurses and takes the mark back. The unused `best_value` is then updated after the cell has been emptied, where the source updates it between the recursive call and the undo. Nothing reads `best_value`, so the order makes no difference to the result or the board.
- `PlayComputerMark` is factored out of the shared tail of `best_move` and `random_move`. It does the same steps in the same order.
- Session.InitialIsConsistent: states only that all nine cells are free, not that `EmptyIndices` of the empty board is the list 0..8.
- Session.ClickKeepsBalanced: is not claimed for a one-player click made while player_2 is on turn. That state is reachable by switching the mode mid-game; the human then places `O` and the computer places another `O`.
- Session.RandomMoveStep: says only that some empty cell is taken. Which cell depends on `r`; `Session.RandomMoveReachesEveryEmptyCell` states that every empty cell can be.
