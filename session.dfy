/**
  The game session of MainWindow.py as values: the four attributes the
  window keeps (`fields`, `turn`, `stop_game`, `chosen_mode`) and the state
  each handler leaves behind. The class in main_window.dfy is proved to
  produce exactly these states.
 */
module Session {
  import opened Board
  import opened Engine

  datatype State = State(fields: Board, turn: bool, stopGame: bool, chosenMode: bool)

  /** Right after `__init__`: empty board, player_1 to move, game running. */
  function Initial(twoPlayer: bool): (s: State)
    ensures forall k :: 0 <= k < 9 ==> s.fields[k] == Empty
    ensures s.turn && !s.stopGame && s.chosenMode == twoPlayer
  {
    State(EmptyBoard, true, false, twoPlayer)
  }

  /** `on_mode`: only the mode changes. */
  function SetMode(s: State, twoPlayer: bool): (r: State)
    ensures r.fields == s.fields && r.turn == s.turn && r.stopGame == s.stopGame
    ensures r.chosenMode == twoPlayer
  {
    s.(chosenMode := twoPlayer)
  }

  /** `on_restart`: turn back to player_1, every cell empty, game running again. */
  function Restart(s: State): (r: State)
    ensures forall k :: 0 <= k < 9 ==> r.fields[k] == Empty
    ensures r.turn && !r.stopGame && r.chosenMode == s.chosenMode
  {
    State(EmptyBoard, true, false, s.chosenMode)
  }

  /**
    The tail shared by `best_move` and `random_move`: player_2 goes on cell
    `c`, `set_winner` stops the game if that finishes it, and the turn flips.
   */
  function ComputerMove(s: State, c: nat): (r: State)
    requires c < 9
    ensures r.fields == s.fields[c := Player2] && r.fields[c] == Player2
    ensures r.stopGame == (s.stopGame || CheckWin(r.fields).Over())
    ensures r.turn == !s.turn && r.chosenMode == s.chosenMode
  {
    var b := s.fields[c := Player2];
    State(b, !s.turn, s.stopGame || CheckWin(b).Over(), s.chosenMode)
  }

  /**
    `best_move`: nothing on a full board; otherwise player_2's mark goes on
    the empty cell the engine picks, no other cell changes, the turn flips.
   */
  function BestMoveStep(s: State): (r: State)
    ensures AllMarked(s.fields) ==> r == s
    ensures !AllMarked(s.fields) ==>
      exists c :: 0 <= c < 9 && s.fields[c] == Empty && IsChosen(s.fields, c) &&
        r.fields == s.fields[c := Player2] && r.turn == !s.turn && r.chosenMode == s.chosenMode
    ensures !AllMarked(s.fields) ==> r.stopGame == (s.stopGame || CheckWin(r.fields).Over())
  {
    if AllMarked(s.fields) then s else ComputerMove(s, ChosenMove(s.fields))
  }

  /** `random_move` with the draw of `randint(0, len(empty_fields) - 1)` given as `r`. */
  function RandomMoveStep(s: State, r: nat): (t: State)
    requires !AllMarked(s.fields) ==> r < |EmptyIndices(s.fields)|
    ensures AllMarked(s.fields) ==> t == s
    ensures !AllMarked(s.fields) ==>
      exists c :: 0 <= c < 9 && s.fields[c] == Empty &&
        t.fields == s.fields[c := Player2] && t.turn == !s.turn && t.chosenMode == s.chosenMode
    ensures !AllMarked(s.fields) ==> t.stopGame == (s.stopGame || CheckWin(t.fields).Over())
  {
    if AllMarked(s.fields) then s else ComputerMove(s, EmptyIndices(s.fields)[r])
  }

  /** Every empty cell is the one `random_move` takes for some draw of `randint`. */
  lemma RandomMoveReachesEveryEmptyCell(s: State, c: nat)
    requires c < 9 && s.fields[c] == Empty
    ensures exists r :: 0 <= r < |EmptyIndices(s.fields)| && RandomMoveStep(s, r).fields == s.fields[c := Player2]
  {
    var e := EmptyIndices(s.fields);
    assert c in e;
    var r :| 0 <= r < |e| && e[r] == c;
    assert RandomMoveStep(s, r).fields == s.fields[c := Player2];
  }

  /**
    `on_button(i)`: ignored once the game is stopped or on a taken cell;
    otherwise the mark of the player on turn goes on cell i, the turn flips,
    a finished game is stopped, and in one-player mode the engine replies.
   */
  function Click(s: State, i: nat): (r: State)
    requires i < 9
    ensures s.stopGame || s.fields[i] != Empty ==> r == s
    ensures !s.stopGame && s.fields[i] == Empty ==>
      r.fields[i] == Mark(s.turn) && r.chosenMode == s.chosenMode && r.stopGame == CheckWin(r.fields).Over()
    ensures !s.stopGame && s.fields[i] == Empty && (s.chosenMode || CheckWin(s.fields[i := Mark(s.turn)]).Over()) ==>
      r.fields == s.fields[i := Mark(s.turn)] && r.turn == !s.turn
    ensures !s.stopGame && s.fields[i] == Empty && !s.chosenMode && !CheckWin(s.fields[i := Mark(s.turn)]).Over() ==>
      exists c :: 0 <= c < 9 && c != i && s.fields[c] == Empty && IsChosen(s.fields[i := Mark(s.turn)], c) &&
        r.fields == s.fields[i := Mark(s.turn)][c := Player2] && r.turn == s.turn
  {
    if s.stopGame || s.fields[i] != Empty then s
    else
      var b := s.fields[i := Mark(s.turn)];
      var t := State(b, !s.turn, s.stopGame, s.chosenMode);
      if CheckWin(b).Over() then t.(stopGame := true)
      else if s.chosenMode then t
      else
        var c := ChosenMove(b);
        assert c != i && s.fields[c] == Empty;
        BestMoveStep(t)
  }

  /** `stop_game` is set exactly when `check_win` reports the board finished. */
  predicate Consistent(s: State) {
    s.stopGame == CheckWin(s.fields).Over()
  }

  /** Player_1 has made one more move than player_2 exactly when it is player_2's turn. */
  predicate Balanced(s: State) {
    multiset(s.fields)[Player1] == multiset(s.fields)[Player2] + (if s.turn then 0 else 1)
  }

  lemma EmptyBoardIndices(from: nat)
    requires from <= 9
    ensures |EmptyIndicesFrom(EmptyBoard, from)| == 9 - from
    ensures forall k :: 0 <= k < 9 - from ==> EmptyIndicesFrom(EmptyBoard, from)[k] == from + k
    decreases 9 - from
  {
    if from < 9 {
      EmptyBoardIndices(from + 1);
      assert EmptyBoard[from] == Empty;
    }
  }

  lemma EmptyBoardOngoing()
    ensures CheckWin(EmptyBoard) == Ongoing
  {
    assert EmptyBoard[0] == Empty;
  }

  lemma EmptyBoardHasNoMarks()
    ensures multiset(EmptyBoard)[Player1] == 0 && multiset(EmptyBoard)[Player2] == 0
  {
    assert multiset(EmptyBoard) == multiset{Empty, Empty, Empty, Empty, Empty, Empty, Empty, Empty, Empty};
  }

  /** The state `__init__` builds is unfinished, consistent and balanced, with all nine cells free. */
  lemma InitialIsConsistent(twoPlayer: bool)
    ensures CheckWin(Initial(twoPlayer).fields) == Ongoing
    ensures Consistent(Initial(twoPlayer)) && Balanced(Initial(twoPlayer))
    ensures |EmptyIndices(Initial(twoPlayer).fields)| == 9
  {
    EmptyBoardOngoing();
    EmptyBoardHasNoMarks();
    EmptyBoardIndices(0);
  }

  /** `on_restart` always leaves a consistent, balanced, unfinished game. */
  lemma RestartIsFresh(s: State)
    ensures Restart(s) == Initial(s.chosenMode)
    ensures CheckWin(Restart(s).fields) == Ongoing && Consistent(Restart(s)) && Balanced(Restart(s))
    ensures |EmptyIndices(Restart(s).fields)| == 9
  {
    InitialIsConsistent(s.chosenMode);
  }

  lemma {:induction false} ComputerMoveKeepsConsistent(s: State, c: nat)
    requires Consistent(s) && c < 9 && s.fields[c] == Empty
    ensures Consistent(ComputerMove(s, c))
  {
    if s.stopGame {
      PlacingKeepsOver(s.fields, c, Player2);
    }
  }

  /** Every handler keeps `stop_game` in step with the board. */
  lemma {:induction false} HandlersKeepConsistent(s: State, i: nat, r: nat, twoPlayer: bool)
    requires Consistent(s) && i < 9
    requires !AllMarked(s.fields) ==> r < |EmptyIndices(s.fields)|
    ensures Consistent(Click(s, i))
    ensures Consistent(BestMoveStep(s))
    ensures Consistent(RandomMoveStep(s, r))
    ensures Consistent(SetMode(s, twoPlayer)) && Consistent(Restart(s))
  {
    if !AllMarked(s.fields) {
      ComputerMoveKeepsConsistent(s, ChosenMove(s.fields));
      ComputerMoveKeepsConsistent(s, EmptyIndices(s.fields)[r]);
    }
    RestartIsFresh(s);
  }

  lemma PlacingCounts(b: Board, c: nat, v: Cell)
    requires c < 9 && b[c] == Empty && v != Empty
    ensures multiset(b[c := v])[v] == multiset(b)[v] + 1
    ensures forall w :: w != v && w != Empty ==> multiset(b[c := v])[w] == multiset(b)[w]
  {
  }

  /**
    A click keeps the marks balanced against the turn in two-player mode, and
    in one-player mode when the human is on turn (the engine's reply is then
    player_2's move and hands the turn back).
   */
  lemma {:induction false} ClickKeepsBalanced(s: State, i: nat)
    requires Balanced(s) && i < 9
    requires s.chosenMode || s.turn
    ensures Balanced(Click(s, i))
  {
    if !s.stopGame && s.fields[i] == Empty {
      var b := s.fields[i := Mark(s.turn)];
      PlacingCounts(s.fields, i, Mark(s.turn));
      if !s.chosenMode && !CheckWin(b).Over() {
        PlacingCounts(b, ChosenMove(b), Player2);
      }
    }
  }
}
