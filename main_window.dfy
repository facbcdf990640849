/**
  The game logic of the `MainWindow` class of MainWindow.py with the Qt
  widgets taken away: the list `self.fields`, the flags `self.turn`,
  `self.stop_game` and `self.chosen_mode`, and the handlers that change them.
  Every handler is proved to leave the state its Session function describes.
 */
module Window {
  import opened Board
  import opened Engine
  import opened Session

  class MainWindow {
    var fields: array<Cell>
    var turn: bool
    var stopGame: bool
    var chosenMode: bool

    ghost predicate Valid()
      reads this
    {
      fields.Length == 9
    }

    /** The session state these attributes hold. */
    ghost function State(): Session.State
      reads this, fields
      requires Valid()
    {
      Session.State(fields[..], turn, stopGame, chosenMode)
    }

    /** `__init__`: an empty board, player_1 to move; the mode is the check box's state. */
    constructor (modeChecked: bool)
      ensures Valid() && fresh(fields)
      ensures State() == Initial(modeChecked)
    {
      fields := new Cell[9](_ => Empty);
      turn := true;
      stopGame := false;
      chosenMode := modeChecked;
      new;
      assert fields[..] == EmptyBoard;
    }

    /** `on_mode`: two-player mode when the box is checked. */
    method OnMode(checked: bool)
      requires Valid()
      modifies this`chosenMode
      ensures State() == SetMode(old(State()), checked)
    {
      chosenMode := checked;
    }

    /** `clear_fields`: every cell back to `None`. */
    method ClearFields()
      requires Valid()
      modifies fields
      ensures fields[..] == EmptyBoard
    {
      for i := 0 to fields.Length
        invariant forall j :: 0 <= j < i ==> fields[j] == Empty
      {
        fields[i] := Empty;
      }
    }

    /** `on_restart` */
    method OnRestart()
      requires Valid()
      modifies fields, this`turn, this`stopGame
      ensures State() == Restart(old(State()))
    {
      turn := true;
      ClearFields();
      stopGame := false;
    }

    /** The part of `set_winner` that is not about labels and colours. */
    method SetWinner()
      modifies this`stopGame
      ensures stopGame
    {
      stopGame := true;
    }

    /** `set_field` without the button label. */
    method SetField(index: nat, player: Cell)
      requires index < fields.Length
      modifies fields
      ensures fields[..] == old(fields[..])[index := player]
    {
      fields[index] := player;
    }

    /** `on_button(i)`; the button wiring only ever passes 0..8. */
    method OnButton(i: nat)
      requires Valid() && i < 9
      modifies fields, this`turn, this`stopGame
      ensures State() == Click(old(State()), i)
    {
      if stopGame {
        return;
      }
      if fields[i] != Empty {
        return;
      }
      if turn {
        SetField(i, Player1);
      } else {
        SetField(i, Player2);
      }
      turn := !turn;
      var win := CheckWin(fields[..]);
      if win.Over() {
        SetWinner();
        return;
      }
      if !chosenMode {
        BestMove();
      }
    }

    /** `random_move`, with `r` standing for the value `randint` draws. */
    method RandomMove(r: nat)
      requires Valid()
      requires !AllMarked(fields[..]) ==> r < |EmptyIndices(fields[..])|
      modifies fields, this`turn, this`stopGame
      ensures State() == RandomMoveStep(old(State()), r)
    {
      if !AllMarked(fields[..]) {
        var emptyFields := EmptyIndices(fields[..]);
        var fieldIndex := emptyFields[r];
        PlayComputerMark(fieldIndex);
      }
    }

    /**
      The lines `best_move` and `random_move` end with: player_2's mark on
      cell `c`, `set_winner` if that finishes the game, and the turn flips.
     */
    method PlayComputerMark(c: nat)
      requires Valid() && c < 9
      modifies fields, this`turn, this`stopGame
      ensures State() == ComputerMove(old(State()), c)
    {
      SetField(c, Player2);
      var win := CheckWin(fields[..]);
      if win.Over() {
        SetWinner();
      }
      turn := !turn;
    }

    /**
      `best_move`: tries player_2 on every empty cell of the live board,
      scores it with `minmax`, takes the cell back, and keeps the first cell
      scoring 0 or else the first of least score.
     */
    method BestMove()
      requires Valid()
      modifies fields, this`turn, this`stopGame
      ensures State() == BestMoveStep(old(State()))
    {
      if !AllMarked(fields[..]) {
        ghost var b0: Board := fields[..];
        var best := -1;
        var bestValue := 10;
        for move := 0 to 9
          invariant fields[..] == b0 && turn == old(turn) && stopGame == old(stopGame)
          invariant BestSearch(b0, move) == Search(best, bestValue, false)
        {
          if fields[move] != Empty {
            continue;
          }
          var board := fields;
          var countedValue := PlaceAndSearch(board, move, Player2, 0, true);
          assert countedValue == CandidateScore(b0, move);
          if countedValue < bestValue {
            best := move;
            bestValue := countedValue;
          }
          if countedValue == 0 {
            best := move;
            assert BestSearch(b0, move + 1).stopped && BestSearch(b0, move + 1).best == move;
            BestSearchStopsAtBreak(b0, move + 1, 9);
            break;
          }
        }
        assert best == ChosenMove(b0);
        PlayComputerMark(best);
      }
    }

    /**
      `minmax(board, depth, max_player)` on the live board: every empty cell
      is tried and taken back, so the board is as it was on return, and the
      result is the value of the last cell tried. `depth` is passed along and
      never read.
     */
    method MinMax(board: array<Cell>, depth: int, maxPlayer: bool) returns (value: int)
      requires board.Length == 9
      modifies board
      ensures board[..] == old(board[..])
      ensures value == Score(old(board[..]), maxPlayer)
      decreases multiset(board[..])[Empty], 1
    {
      ghost var b0: Board := board[..];
      var win := CheckWin(board[..]);
      if win.Over() {
        ScoreOfFinished(b0, maxPlayer);
        if win.Draw? {
          return 0;
        } else if board[win.cells.0] == Player1 {
          return 1;
        } else {
          return -1;
        }
      }
      ghost var last := -1;
      value := 0;
      if maxPlayer {
        var bestValue := -10;
        for move := 0 to 9
          invariant board[..] == b0
          invariant last == LastEmptyBelow(b0, move)
          invariant last != -1 ==> value == Score(b0[last := Player1], false)
        {
          if board[move] != Empty {
            continue;
          }
          value := PlaceAndSearch(board, move, Player1, depth + 1, false);
          bestValue := if value > bestValue then value else bestValue;
          last := move;
        }
      } else {
        var bestValue := 10;
        for move := 0 to 9
          invariant board[..] == b0
          invariant last == LastEmptyBelow(b0, move)
          invariant last != -1 ==> value == Score(b0[last := Player2], true)
        {
          if board[move] != Empty {
            continue;
          }
          value := PlaceAndSearch(board, move, Player2, depth + 1, true);
          bestValue := if value < bestValue then value else bestValue;
          last := move;
        }
      }
      ScoreOfOngoing(b0, maxPlayer);
    }

    /**
      One step of `minmax`'s loops: put `mark` on the empty cell `move`,
      search the board that results, and set the cell back to `None`.
     */
    method PlaceAndSearch(board: array<Cell>, move: nat, mark: Cell, depth: int, maxPlayer: bool) returns (value: int)
      requires board.Length == 9 && move < 9 && board[move] == Empty && mark != Empty
      modifies board
      ensures board[..] == old(board[..])
      ensures value == Score(old(board[..])[move := mark], maxPlayer)
      decreases multiset(board[..])[Empty], 0
    {
      ghost var b0: Board := board[..];
      board[move] := mark;
      PlacingUsesUpAnEmptyCell(b0, move, mark);
      value := MinMax(board, depth, maxPlayer);
      board[move] := Empty;
      assert board[..] == b0;
    }
  }
}
