/** The game object: it owns a board and applies, undoes and proposes moves
    on it in place. Each method takes the `Semantics` it runs under:
    `AsWritten` follows the engine's code branch by branch, `Intended`
    takes the repaired branches, and each is proved to leave the board in the
    position the matching function of `Moves`, `GameStatus` or `Dice`
    computes. */
module Game {
  import opened Outcome
  import opened BoardState
  import opened BoardCodec
  import opened Moves
  import GameStatus
  import Dice
  import Board

  /** The position a copy of the game holds. As written the copy takes
      white's borne-off count for black's as well. */
  function Clone(sem: Semantics, p: Position): (c: Position)
    ensures c.points == p.points && c.turn == p.turn && c.Barred(White) == p.Barred(White)
    ensures c.Barred(Black) == p.Barred(Black) && c.Offed(White) == p.Offed(White)
    ensures sem == Intended ==> c == p
    ensures sem == AsWritten ==> c.Offed(Black) == p.Offed(White)
  {
    if sem == AsWritten then p.(offedBlack := p.offedWhite) else p
  }

  /** The copy equals the original exactly when it is the intended copy or
      the two borne-off counts happen to agree. */
  lemma CloneFaithful(sem: Semantics, p: Position)
    ensures Clone(sem, p) == p <==> sem == Intended || p.offedWhite == p.offedBlack
  {
    if sem == AsWritten && p.offedWhite != p.offedBlack {
      assert Clone(sem, p).offedBlack != p.offedBlack;
    }
  }

  class BackgammonGame {
    var board: Board.Board

    /** Builds the game's board around the given point array (not a copy). */
    constructor (points: array<int>, turn: Player, barredWhite: int, barredBlack: int,
                 offedWhite: int, offedBlack: int)
      requires points.Length == NumPlayablePoints
      ensures fresh(board) && board.Valid() && board.points == points
      ensures board.Snapshot() == Position(points[..], turn, barredWhite, barredBlack, offedWhite, offedBlack)
    {
      board := new Board.Board(points, turn, barredWhite, barredBlack, offedWhite, offedBlack);
    }

    /** A game in the opening position, read from the opening board text. */
    static method NewGame(startingPlayer: Player) returns (g: BackgammonGame)
      ensures fresh(g) && fresh(g.board) && g.board.Valid()
      ensures g.board.Snapshot() == StartingPosition(startingPlayer)
    {
      var b := Board.Board.NewBoard(startingPlayer);
      g := new BackgammonGame(b.points, b.turn, b.barredWhite, b.barredBlack, b.offedWhite, b.offedBlack);
    }

    // ---- Status ----

    predicate IsGameOver()
      reads this, board, board.points
      requires board.Valid()
    {
      GameStatus.IsGameOver(board.Snapshot())
    }

    function Winner(): Option<Player>
      reads this, board, board.points
      requires board.Valid()
    {
      GameStatus.Winner(board.Snapshot())
    }

    /** Whether every checker of the player to move is home. As written the
        call names a board method that does not exist and raises. */
    method AllPiecesInHouseForTurn(sem: Semantics) returns (r: Result<bool, GameStatus.StateError>)
      requires board.Valid()
      ensures sem == AsWritten ==> r == Failure(GameStatus.MissingBoardMethod)
      ensures sem == Intended ==> r == Success(board.Snapshot().AllCheckersInHome(board.turn))
    {
      if sem == AsWritten {
        return Failure(GameStatus.MissingBoardMethod);
      }
      var b := board.AllCheckersInHome(board.turn);
      return Success(b);
    }

    method GameStateForCurrentTurn(sem: Semantics) returns (r: Result<GameStatus.GameState, GameStatus.StateError>)
      requires board.Valid()
      ensures r == GameStatus.StateForTurn(sem, board.Snapshot())
    {
      if IsGameOver() {
        return Success(GameStatus.Over);
      }
      if (board.turn == White && board.barredWhite > 0) || (board.turn == Black && board.barredBlack > 0) {
        return Success(GameStatus.BarredPieces);
      }
      var home := AllPiecesInHouseForTurn(sem);
      if home.Failure? {
        return Failure(home.error);
      }
      if home.value {
        return Success(GameStatus.BearOff);
      }
      return Success(GameStatus.Normal);
    }

    // ---- Moves ----

    method ApplyMove(sem: Semantics, mv: Move)
      requires board.Valid() && ApplyIndexed(mv)
      modifies board, board.points
      ensures board == old(board) && board.points == old(board.points) && board.Valid()
      ensures board.Snapshot() == Apply(sem, old(board.Snapshot()), mv)
    {
      var f, t := mv.fromPoint, mv.toPoint;
      match mv.moveType
      case Normal =>
        if board.IsPointOfColor(f, White) {
          board.DecPoint(f);
          board.IncPoint(t);
        } else if sem == AsWritten {
          // the point numbers handed to the barred counters are never white
          board.IncBarred(Black);
          board.DecBarred(Black);
        } else {
          board.IncPoint(f);
          board.DecPoint(t);
        }
      case BearOff =>
        if board.IsPointOfColor(f, White) {
          board.DecPoint(f);
          board.IncOffed(White);
        } else {
          if sem == AsWritten {
            board.IncBarred(Black);
          } else {
            board.IncPoint(f);
          }
          board.IncOffed(Black);
        }
      case BarEntry =>
        if IndexInHome(t, Black) {
          board.DecBarred(White);
          board.IncPoint(t);
        } else {
          board.DecBarred(Black);
          board.DecPoint(t);
        }
      case NormalPutOnBar =>
        if board.IsPointOfColor(f, White) {
          board.DecPoint(f);
          board.IncPoint(t);
          board.IncPoint(t);
          board.IncBarred(Black);
        } else {
          board.IncPoint(f);
          board.DecPoint(t);
          board.DecPoint(t);
          board.IncBarred(White);
        }
      case BarEntryPutOnBar =>
        if IndexInHome(t, Black) {
          board.IncPoint(t);
          board.DecBarred(White);
          board.IncPoint(t);
          board.IncBarred(Black);
        } else {
          board.DecPoint(t);
          board.DecBarred(Black);
          board.DecPoint(t);
          board.IncBarred(White);
        }
    }

    /** Undoes one move; `Some` is the error raised, and then the board is unchanged. */
    method UndoMove(sem: Semantics, mv: Move) returns (err: Option<UndoError>)
      requires board.Valid() && UndoIndexed(mv)
      modifies board, board.points
      ensures board == old(board) && board.points == old(board.points) && board.Valid()
      ensures Undo(sem, old(board.Snapshot()), mv).Success? ==>
        err.None? && board.Snapshot() == Undo(sem, old(board.Snapshot()), mv).value
      ensures Undo(sem, old(board.Snapshot()), mv).Failure? ==>
        err == Some(Undo(sem, old(board.Snapshot()), mv).error) && board.Snapshot() == old(board.Snapshot())
    {
      var f, t := mv.fromPoint, mv.toPoint;
      err := None;
      match mv.moveType
      case Normal =>
        if board.IsPointOfColor(t, White) {
          board.IncPoint(f);
          board.DecPoint(t);
        } else {
          board.DecPoint(f);
          board.IncPoint(t);
        }
      case BearOff =>
        if IndexInHome(f, White) {
          board.IncPoint(f);
          board.DecOffed(White);
        } else if IndexInHome(f, Black) {
          board.DecPoint(f);
          board.DecOffed(Black);
        } else {
          err := Some(BearOffOutsideHome);
        }
      case NormalPutOnBar =>
        if board.IsPointOfColor(t, White) {
          board.IncPoint(f);
          board.DecPoint(t);
          board.DecPoint(t);
          board.DecBarred(Black);
        } else {
          board.DecPoint(f);
          board.IncPoint(t);
          board.IncPoint(t);
          board.DecBarred(White);
        }
      case BarEntryPutOnBar =>
        if board.IsPointOfColor(t, White) {
          board.DecPoint(t);
          board.DecPoint(t);
          board.DecBarred(Black);
          board.IncBarred(White);
        } else {
          board.IncPoint(t);
          board.IncPoint(t);
          board.DecBarred(White);
          board.IncBarred(Black);
        }
      case BarEntry =>
        var white := board.IsPointOfColor(t, White);
        if white == (sem == AsWritten) {
          board.IncPoint(t);
          board.IncBarred(Black);
        } else {
          board.DecPoint(t);
          board.IncBarred(White);
        }
    }

    /** Applies the moves of a roll in order; no roll leaves the game as it is. */
    method ApplyMoveRoll(sem: Semantics, roll: Option<MoveRoll>)
      requires board.Valid() && (roll.Some? ==> AllApplyIndexed(roll.value.moves))
      modifies board, board.points
      ensures board == old(board) && board.points == old(board.points) && board.Valid()
      ensures roll.None? ==> board.Snapshot() == old(board.Snapshot())
      ensures roll.Some? ==> board.Snapshot() == ApplyAll(sem, old(board.Snapshot()), roll.value.moves)
    {
      if roll.None? {
        return;
      }
      var moves := roll.value.moves;
      for i := 0 to |moves|
        invariant board == old(board) && board.points == old(board.points) && board.Valid()
        invariant board.Snapshot() == ApplyAll(sem, old(board.Snapshot()), moves[..i])
      {
        assert moves[..i + 1][..i] == moves[..i];
        ApplyMove(sem, moves[i]);
      }
      assert moves[..|moves|] == moves;
    }

    /** Undoes the moves of a roll from the last to the first, stopping at the
        first error, which is returned. */
    method UndoMoveRoll(sem: Semantics, roll: Option<MoveRoll>) returns (err: Option<UndoError>)
      requires board.Valid() && (roll.Some? ==> AllUndoIndexed(roll.value.moves))
      modifies board, board.points
      ensures board == old(board) && board.points == old(board.points) && board.Valid()
      ensures roll.None? ==> err.None? && board.Snapshot() == old(board.Snapshot())
      ensures roll.Some? ==>
        match UndoAll(sem, old(board.Snapshot()), roll.value.moves)
        case Completed(q) => err.None? && board.Snapshot() == q
        case Raised(e, q) => err == Some(e) && board.Snapshot() == q
    {
      err := None;
      if roll.None? {
        return;
      }
      var moves := roll.value.moves;
      var i := |moves|;
      assert moves[..i] == moves;
      while i > 0
        invariant 0 <= i <= |moves| && err.None?
        invariant board == old(board) && board.points == old(board.points) && board.Valid()
        invariant UndoAll(sem, board.Snapshot(), moves[..i]) == UndoAll(sem, old(board.Snapshot()), moves)
      {
        assert moves[..i][i - 1] == moves[i - 1] && moves[..i][..i - 1] == moves[..i - 1];
        err := UndoMove(sem, moves[i - 1]);
        if err.Some? {
          return;
        }
        i := i - 1;
      }
    }

    /** A new game holding a copy of the board. */
    method CloneGame(sem: Semantics) returns (g: BackgammonGame)
      requires board.Valid()
      ensures fresh(g) && fresh(g.board) && fresh(g.board.points) && g.board.Valid()
      ensures g.board.Snapshot() == Clone(sem, board.Snapshot())
    {
      var pointCopy := new int[NumPlayablePoints];
      forall i | 0 <= i < NumPlayablePoints {
        pointCopy[i] := board.points[i];
      }
      assert pointCopy[..] == board.points[..];
      var offedBlack := if sem == AsWritten then board.offedWhite else board.offedBlack;
      g := new BackgammonGame(pointCopy, board.turn, board.barredWhite, board.barredBlack,
                              board.offedWhite, offedBlack);
    }

    /** The candidate rolls for the dice `(d1, d2)` in the current position. */
    method GetPossibleMoveRolls(sem: Semantics, d1: int, d2: int, search: Dice.Search, dieMoves: Dice.DieMoves)
      returns (moveRolls: multiset<MoveRoll>)
      requires board.Valid()
      ensures moveRolls == Dice.PossibleMoveRolls(sem, board.Snapshot(), d1, d2, search, dieMoves)
    {
      var p := board.Snapshot();
      moveRolls := multiset{};
      var r1, r2 := d1, d2;
      if r1 < r2 {
        r2, r1 := r1, r2;
      }
      if r1 == r2 {
        moveRolls := SearchDoubles(p, r1, search);
      } else {
        var first := if sem == AsWritten then [d1, d2] else [r1, r2];
        moveRolls := SearchSingles(p, first, r1, r2, search, dieMoves);
      }
    }

    /** Searches with the dice in the order `first` and then `(r2, r1)`;
        failing that, offers the single moves of `r1`, then those of `r2`. */
    static method SearchSingles(p: Position, first: seq<int>, r1: int, r2: int,
                                search: Dice.Search, dieMoves: Dice.DieMoves)
      returns (moveRolls: multiset<MoveRoll>)
      ensures search(p, first) + search(p, [r2, r1]) != multiset{} ==>
        moveRolls == search(p, first) + search(p, [r2, r1])
      ensures search(p, first) + search(p, [r2, r1]) == multiset{} && dieMoves(p, r1) != [] ==>
        moveRolls == Dice.Singles(dieMoves(p, r1))
      ensures search(p, first) + search(p, [r2, r1]) == multiset{} && dieMoves(p, r1) == [] ==>
        moveRolls == Dice.Singles(dieMoves(p, r2))
    {
      moveRolls := multiset{};
      moveRolls := moveRolls + search(p, first);
      moveRolls := moveRolls + search(p, [r2, r1]);
      if moveRolls == multiset{} {
        moveRolls := AddSingles(moveRolls, dieMoves(p, r1));
        if moveRolls == multiset{} {
          moveRolls := AddSingles(moveRolls, dieMoves(p, r2));
        }
      }
    }

    /** Searches with four dice of the doubled value, then with fewer, until
        some rolls are found or no die is left. */
    static method SearchDoubles(p: Position, die: int, search: Dice.Search) returns (moveRolls: multiset<MoveRoll>)
      ensures moveRolls == Dice.Doubles(p, die, 4, search)
    {
      moveRolls := multiset{};
      var count := 4;
      while moveRolls == multiset{} && count > 0
        invariant 0 <= count <= 4
        invariant Dice.Doubles(p, die, 4, search)
               == if moveRolls == multiset{} then Dice.Doubles(p, die, count, search) else moveRolls
      {
        moveRolls := moveRolls + search(p, Dice.Repeat(die, count));
        count := count - 1;
      }
    }

    /** Adds one single-move roll per move. */
    static method AddSingles(moveRolls: multiset<MoveRoll>, moves: seq<Move>) returns (r: multiset<MoveRoll>)
      ensures r == moveRolls + Dice.Singles(moves)
    {
      r := moveRolls;
      for k := 0 to |moves|
        invariant r == moveRolls + Dice.Singles(moves[..k])
      {
        assert moves[..k + 1][..k] == moves[..k];
        r := r + multiset{MoveRoll([moves[k]])};
      }
      assert moves[..|moves|] == moves;
    }

    /** Two games are equal when their boards are. */
    function Equals(ot: BackgammonGame): (r: bool)
      reads this, board, board.points, ot, ot.board, ot.board.points
      requires board.Valid() && ot.board.Valid()
      ensures r <==> board.Snapshot() == ot.board.Snapshot()
    {
      board.Equals(ot.board)
    }
  }
}
