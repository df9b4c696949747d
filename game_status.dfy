/** The game's status queries on a position: whether the game is over, who
    won, and the state of play for the player to move. */
module GameStatus {
  import opened Outcome
  import opened BoardState
  import opened BoardCodec
  import Moves

  datatype GameState = Normal | BarredPieces | BearOff | Over

  /** Raised when the status query reaches a board method that does not exist
      (the query asks for `all_pieces_in_home`; the board calls it
      `all_checkers_in_home`). */
  datatype StateError = MissingBoardMethod

  /** The game is over once either colour has borne off all fifteen checkers. */
  predicate IsGameOver(p: Position)
  {
    p.offedBlack == InitCheckerCount || p.offedWhite == InitCheckerCount
  }

  /** The winner, black being checked first. */
  function Winner(p: Position): (w: Option<Player>)
    ensures w.Some? <==> IsGameOver(p)
    ensures w.Some? ==> p.Offed(w.value) == InitCheckerCount
    ensures w == Some(White) ==> p.Offed(Black) != InitCheckerCount
  {
    if p.offedBlack == InitCheckerCount then Some(Black)
    else if p.offedWhite == InitCheckerCount then Some(White)
    else None
  }

  /** The state of play for the player to move: over, then checkers on the
      bar, then bearing off, else normal play. As written the bear-off test
      calls a board method that does not exist and raises; the intended test
      is `AllCheckersInHome` for the player to move. */
  function StateForTurn(sem: Moves.Semantics, p: Position): Result<GameState, StateError>
  {
    if IsGameOver(p) then Success(Over)
    else if p.Barred(p.turn) > 0 then Success(BarredPieces)
    else if sem == Moves.AsWritten then Failure(MissingBoardMethod)
    else if p.AllCheckersInHome(p.turn) then Success(BearOff)
    else Success(Normal)
  }

  /** The winner is the colour with all fifteen borne off; when both have
      fifteen, black is named. */
  lemma WinnerCases(p: Position)
    ensures p.offedBlack == InitCheckerCount ==> Winner(p) == Some(Black)
    ensures p.offedBlack != InitCheckerCount && p.offedWhite == InitCheckerCount ==> Winner(p) == Some(White)
  {
  }

  /** As written the query raises exactly when the intended one would answer
      bear-off or normal play, and agrees with it otherwise. */
  lemma StateAsWrittenFails(p: Position)
    ensures StateForTurn(Moves.AsWritten, p).Failure? <==>
      StateForTurn(Moves.Intended, p) in {Success(BearOff), Success(Normal)}
    ensures StateForTurn(Moves.AsWritten, p).Success? ==>
      StateForTurn(Moves.AsWritten, p) == StateForTurn(Moves.Intended, p)
  {
  }

  /** In the opening position the query raises as written, and the intended
      one reports normal play. */
  lemma StartingState(turn: Player)
    ensures StateForTurn(Moves.AsWritten, StartingPosition(turn)) == Failure(MissingBoardMethod)
    ensures StateForTurn(Moves.Intended, StartingPosition(turn)) == Success(Normal)
  {
    var p := StartingPosition(turn);
    if turn == White {
      assert p.points[5] == StartingCount(5);
      WhiteNotHome(p);
    } else {
      assert p.points[18] == StartingCount(18);
      BlackNotHome(p);
    }
  }

  /** Five white checkers on the sixth point and none borne off cannot be all fifteen. */
  lemma WhiteNotHome(p: Position)
    requires p.points[5] == 5 && p.offedWhite == 0
    requires forall k :: 0 <= k < 5 ==> p.points[k] == StartingCount(k)
    ensures !p.AllCheckersInHome(White)
  {
    SumOwnSix(p.points, HomeBoardRange(White), White);
  }

  lemma BlackNotHome(p: Position)
    requires p.points[18] == -5 && p.offedBlack == 0
    requires forall k :: 19 <= k < 24 ==> p.points[k] == StartingCount(k)
    ensures !p.AllCheckersInHome(Black)
  {
    SumOwnSix(p.points, HomeBoardRange(Black), Black);
  }

  /** With fifteen checkers of the player to move accounted for, the intended
      query answers bear-off exactly when the game is not over and none of
      those checkers is on the bar or outside the home board. */
  lemma BearOffMeansConfined(p: Position)
    requires Total(p, p.turn) == InitCheckerCount && p.Barred(p.turn) >= 0
    ensures StateForTurn(Moves.Intended, p) == Success(BearOff) <==>
      && !IsGameOver(p)
      && p.Barred(p.turn) == 0
      && forall i :: 0 <= i < NumPlayablePoints && !IndexInHome(i, p.turn) ==> Own(p.points[i], p.turn) == 0
  {
    AllCheckersInHomeMeansConfined(p, p.turn);
  }

  /** In every position reached from the opening by a roll of legal moves, the
      intended query answers bear-off exactly when the game is not over, the
      player to move has no checker on the bar and none outside the home board. */
  lemma ReachedBearOff(turn: Player, moves: seq<Moves.Move>)
    requires Moves.GoodRoll(Moves.Intended, StartingPosition(turn), moves)
    ensures var q := Moves.ApplyAll(Moves.Intended, StartingPosition(turn), moves);
      StateForTurn(Moves.Intended, q) == Success(BearOff) <==>
        && !IsGameOver(q)
        && q.Barred(q.turn) == 0
        && forall i :: 0 <= i < NumPlayablePoints && !IndexInHome(i, q.turn) ==> Own(q.points[i], q.turn) == 0
  {
    var q := Moves.ApplyAll(Moves.Intended, StartingPosition(turn), moves);
    Moves.StartingRollTotals(turn, moves, q.turn);
    BearOffMeansConfined(q);
  }
}
