# Backgammon position and move engine, modelled in Dafny

This project models the position and move engine of a backgammon program. The engine has two parts.

The first part is the board. It holds 24 signed point counts: a positive count is that many white checkers and a negative count that many black checkers. Next to them sit the player to move and, for each colour, a barred counter and an offed counter. The board offers unchecked one-step updates, colour and home-board queries, and the test for whether all of a player's checkers are home. It also has a text form like chess FEN, for example `1-2-b/6-5-w/... w 0 0 0 0`, with a writer and a parser.

The second part is the game. It has five move kinds. It applies and undoes a move by choosing the moving colour from the board and then calling the board's one-step updates. It applies and undoes whole move rolls, answers game-over, winner and state-of-play queries, copies a game, and turns a dice roll into the set of candidate move rolls.

Modules:

- `Outcome` (`outcome.dfy`): `Option` and `Result`, the optional values and the value-or-raised-error outcomes the other modules return.
- `Text` (`text.dfy`): `str.split`, `str.join`, `str(n)` and `int(s)` on character sequences, with their round trips.
- `BoardState` (`board_state.dfy`): the players, the position value `Position`, the one-step updates as functions, the queries, and per-colour checker counts (`Total`). Python's negative list indices are modelled by `Slot`.
- `BoardCodec` (`board_codec.dfy`): the text form as functions, the decode-after-encode round trip, and the starting position.
- `Board` (`board.dfy`): `class Board` over an `array<int>` of 24 points. Its methods update the array and the counters in place. Each method is specified through `Snapshot()`, the position the object holds.
- `Moves` (`moves.dfy`): moves, `Apply` and `Undo` on positions, legality, the effect table of each kind, conservation, round trips for one move and for a roll, and the places where the written code goes wrong.
- `GameStatus` (`game_status.dfy`): game over, winner and state of play.
- `Dice` (`dice.dfy`): the dice-sequencing rules of `get_possible_move_rolls`.
- `Game` (`game.dfy`): `class BackgammonGame`, which owns a `Board` and applies, undoes, copies and proposes moves on it in place.

The code does three things its own comments say it should not: a black normal move, a black bear-off, and the undo of a bar entry. It also calls a board method that does not exist, copies the wrong counter when cloning, and, when the smaller die is rolled first, never searches the other order. The model therefore carries a `Semantics` parameter:

- `AsWritten` follows the code branch by branch.
- `Intended` takes the repaired branches.

The game methods run under either, and lemmas prove what each does (see "## Findings").

The class queries `Board.IsEmptyPoint`, `Board.IsPointOfColor`, `Board.NumCheckersAtIndex`, `BackgammonGame.IsGameOver` and `BackgammonGame.Winner` are one-line delegations to the position-level members of the same names on the object's `Snapshot()`. Their properties are the rows for `BoardState.PointColours`, `BoardState.Position.NumCheckersAtIndex` and `GameStatus.Winner`, whose contract also characterises `GameStatus.IsGameOver`.

Some consequences of the code as written:

- Apply and undo are not inverses for every move kind as written; see "## Findings".
- Decoding inverts encoding for every board with at least one occupied point. The all-empty board is the exception (`BoardCodec.EmptyBoardUndecodable`).
- `MoveRoll` defines no `__eq__`, so a Python set keeps every roll object it is given; the model renders the candidate rolls as a multiset.
- Undoing a bear-off from a point outside both home boards raises `ValueError`, modelled as the error `BearOffOutsideHome`.

## Model

| member | source | states |
|---|---|---|
| Text.Split | src/backgammon/board.py:199-202 | `s.split(sep)` has at least one part, no part contains the separator, and a single part is the whole string |
| Text.JoinSplit | src/backgammon/board.py:199-202 | joining the parts of a split with the same separator gives the string back, so the parts are exactly the runs between separators |
| Text.SplitJoin | src/backgammon/board.py:165-173 | splitting a join gives the parts back when there is at least one part and none contains the separator |
| Text.IntRoundTrip | src/backgammon/board.py:164 | `int(str(n)) == n` for every integer, as the writer and parser of counts and counters rely on |
| Text.IntStringAvoids | src/backgammon/board.py:164-171 | `str(n)` never holds a space or a slash, and holds no dash when `n >= 0`, so the group and field separators stay unambiguous |
| BoardState.StrRepr | src/backgammon/board.py:17-19 | the letter of a player is one character, `w` or `b`, and no separator |
| BoardState.PlayerFromStrRepr | src/backgammon/board.py:21-28 | reading a letter succeeds exactly for `w` and `b`; any other string is the ValueError case |
| BoardState.StrReprRoundTrip | src/backgammon/board.py:17-28 | the letter codec is a bijection: reading a player's letter gives the player, and a letter that reads as a player is its letter |
| BoardState.HomeBoardRange | src/backgammon/board.py:30-35 | the listed home board has six indices, all in the player's home, and contains every home index, so it agrees with `index_in_home` |
| BoardState.Slot | src/backgammon/board.py:122-126 | a Python index in [-24, 24) names the list slot it reaches, counting negative indices from the end |
| BoardState.Position.IncOffed | src/backgammon/board.py:98-102 | the offed counter of the named colour rises by one and nothing else changes |
| BoardState.Position.DecOffed | src/backgammon/board.py:104-108 | the offed counter of the named colour falls by one and nothing else changes |
| BoardState.Position.IncBarred | src/backgammon/board.py:110-114 | the barred counter of the named colour rises by one and nothing else changes |
| BoardState.Position.DecBarred | src/backgammon/board.py:116-120 | the barred counter of the named colour falls by one and nothing else changes |
| BoardState.Position.IncPoint | src/backgammon/board.py:122-123 | the count at the indexed slot rises by one and every other point and field is unchanged |
| BoardState.Position.DecPoint | src/backgammon/board.py:125-126 | the count at the indexed slot falls by one and every other point and field is unchanged |
| BoardState.Position.NumCheckersAtIndex | src/backgammon/board.py:128-129 | the count is the absolute value of the point, the sum of the white and black checkers there, and zero exactly on an empty point |
| BoardState.MutatorsInverse | src/backgammon/board.py:98-126 | each increment is undone by the matching decrement and the other way round |
| BoardState.PointColours | src/backgammon/board.py:230-236 | a point is white iff its value is positive, black iff negative, empty iff neither, and never both |
| BoardState.AllCheckersInHomeMeansConfined | src/backgammon/board.py:238-248 | with a player's fifteen checkers accounted for and no negative bar count, the home test holds iff none of them is on the bar or on a point outside the home board; opposing checkers on home points are not counted |
| BoardState.TotalPointStep | src/backgammon/board.py:122-126 | a point step changes each colour's checker total by exactly the change in that colour's checkers on that point |
| BoardCodec.GroupsShape | src/backgammon/board.py:153-165 | the point groups contain no space and no slash, and there are none exactly when every point is empty |
| BoardCodec.GroupPlace | src/backgammon/board.py:202-206 | parsing (lines 202-206) the group that the writer at board.py line 164 produces for a non-empty point writes that signed count back to that point |
| BoardCodec.SerializeText | src/backgammon/board.py:165-173 | the text is the slash-joined groups, the turn letter, barred white and black, and offed white and black, separated by single spaces |
| BoardCodec.FillPointsFailureSticks | src/backgammon/board.py:201-206 | once the parsing loop fails on a group it fails with the same error for any longer prefix of the groups |
| BoardCodec.DecodeNeeds | src/backgammon/board.py:192-210 | a text parses only if it has exactly six space-separated fields, every group splits into three dash-separated parts, and the turn is `w` or `b` |
| BoardCodec.RoundTrip | src/backgammon/board.py:138-215 | parsing the text of any position with at least one occupied point gives back the same position, all six fields equal |
| BoardCodec.EmptyBoardUndecodable | src/backgammon/board.py:165-202 | the text of a board with no checker on any point does not parse: its single empty group has one part, not three |
| BoardCodec.StartingBoard | src/backgammon/board.py:47-52 | the starting text is the text of the starting position, and it parses to it: points 0, 5, 7, 11, 12, 16, 18, 23 hold -2, 5, 3, -5, 5, -3, -5, 2 and every counter is 0 |
| BoardCodec.StartingTotals | src/backgammon/board.py:47-52 | the starting position holds fifteen checkers of each colour, all on the points (none barred, none borne off) |
| Board.Board.constructor | src/backgammon/board.py:56-72 | the board keeps the given point array itself and the five given fields |
| Board.Board.IncOffed | src/backgammon/board.py:98-102 | in place: the new position is the old one with the colour's offed counter one higher |
| Board.Board.DecOffed | src/backgammon/board.py:104-108 | in place: the new position is the old one with the colour's offed counter one lower |
| Board.Board.IncBarred | src/backgammon/board.py:110-114 | in place: the new position is the old one with the colour's barred counter one higher |
| Board.Board.DecBarred | src/backgammon/board.py:116-120 | in place: the new position is the old one with the colour's barred counter one lower |
| Board.Board.IncPoint | src/backgammon/board.py:122-123 | in place on the array: the new position has the indexed point one higher |
| Board.Board.DecPoint | src/backgammon/board.py:125-126 | in place on the array: the new position has the indexed point one lower |
| Board.Board.AllCheckersInHome | src/backgammon/board.py:238-248 | the counting loop answers exactly the home test of the position: own checkers on the six home points plus offed equal fifteen |
| Board.Board.SerializeBoard | src/backgammon/board.py:138-173 | the loop builds exactly the text of the board's position |
| Board.Board.FromString | src/backgammon/board.py:175-215 | parsing returns a fresh board holding the decoded position exactly when decoding succeeds, and the decoding error otherwise |
| Board.Board.PlaceGroup | src/backgammon/board.py:202-206 | one pass of the parsing loop updates the array as the placing step says, or reports its error |
| Board.Board.NewBoard | src/backgammon/board.py:217-228 | a new board, read from the starting text, holds the starting position with the given player to move |
| Board.Board.Equals | src/backgammon/board.py:250-258 | two boards are equal iff they hold the same position: points, turn and all four counters |
| Moves.ApplyEffect | src/backgammon/backgammon_game.py:261-337 | each kind, applied as intended, changes exactly this for the moving colour (white iff the start point is white, or for a bar entry iff the destination is on black's home board): a normal move takes one checker from `from` and adds one at `to`; a hit moves the count at `to` two towards the mover (the opposing checker leaves, one of the mover's arrives) and raises the opponent's barred counter by one; a bar entry takes one from the mover's bar and adds one at `to`; a bear-off takes one from `from` and adds one to the offed counter. Nothing else changes |
| Moves.ApplyAgrees | src/backgammon/backgammon_game.py:267-288 | the written application equals the intended one exactly for white normal moves and bear-offs, both hit kinds, bar entries, and black normal moves whose start and end slots coincide |
| Moves.UndoAgrees | src/backgammon/backgammon_game.py:339-410 | the written undo equals the intended one for every kind except the bar entry, where it always differs |
| Moves.Conservation | src/backgammon/backgammon_game.py:261-337 | a legal move, applied as intended (and as written on the branches the code gets right), keeps each colour's count of checkers on the board, on the bar and borne off |
| Moves.RoundTrip | src/backgammon/backgammon_game.py:261-410 | undoing a legal move right after applying it restores the position exactly, all fields, for the intended semantics and for the written one on the branches the code gets right |
| Moves.BlackNormalAsWritten | src/backgammon/backgammon_game.py:273-277 | as written, a legal black normal move leaves the position unchanged, and undoing it then does not restore the position when the start and end slots differ |
| Moves.BlackNormalExample | src/backgammon/backgammon_game.py:267-277 | taking a black checker from point index 11 to 17 in the opening position leaves the position unchanged as written, while the intended move leaves -4 and -1 on those points |
| Moves.BlackBearOffAsWritten | src/backgammon/backgammon_game.py:284-288 | as written, a black bear-off keeps every point, raises black's barred and offed counters by one each, so black gains two checkers and white's total is unchanged |
| Moves.BarEntryUndoAsWritten | src/backgammon/backgammon_game.py:400-410 | as written, undoing a legal bar entry succeeds but leaves each colour with one checker more than before the move |
| Moves.RollRoundTrip | src/backgammon/backgammon_game.py:180-195 | undoing the moves of a roll in reverse order completes without error and restores the position when each move is a good step from the position the earlier ones reach |
| Moves.RollConservation | src/backgammon/backgammon_game.py:180-185 | applying a roll of good steps keeps each colour's checker count |
| Moves.StartingRollTotals | src/backgammon/backgammon_game.py:180-185 | every position reached from the opening by a roll of legal moves, applied as intended, holds fifteen checkers of each colour on the points, the bar and off, and no negative bar count, so both hypotheses of `BearOffMeansConfined` hold there |
| Moves.BarredNonNegative | src/backgammon/backgammon_game.py:261-337 | a legal move, applied as intended, keeps both bar counts non-negative: only a bar entry takes a checker off the bar, and it needs one there |
| Moves.RollBarredNonNegative | src/backgammon/backgammon_game.py:180-185 | a roll of legal moves, applied as intended, keeps both bar counts non-negative |
| GameStatus.Winner | src/backgammon/backgammon_game.py:99-105 | there is a winner iff the game is over, and the winner has borne off fifteen checkers; white is named only when black has not borne off fifteen |
| GameStatus.WinnerCases | src/backgammon/backgammon_game.py:99-105 | black wins whenever black has fifteen off, even if white also has; otherwise white wins when white has fifteen off |
| GameStatus.StateAsWrittenFails | src/backgammon/backgammon_game.py:108-118 | as written the state query raises exactly when the intended query would answer bear-off or normal play, and otherwise gives the same answer (over before barred pieces) |
| GameStatus.StartingState | src/backgammon/backgammon_game.py:412-419 | in the opening position the written query raises and the intended one answers normal play |
| GameStatus.BearOffMeansConfined | src/backgammon/backgammon_game.py:108-118 | with the mover's fifteen checkers accounted for and no negative bar count, the intended query answers bear-off iff the game is not over, the mover has none on the bar, and none outside the home board |
| GameStatus.ReachedBearOff | src/backgammon/backgammon_game.py:108-118 | in every position reached from the opening by a roll of legal moves, the intended query answers bear-off iff the game is not over, the player to move has none on the bar and none outside the home board |
| Dice.Repeat | src/backgammon/backgammon_game.py:154-158 | `[die] * count` has `count` entries, all equal to the die |
| Dice.Singles | src/backgammon/backgammon_game.py:164-176 | one single-move roll is offered per move |
| Dice.SinglesContents | src/backgammon/backgammon_game.py:164-176 | the single-move rolls are exactly the given moves, each as many times as it is given |
| Dice.DoublesLargest | src/backgammon/backgammon_game.py:154-159 | a double answers the rolls found for the largest number of dice, four at most, for which any are found, and nothing when none are found for any number |
| Dice.StubsFindNothing | src/backgammon/backgammon_game.py:244-259 | with the shipped search stubs every dice roll has no candidate roll at all |
| Dice.IntendedIgnoresOrder | src/backgammon/backgammon_game.py:148-164 | the intended candidates for `(d1, d2)` and `(d2, d1)` are the same |
| Dice.AsWrittenOrders | src/backgammon/backgammon_game.py:148-164 | as written, a roll with the larger die first gets the intended candidates; with the smaller die first, a successful search in that order is counted twice and the other order is never searched |
| Dice.DiceOrderExample | src/backgammon/backgammon_game.py:148-164 | with a search that only finds rolls starting with the larger die, the roll 1-2 gets no candidates as written while 2-1 does; as intended both get the same non-empty set |
| Game.Clone | src/backgammon/backgammon_game.py:200-213 | the copy has the same points, turn, barred counters and white offed counter; as written black's offed counter is white's; the intended copy equals the original |
| Game.CloneFaithful | src/backgammon/backgammon_game.py:200-213 | the copy equals the original iff it is the intended copy or both offed counters are equal |
| Game.BackgammonGame.constructor | src/backgammon/backgammon_game.py:61-77 | the game owns a fresh board around the given point array holding the given fields |
| Game.BackgammonGame.NewGame | src/backgammon/backgammon_game.py:216-242 | a new game's board holds the starting position with the given player to move |
| Game.BackgammonGame.AllPiecesInHouseForTurn | src/backgammon/backgammon_game.py:412-419 | as written the call raises on the missing board method; as intended it answers the home test for the player to move |
| Game.BackgammonGame.GameStateForCurrentTurn | src/backgammon/backgammon_game.py:108-118 | the state query answers what `StateForTurn` defines for the board's position under the chosen semantics |
| Game.BackgammonGame.ApplyMove | src/backgammon/backgammon_game.py:261-337 | the one-step calls leave the board, in place, in the position `Apply` defines for the old position |
| Game.BackgammonGame.UndoMove | src/backgammon/backgammon_game.py:339-410 | the one-step calls leave the board in the position `Undo` defines; on a bear-off outside both home boards the error is returned and the board is unchanged |
| Game.BackgammonGame.ApplyMoveRoll | src/backgammon/backgammon_game.py:180-185 | no roll leaves the board as it was; otherwise the moves are applied in order, giving `ApplyAll` of the old position |
| Game.BackgammonGame.UndoMoveRoll | src/backgammon/backgammon_game.py:187-195 | no roll leaves the board as it was; otherwise the moves are undone last first, ending where `UndoAll` says, and at the first error that error is returned with the earlier undos kept |
| Game.BackgammonGame.CloneGame | src/backgammon/backgammon_game.py:200-213 | the copy is a fresh game with a fresh point array, holding `Clone` of the position |
| Game.BackgammonGame.GetPossibleMoveRolls | src/backgammon/backgammon_game.py:148-178 | the loop-and-fallback code returns exactly the candidates `PossibleMoveRolls` defines for the board's position |
| Game.BackgammonGame.SearchDoubles | src/backgammon/backgammon_game.py:154-159 | the doubles loop returns exactly the doubles candidates for four dice |
| Game.BackgammonGame.SearchSingles | src/backgammon/backgammon_game.py:160-176 | two searches, then the single moves of `r1`, then those of `r2`, each only when nothing was found before |
| Game.BackgammonGame.AddSingles | src/backgammon/backgammon_game.py:169-176 | the loop adds one single-move roll per move to the set |
| Game.BackgammonGame.Equals | src/backgammon/backgammon_game.py:421-426 | two games are equal iff their boards hold the same position |

## Left out

- The agents and the learning models are not part of this model. They choose moves by random choice, console input or neural-network scores, with floating point and file I/O.
- `play`, `play_turn` and `roll_die` are not modelled: they are a random turn loop that calls the agents. The dice are plain integers here. As written `roll_die` can roll a 0, and nothing in the model excludes it.
- The roll search and per-die move generation are parameters (`Dice.Search`, `Dice.DieMoves`). The shipped stubs are `Dice.StubSearch` and `Dice.StubDieMoves`; no search strategy or legality rule is invented.
- `Dice.Search` cannot see the set it adds to. The shipped helper could in principle read it.
- `Dice.Search` and `Dice.DieMoves` are pure functions of the position. The model therefore takes the board to be unchanged between the two non-double searches and across the doubles loop; the source does not promise this of its search helpers.
- `Player.get_token` and the `__str__` methods are display only.
- Game equality ignores the agents, which are outside the model.
- `new_board` and `new_game` take the starting player's colour rather than an agent or an arbitrary object. Anything other than white selects black in the source.
- The board's one-step updates take a `Player`. Where the game passes a point number instead, the call is modelled by its effect: the black counter.
- `int()` is modelled as an optional sign followed by ASCII digits. Surrounding whitespace, digit-group underscores and non-ASCII digits, which Python also accepts, are not modelled.
- Indexing outside [-24, 24) raises `IndexError` in Python. The parser models it (`PointOutOfRange`); for moves it is excluded by `ApplyIndexed` and `UndoIndexed`, so a move with such an index is not modelled. The point updates and queries (`Position.IncPoint`, `DecPoint`, `IsEmptyPoint`, `IsPointOfColor`, `NumCheckersAtIndex` and the `Board` methods of the same names) likewise require `Indexable(idx)`, so the `IndexError` they raise for other indices is not modelled.
- An error raised in the middle of `undo_move_roll` keeps the undos already done. The model captures this (`Raised`), but the raise itself is modelled as a returned value.
- Moves.Conservation: stated for legal moves (`Legal`) only. The source makes no promise for moves that take a checker from an empty point or land on a blocked one.
- Moves.RoundTrip: stated for legal moves only, for the same reason.
- Points are unbounded integers, because the source bounds nothing: no check limits a point to fifteen checkers.

## Findings

| source | as written | input that shows it | evidently intended | confidence | as-written member | corrected member |
|---|---|---|---|---|---|---|
| src/backgammon/backgammon_game.py:273-277 | a black normal move calls `inc_barred(from)` and `dec_barred(to)` with point numbers, which both reach the black barred counter and cancel | the opening position, black moves index 11 to 17: nothing changes | `inc_point(from)`, `dec_point(to)` | high, not executed | Moves.BlackNormalAsWritten | Moves.RoundTrip |
| src/backgammon/backgammon_game.py:284-288 | a black bear-off calls `inc_barred(from)` and `inc_offed(BLACK)` | any black bear-off: black's checker total rises by two | `inc_point(from)`, `inc_offed(BLACK)` | high, not executed | Moves.BlackBearOffAsWritten | Moves.Conservation |
| src/backgammon/backgammon_game.py:400-410 | undoing a bar entry onto a white point adds a white checker and bars a black one (and the mirror for black) | any legal bar entry then its undo: each colour ends with one checker too many | remove the mover's checker from the point and return it to the mover's bar | high, not executed | Moves.BarEntryUndoAsWritten | Moves.RoundTrip |
| src/backgammon/backgammon_game.py:417-419 | the state query calls `all_pieces_in_home`, which the board does not define | the opening position: the query raises | call `all_checkers_in_home` (src/backgammon/board.py:238) | high, not executed | GameStatus.StartingState | GameStatus.BearOffMeansConfined |
| src/backgammon/backgammon_game.py:200-213 | the copy passes white's offed count as black's | a position with 3 white and 0 black checkers off: the copy has 3 black off | pass `offed.black` | high, not executed | Game.CloneFaithful | Game.Clone |
| src/backgammon/backgammon_game.py:160-164 | the first search uses the dice as rolled, and the second uses `(r2, r1)`; with the smaller die first both searches use the same order | dice 1-2 with rolls only playable larger die first: no candidates | search `(r1, r2)` and `(r2, r1)` | medium, not executed | Dice.DiceOrderExample | Dice.IntendedIgnoresOrder |
