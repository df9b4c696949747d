/** How a dice roll becomes the set of candidate move rolls. The search for
    full rolls and the per-die move generator are parameters: `Search` stands
    for the recursive roll search started from an empty roll, `DieMoves` for
    the moves one die allows. The engine ships both as stubs that find
    nothing (`StubSearch`, `StubDieMoves`).

    A move roll is an object without its own equality, so the engine's set
    keeps every roll it is given: the candidates are a multiset. */
module Dice {
  import opened BoardState
  import opened Moves

  /** The rolls found for the position and the dice sequence, in the order the dice are used. */
  type Search = (Position, seq<int>) -> multiset<MoveRoll>

  /** The single moves one die value allows in the position. */
  type DieMoves = (Position, int) -> seq<Move>

  /** The roll search as shipped: it only records a roll once the dice are
      used up, and it is never called with an empty dice sequence. */
  function StubSearch(p: Position, dice: seq<int>): multiset<MoveRoll>
  {
    multiset{}
  }

  /** The per-die move generator as shipped. */
  function StubDieMoves(p: Position, die: int): seq<Move>
  {
    []
  }

  /** `[die] * count`. */
  function Repeat(die: int, count: nat): (r: seq<int>)
    ensures |r| == count && forall k :: 0 <= k < |r| ==> r[k] == die
  {
    seq(count, _ => die)
  }

  /** Doubles: the search with `count` dice, then one die fewer, until some
      rolls are found or no die is left. */
  function Doubles(p: Position, die: int, count: nat, search: Search): multiset<MoveRoll>
  {
    if count == 0 then multiset{}
    else
      var found := search(p, Repeat(die, count));
      if found != multiset{} then found else Doubles(p, die, count - 1, search)
  }

  /** One single-move roll per move. */
  function Singles(moves: seq<Move>): (r: multiset<MoveRoll>)
    ensures |r| == |moves|
  {
    if |moves| == 0 then multiset{}
    else Singles(moves[..|moves| - 1]) + multiset{MoveRoll([moves[|moves| - 1]])}
  }

  /** The single-move rolls are exactly the given moves, each as often as it
      is given (and, by the size, nothing else). */
  lemma {:induction false} SinglesContents(moves: seq<Move>)
    ensures forall m :: Singles(moves)[MoveRoll([m])] == multiset(moves)[m]
    decreases |moves|
  {
    if |moves| > 0 {
      var init, last := moves[..|moves| - 1], moves[|moves| - 1];
      SinglesContents(init);
      assert moves == init + [last];
      forall m ensures Singles(moves)[MoveRoll([m])] == multiset(moves)[m] {
        assert MoveRoll([m]) == MoveRoll([last]) <==> m == last;
      }
    }
  }

  /** The candidate rolls for a dice roll `(d1, d2)`. Doubles try four dice,
      then fewer. Otherwise the larger die is `r1` and the smaller `r2`; the
      search runs for two orders of the dice and, when it finds nothing, the
      single moves of `r1`, failing those of `r2`, are offered. As written
      the first search uses the dice as rolled and the second `(r2, r1)`, so
      with the smaller die rolled first both searches use the same order; the
      intended searches are `(r1, r2)` and `(r2, r1)`. */
  function PossibleMoveRolls(sem: Semantics, p: Position, d1: int, d2: int,
                             search: Search, dieMoves: DieMoves): multiset<MoveRoll>
  {
    var r1, r2 := if d1 < d2 then d2 else d1, if d1 < d2 then d1 else d2;
    if r1 == r2 then Doubles(p, r1, 4, search)
    else
      var first := if sem == AsWritten then [d1, d2] else [r1, r2];
      var found := search(p, first) + search(p, [r2, r1]);
      if found != multiset{} then found
      else if dieMoves(p, r1) != [] then Singles(dieMoves(p, r1))
      else Singles(dieMoves(p, r2))
  }

  /** The doubles search answers with the rolls for the largest number of
      dice, at most `count`, for which any are found, and with nothing when
      none are found for any number of dice. */
  lemma {:induction false} DoublesLargest(p: Position, die: int, count: nat, search: Search) returns (c: nat)
    ensures c <= count
    ensures forall n :: c < n <= count ==> search(p, Repeat(die, n)) == multiset{}
    ensures c == 0 ==> Doubles(p, die, count, search) == multiset{}
    ensures c > 0 ==> Doubles(p, die, count, search) == search(p, Repeat(die, c)) != multiset{}
  {
    if count == 0 {
      c := 0;
    } else if search(p, Repeat(die, count)) != multiset{} {
      c := count;
    } else {
      c := DoublesLargest(p, die, count - 1, search);
    }
  }

  /** With the shipped stubs no dice roll has any candidate roll. */
  lemma StubsFindNothing(sem: Semantics, p: Position, d1: int, d2: int)
    ensures PossibleMoveRolls(sem, p, d1, d2, StubSearch, StubDieMoves) == multiset{}
  {
    if d1 == d2 {
      var c := DoublesLargest(p, d1, 4, StubSearch);
    }
  }

  /** The intended candidates do not depend on which die was rolled first. */
  lemma IntendedIgnoresOrder(p: Position, d1: int, d2: int, search: Search, dieMoves: DieMoves)
    ensures PossibleMoveRolls(Intended, p, d1, d2, search, dieMoves)
         == PossibleMoveRolls(Intended, p, d2, d1, search, dieMoves)
  {
  }

  /** As written, a roll with the larger die first is searched in both
      orders, exactly as intended; with the smaller die first the order that
      starts with the larger die is never searched, and the other one is
      searched twice. */
  lemma AsWrittenOrders(p: Position, d1: int, d2: int, search: Search, dieMoves: DieMoves)
    ensures d1 >= d2 ==> (PossibleMoveRolls(AsWritten, p, d1, d2, search, dieMoves)
                       == PossibleMoveRolls(Intended, p, d1, d2, search, dieMoves))
    ensures d1 < d2 && search(p, [d1, d2]) != multiset{} ==>
      (PossibleMoveRolls(AsWritten, p, d1, d2, search, dieMoves) == search(p, [d1, d2]) + search(p, [d1, d2]))
  {
  }

  /** A search that finds a roll only when the larger die is played first. */
  function LargerFirstOnly(p: Position, dice: seq<int>): multiset<MoveRoll>
  {
    if dice == [2, 1] then multiset{MoveRoll([Move(0, 2, Normal), Move(2, 3, Normal)])} else multiset{}
  }

  /** The same dice rolled as 1-2 and as 2-1 get different candidates as
      written (none at all for 1-2), and the same ones as intended. */
  lemma DiceOrderExample(p: Position)
    ensures PossibleMoveRolls(AsWritten, p, 1, 2, LargerFirstOnly, StubDieMoves) == multiset{}
    ensures PossibleMoveRolls(AsWritten, p, 2, 1, LargerFirstOnly, StubDieMoves) != multiset{}
    ensures PossibleMoveRolls(Intended, p, 1, 2, LargerFirstOnly, StubDieMoves)
         == PossibleMoveRolls(Intended, p, 2, 1, LargerFirstOnly, StubDieMoves) != multiset{}
  {
    assert [1, 2] != [2, 1];
  }
}
