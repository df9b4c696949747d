/** The value side of a backgammon board: the two players, a position (24
    signed point counts, the turn, and the barred and offed counters of each
    colour), the unchecked one-step updates the board exposes, its queries,
    and the per-colour checker counts used to state conservation. */
module BoardState {
  import opened Outcome

  datatype Player = White | Black

  const NumPlayablePoints := 24
  const InitCheckerCount := 15

  function Other(pl: Player): Player
  {
    if pl == White then Black else White
  }

  /** The `w` / `b` letter of a player. */
  function StrRepr(pl: Player): (s: string)
    ensures s == "w" || s == "b"
    ensures |s| == 1 && ' ' !in s && '/' !in s && '-' !in s
  {
    if pl == White then "w" else "b"
  }

  /** Reads a player letter; `None` stands for the ValueError raised on anything but `w` and `b`. */
  function PlayerFromStrRepr(s: string): (r: Option<Player>)
    ensures r.Some? <==> s == "w" || s == "b"
  {
    if s != "b" && s != "w" then None
    else if s == "w" then Some(White) else Some(Black)
  }

  /** The letter codec is a bijection between the players and `{"w", "b"}`. */
  lemma StrReprRoundTrip(pl: Player, s: string)
    ensures PlayerFromStrRepr(StrRepr(pl)) == Some(pl)
    ensures PlayerFromStrRepr(s) == Some(pl) ==> StrRepr(pl) == s
  {
  }

  /** Whether a point index lies in a player's home board. */
  predicate IndexInHome(idx: int, pl: Player)
  {
    match pl
    case White => 0 <= idx <= 5
    case Black => 18 <= idx <= 23
  }

  /** The home board as the source lists it: white ascending from 0, black descending from 23. */
  function HomeBoardRange(pl: Player): (r: seq<int>)
    ensures |r| == 6
    ensures forall k :: 0 <= k < |r| ==> IndexInHome(r[k], pl)
    ensures forall i :: IndexInHome(i, pl) ==> i in r
  {
    if pl == White then [0, 1, 2, 3, 4, 5] else [23, 22, 21, 20, 19, 18]
  }

  /** Python list indexing: an index in [-24, 0) counts from the end. */
  function Slot(idx: int): (k: nat)
    requires -NumPlayablePoints <= idx < NumPlayablePoints
    ensures k < NumPlayablePoints
    ensures idx >= 0 ==> k == idx
    ensures idx < 0 ==> k == idx + NumPlayablePoints
  {
    if idx < 0 then idx + NumPlayablePoints else idx
  }

  predicate Indexable(idx: int)
  {
    -NumPlayablePoints <= idx < NumPlayablePoints
  }

  type Points = s: seq<int> | |s| == NumPlayablePoints witness seq(24, _ => 0)

  /** Checkers of `pl` represented by a signed point value. */
  function Own(v: int, pl: Player): nat
  {
    if pl == White && v > 0 then v
    else if pl == Black && v < 0 then -v
    else 0
  }

  datatype Position = Position(
    points: Points,
    turn: Player,
    barredWhite: int,
    barredBlack: int,
    offedWhite: int,
    offedBlack: int)
  {
    function Barred(pl: Player): int
    {
      if pl == White then barredWhite else barredBlack
    }

    function Offed(pl: Player): int
    {
      if pl == White then offedWhite else offedBlack
    }

    /** True when the two positions differ at most in the checker counts of point `k`. */
    predicate SameOutside(r: Position, k: nat)
    {
      && (forall j :: 0 <= j < NumPlayablePoints && j != k ==> r.points[j] == points[j])
      && r.turn == turn
      && r.barredWhite == barredWhite && r.barredBlack == barredBlack
      && r.offedWhite == offedWhite && r.offedBlack == offedBlack
    }

    /** True when the two positions agree on everything but the counters of `pl` named by `offed`. */
    predicate SameExceptCounter(r: Position, pl: Player, offed: bool)
    {
      && r.points == points && r.turn == turn
      && (offed || r.offedWhite == offedWhite) && (offed || r.offedBlack == offedBlack)
      && (!offed || r.barredWhite == barredWhite) && (!offed || r.barredBlack == barredBlack)
      && r.Offed(Other(pl)) == Offed(Other(pl)) && r.Barred(Other(pl)) == Barred(Other(pl))
    }

    function IncOffed(pl: Player): (r: Position)
      ensures r.Offed(pl) == Offed(pl) + 1 && SameExceptCounter(r, pl, true)
    {
      if pl == White then this.(offedWhite := offedWhite + 1) else this.(offedBlack := offedBlack + 1)
    }

    function DecOffed(pl: Player): (r: Position)
      ensures r.Offed(pl) == Offed(pl) - 1 && SameExceptCounter(r, pl, true)
    {
      if pl == White then this.(offedWhite := offedWhite - 1) else this.(offedBlack := offedBlack - 1)
    }

    function IncBarred(pl: Player): (r: Position)
      ensures r.Barred(pl) == Barred(pl) + 1 && SameExceptCounter(r, pl, false)
    {
      if pl == White then this.(barredWhite := barredWhite + 1) else this.(barredBlack := barredBlack + 1)
    }

    function DecBarred(pl: Player): (r: Position)
      ensures r.Barred(pl) == Barred(pl) - 1 && SameExceptCounter(r, pl, false)
    {
      if pl == White then this.(barredWhite := barredWhite - 1) else this.(barredBlack := barredBlack - 1)
    }

    function IncPoint(idx: int): (r: Position)
      requires Indexable(idx)
      ensures r.points[Slot(idx)] == points[Slot(idx)] + 1 && SameOutside(r, Slot(idx))
    {
      this.(points := points[Slot(idx) := points[Slot(idx)] + 1])
    }

    function DecPoint(idx: int): (r: Position)
      requires Indexable(idx)
      ensures r.points[Slot(idx)] == points[Slot(idx)] - 1 && SameOutside(r, Slot(idx))
    {
      this.(points := points[Slot(idx) := points[Slot(idx)] - 1])
    }

    predicate IsEmptyPoint(idx: int)
      requires Indexable(idx)
    {
      points[Slot(idx)] == 0
    }

    predicate IsPointOfColor(idx: int, color: Player)
      requires Indexable(idx)
    {
      (color == White && points[Slot(idx)] > 0) || (color == Black && points[Slot(idx)] < 0)
    }

    /** Number of checkers on a point, whichever colour they are. */
    function NumCheckersAtIndex(idx: int): (n: nat)
      requires Indexable(idx)
      ensures n == 0 <==> IsEmptyPoint(idx)
      ensures n == Own(points[Slot(idx)], White) + Own(points[Slot(idx)], Black)
    {
      if points[Slot(idx)] < 0 then -points[Slot(idx)] else points[Slot(idx)]
    }

    /** Checkers of `pl` on its own six home points plus its borne-off checkers
        make up all fifteen; the opponent's checkers on those points do not count. */
    predicate AllCheckersInHome(pl: Player)
    {
      SumOwn(points, HomeBoardRange(pl), pl) + Offed(pl) == InitCheckerCount
    }
  }

  /** Each mutator is undone by its partner. */
  lemma MutatorsInverse(p: Position, pl: Player, idx: int)
    requires Indexable(idx)
    ensures p.IncOffed(pl).DecOffed(pl) == p && p.DecOffed(pl).IncOffed(pl) == p
    ensures p.IncBarred(pl).DecBarred(pl) == p && p.DecBarred(pl).IncBarred(pl) == p
    ensures p.IncPoint(idx).DecPoint(idx) == p && p.DecPoint(idx).IncPoint(idx) == p
  {
  }

  /** A point is empty, white or black, and exactly one of the three. */
  lemma PointColours(p: Position, idx: int)
    requires Indexable(idx)
    ensures p.IsPointOfColor(idx, White) <==> p.points[Slot(idx)] > 0
    ensures p.IsPointOfColor(idx, Black) <==> p.points[Slot(idx)] < 0
    ensures p.IsEmptyPoint(idx) <==> !p.IsPointOfColor(idx, White) && !p.IsPointOfColor(idx, Black)
    ensures !(p.IsPointOfColor(idx, White) && p.IsPointOfColor(idx, Black))
  {
  }

  // ---- Checker counts ----

  predicate ValidIndices(idxs: seq<int>)
  {
    forall k :: 0 <= k < |idxs| ==> 0 <= idxs[k] < NumPlayablePoints
  }

  /** Checkers of `pl` on the listed points, summed in list order. */
  function SumOwn(pts: Points, idxs: seq<int>, pl: Player): nat
    requires ValidIndices(idxs)
  {
    if |idxs| == 0 then 0
    else SumOwn(pts, idxs[..|idxs| - 1], pl) + Own(pts[idxs[|idxs| - 1]], pl)
  }

  function Range(lo: int, hi: int): (r: seq<int>)
    requires lo <= hi
    ensures |r| == hi - lo
    ensures forall k :: 0 <= k < |r| ==> r[k] == lo + k
  {
    seq(hi - lo, k => lo + k)
  }

  /** The sum over the first `k` points is the sum over the first `k - 1` plus point `k - 1`. */
  lemma SumOwnRangeStep(pts: Points, k: int, pl: Player)
    requires 0 < k <= NumPlayablePoints
    ensures SumOwn(pts, Range(0, k), pl) == SumOwn(pts, Range(0, k - 1), pl) + Own(pts[k - 1], pl)
  {
    assert Range(0, k)[..k - 1] == Range(0, k - 1);
  }

  /** Checkers of `pl` on the 24 points. */
  function OnBoard(pts: Points, pl: Player): nat
  {
    SumOwn(pts, Range(0, NumPlayablePoints), pl)
  }

  /** Checkers of `pl` on the board, on the bar and borne off. */
  function Total(p: Position, pl: Player): int
  {
    OnBoard(p.points, pl) + p.Barred(pl) + p.Offed(pl)
  }

  lemma {:induction false} SumOwnAppend(pts: Points, xs: seq<int>, ys: seq<int>, pl: Player)
    requires ValidIndices(xs) && ValidIndices(ys)
    ensures ValidIndices(xs + ys)
    ensures SumOwn(pts, xs + ys, pl) == SumOwn(pts, xs, pl) + SumOwn(pts, ys, pl)
    decreases |ys|
  {
    if |ys| == 0 {
      assert xs + ys == xs;
    } else {
      var ys' := ys[..|ys| - 1];
      assert (xs + ys)[..|xs + ys| - 1] == xs + ys';
      assert (xs + ys)[|xs + ys| - 1] == ys[|ys| - 1];
      SumOwnAppend(pts, xs, ys', pl);
    }
  }

  /** Changing a point outside the list leaves the sum alone. */
  lemma {:induction false} SumOwnUnaffected(pts: Points, xs: seq<int>, i: nat, v: int, pl: Player)
    requires ValidIndices(xs) && i < NumPlayablePoints && i !in xs
    ensures SumOwn(pts[i := v], xs, pl) == SumOwn(pts, xs, pl)
    decreases |xs|
  {
    if |xs| > 0 {
      SumOwnUnaffected(pts, xs[..|xs| - 1], i, v, pl);
    }
  }

  /** Setting one point to `v` changes the on-board count of each colour by the difference it makes there. */
  lemma OnBoardUpdate(pts: Points, i: nat, v: int, pl: Player)
    requires i < NumPlayablePoints
    ensures OnBoard(pts[i := v], pl) == OnBoard(pts, pl) - Own(pts[i], pl) + Own(v, pl)
  {
    var before, after := Range(0, i), Range(i + 1, NumPlayablePoints);
    assert Range(0, NumPlayablePoints) == before + [i] + after;
    SumOwnAppend(pts, before, [i], pl);
    SumOwnAppend(pts, before + [i], after, pl);
    SumOwnAppend(pts[i := v], before, [i], pl);
    SumOwnAppend(pts[i := v], before + [i], after, pl);
    SumOwnUnaffected(pts, before, i, v, pl);
    SumOwnUnaffected(pts, after, i, v, pl);
    assert SumOwn(pts, [i], pl) == Own(pts[i], pl);
    assert SumOwn(pts[i := v], [i], pl) == Own(v, pl);
  }

  /** Moving the count of one point by one changes each colour's total by what it changes there. */
  lemma TotalPointStep(p: Position, idx: int, pl: Player)
    requires Indexable(idx)
    ensures Total(p.IncPoint(idx), pl)
      == Total(p, pl) - Own(p.points[Slot(idx)], pl) + Own(p.points[Slot(idx)] + 1, pl)
    ensures Total(p.DecPoint(idx), pl)
      == Total(p, pl) - Own(p.points[Slot(idx)], pl) + Own(p.points[Slot(idx)] - 1, pl)
  {
    OnBoardUpdate(p.points, Slot(idx), p.points[Slot(idx)] + 1, pl);
    OnBoardUpdate(p.points, Slot(idx), p.points[Slot(idx)] - 1, pl);
  }

  /** A counter step changes only its own colour's total, by one. */
  lemma TotalCounterStep(p: Position, q: Player, pl: Player)
    ensures Total(p.IncBarred(q), pl) == Total(p, pl) + (if q == pl then 1 else 0)
    ensures Total(p.DecBarred(q), pl) == Total(p, pl) - (if q == pl then 1 else 0)
    ensures Total(p.IncOffed(q), pl) == Total(p, pl) + (if q == pl then 1 else 0)
    ensures Total(p.DecOffed(q), pl) == Total(p, pl) - (if q == pl then 1 else 0)
  {
  }

  /** A sum of non-negative counts is zero exactly when every count is. */
  lemma {:induction false} SumOwnZero(pts: Points, xs: seq<int>, pl: Player)
    requires ValidIndices(xs)
    ensures SumOwn(pts, xs, pl) == 0 <==> forall k :: 0 <= k < |xs| ==> Own(pts[xs[k]], pl) == 0
    decreases |xs|
  {
    if |xs| > 0 {
      SumOwnZero(pts, xs[..|xs| - 1], pl);
    }
  }

  lemma SumOwnSix(pts: Points, xs: seq<int>, pl: Player)
    requires |xs| == 6 && ValidIndices(xs)
    ensures SumOwn(pts, xs, pl)
      == Own(pts[xs[0]], pl) + Own(pts[xs[1]], pl) + Own(pts[xs[2]], pl)
       + Own(pts[xs[3]], pl) + Own(pts[xs[4]], pl) + Own(pts[xs[5]], pl)
  {
    assert xs[..1][..0] == [];
    assert SumOwn(pts, xs[..1], pl) == Own(pts[xs[0]], pl);
    assert xs[..2][..1] == xs[..1];
    assert SumOwn(pts, xs[..2], pl) == SumOwn(pts, xs[..1], pl) + Own(pts[xs[1]], pl);
    assert xs[..3][..2] == xs[..2];
    assert SumOwn(pts, xs[..3], pl) == SumOwn(pts, xs[..2], pl) + Own(pts[xs[2]], pl);
    assert xs[..4][..3] == xs[..3];
    assert SumOwn(pts, xs[..4], pl) == SumOwn(pts, xs[..3], pl) + Own(pts[xs[3]], pl);
    assert xs[..5][..4] == xs[..4];
    assert SumOwn(pts, xs[..5], pl) == SumOwn(pts, xs[..4], pl) + Own(pts[xs[4]], pl);
    assert xs[..5] == xs[..|xs| - 1];
  }

  /** The home sum split off the on-board count, with the remaining points listed. */
  lemma HomeSplit(pts: Points, pl: Player) returns (outside: seq<int>)
    ensures ValidIndices(outside)
    ensures forall i :: 0 <= i < NumPlayablePoints && !IndexInHome(i, pl) ==> i in outside
    ensures forall k :: 0 <= k < |outside| ==> !IndexInHome(outside[k], pl)
    ensures OnBoard(pts, pl) == SumOwn(pts, HomeBoardRange(pl), pl) + SumOwn(pts, outside, pl)
  {
    if pl == White {
      outside := WhiteHomeSplit(pts);
    } else {
      outside := BlackHomeSplit(pts);
    }
  }

  lemma WhiteHomeSplit(pts: Points) returns (outside: seq<int>)
    ensures outside == Range(6, NumPlayablePoints)
    ensures forall i :: 6 <= i < NumPlayablePoints ==> i in outside
    ensures OnBoard(pts, White) == SumOwn(pts, HomeBoardRange(White), White) + SumOwn(pts, outside, White)
  {
    outside := Range(6, NumPlayablePoints);
    forall i | 6 <= i < NumPlayablePoints ensures i in outside {
      assert outside[i - 6] == i;
    }
    assert Range(0, NumPlayablePoints) == HomeBoardRange(White) + outside;
    SumOwnAppend(pts, HomeBoardRange(White), outside, White);
  }

  lemma BlackHomeSplit(pts: Points) returns (outside: seq<int>)
    ensures outside == Range(0, 18)
    ensures forall i :: 0 <= i < 18 ==> i in outside
    ensures OnBoard(pts, Black) == SumOwn(pts, HomeBoardRange(Black), Black) + SumOwn(pts, outside, Black)
  {
    outside := Range(0, 18);
    forall i | 0 <= i < 18 ensures i in outside {
      assert outside[i] == i;
    }
    var home := Range(18, NumPlayablePoints);
    assert Range(0, NumPlayablePoints) == outside + home;
    SumOwnAppend(pts, outside, home, Black);
    SumOwnSix(pts, home, Black);
    SumOwnSix(pts, HomeBoardRange(Black), Black);
  }

  /** With all fifteen checkers of `pl` accounted for and no negative bar count,
      `AllCheckersInHome` says exactly that none of them is on the bar or on a
      point outside the home board. */
  lemma AllCheckersInHomeMeansConfined(p: Position, pl: Player)
    requires Total(p, pl) == InitCheckerCount && p.Barred(pl) >= 0
    ensures p.AllCheckersInHome(pl) <==>
      p.Barred(pl) == 0 &&
      forall i :: 0 <= i < NumPlayablePoints && !IndexInHome(i, pl) ==> Own(p.points[i], pl) == 0
  {
    var outside := HomeSplit(p.points, pl);
    SumOwnZero(p.points, outside, pl);
    if p.Barred(pl) == 0 && SumOwn(p.points, outside, pl) != 0 {
      var k :| 0 <= k < |outside| && Own(p.points[outside[k]], pl) != 0;
      assert !IndexInHome(outside[k], pl);
    }
  }
}
