/** The text form of a position: `/`-separated `point-count-side` groups for
    the non-empty points (1-based point numbers, positive counts), then the
    turn letter, the barred counts (white, black) and the offed counts (white,
    black), all separated by single spaces. */
module BoardCodec {
  import opened Outcome
  import opened Text
  import opened BoardState

  /** Why a text does not decode: the ValueError and IndexError cases of the parser. */
  datatype FormatError =
    | WrongFieldCount   // not exactly six space-separated fields
    | MalformedGroup    // a group does not split into three `-` parts
    | NotAnInteger      // a point, a count or a counter is not an integer
    | PointOutOfRange   // a point number indexes outside the 24 points
    | UnknownTurn       // the turn is neither `w` nor `b`

  // ---- Encoding ----

  /** The group of a non-empty point: its 1-based number, the checker count and the colour letter. */
  function Group(idx: nat, v: int): string
    requires v != 0
  {
    var count := if v < 0 then -v else v;
    var side := if v < 0 then StrRepr(Black) else StrRepr(White);
    IntToString(idx + 1) + "-" + IntToString(count) + "-" + side
  }

  /** Groups of the non-empty points among the first `n`, in ascending point order. */
  function Groups(pts: Points, n: nat): seq<string>
    requires n <= NumPlayablePoints
  {
    if n == 0 then []
    else Groups(pts, n - 1) + (if pts[n - 1] == 0 then [] else [Group(n - 1, pts[n - 1])])
  }

  function Serialize(p: Position): string
  {
    Join([Join(Groups(p.points, NumPlayablePoints), '/'),
          StrRepr(p.turn),
          IntToString(p.barredWhite) + " " + IntToString(p.barredBlack),
          IntToString(p.offedWhite) + " " + IntToString(p.offedBlack)], ' ')
  }

  // ---- Decoding ----

  function EmptyPoints(): Points
  {
    seq(NumPlayablePoints, _ => 0)
  }

  /** One pass of the decoding loop: split a group and write its signed count at its point.
      The count is read before the point; a side other than `w` means black. */
  function Place(pts: Points, group: string): Result<Points, FormatError>
  {
    var parts := Split(group, '-');
    if |parts| != 3 then Failure(MalformedGroup)
    else
      match ParseInt(parts[1])
      case None => Failure(NotAnInteger)
      case Some(count) =>
        match ParseInt(parts[0])
        case None => Failure(NotAnInteger)
        case Some(point) =>
          if !Indexable(point - 1) then Failure(PointOutOfRange)
          else Success(pts[Slot(point - 1) := if parts[2] == "w" then count else -count])
  }

  /** The decoding loop over the groups, stopping at the first failing one. */
  function FillPoints(groups: seq<string>): Result<Points, FormatError>
  {
    if |groups| == 0 then Success(EmptyPoints())
    else
      match FillPoints(groups[..|groups| - 1])
      case Failure(e) => Failure(e)
      case Success(pts) => Place(pts, groups[|groups| - 1])
  }

  function Decode(s: string): Result<Position, FormatError>
  {
    var fields := Split(s, ' ');
    if |fields| != 6 then Failure(WrongFieldCount)
    else
      match FillPoints(Split(fields[0], '/'))
      case Failure(e) => Failure(e)
      case Success(pts) =>
        match PlayerFromStrRepr(fields[1])
        case None => Failure(UnknownTurn)
        case Some(turn) =>
          var bw, bb, ow, ob := ParseInt(fields[2]), ParseInt(fields[3]), ParseInt(fields[4]), ParseInt(fields[5]);
          if bw.None? || bb.None? || ow.None? || ob.None? then Failure(NotAnInteger)
          else Success(Position(pts, turn, bw.value, bb.value, ow.value, ob.value))
  }

  // ---- Properties ----

  /** Once the decoding loop fails on a prefix of the groups it fails the same way on every longer prefix. */
  lemma {:induction false} FillPointsFailureSticks(groups: seq<string>, i: nat, j: nat)
    requires i <= j <= |groups|
    requires FillPoints(groups[..i]).Failure?
    ensures FillPoints(groups[..j]) == FillPoints(groups[..i])
    decreases j
  {
    if j > i {
      FillPointsFailureSticks(groups, i, j - 1);
      assert groups[..j][..j - 1] == groups[..j - 1];
    }
  }

  /** The decoding loop succeeds only if every group splits into exactly three parts. */
  lemma {:induction false} FillPointsNeedsTriple(groups: seq<string>, k: nat)
    requires FillPoints(groups).Success? && k < |groups|
    ensures |Split(groups[k], '-')| == 3
    decreases |groups|
  {
    var init := groups[..|groups| - 1];
    FillPointsLast(groups);
    if k == |groups| - 1 {
      PlaceNeedsTriple(FillPoints(init).value, groups[k]);
    } else {
      FillPointsNeedsTriple(init, k);
      assert init[k] == groups[k];
    }
  }

  lemma FillPointsLast(groups: seq<string>)
    requires |groups| > 0 && FillPoints(groups).Success?
    ensures FillPoints(groups[..|groups| - 1]).Success?
    ensures Place(FillPoints(groups[..|groups| - 1]).value, groups[|groups| - 1]).Success?
  {
  }

  lemma PlaceNeedsTriple(q: Points, g: string)
    requires Place(q, g).Success?
    ensures |Split(g, '-')| == 3
  {
  }

  /** A text decodes only if it has exactly six fields, every group has three
      parts, and the turn is `w` or `b`. */
  lemma DecodeNeeds(s: string)
    requires Decode(s).Success?
    ensures |Split(s, ' ')| == 6
    ensures forall g :: g in Split(Split(s, ' ')[0], '/') ==> |Split(g, '-')| == 3
    ensures PlayerFromStrRepr(Split(s, ' ')[1]).Some?
  {
    var groups := Split(Split(s, ' ')[0], '/');
    forall g | g in groups
      ensures |Split(g, '-')| == 3
    {
      var k :| 0 <= k < |groups| && groups[k] == g;
      FillPointsNeedsTriple(groups, k);
    }
  }

  lemma GroupAvoids(idx: nat, v: int)
    requires v != 0
    ensures ' ' !in Group(idx, v) && '/' !in Group(idx, v)
  {
    IntStringAvoids(idx + 1);
    IntStringAvoids(if v < 0 then -v else v);
  }

  /** A group is its three dash-separated parts. */
  lemma GroupParts(idx: nat, v: int)
    requires v != 0
    ensures Group(idx, v) == Join([IntToString(idx + 1), IntToString(if v < 0 then -v else v),
                                   if v < 0 then StrRepr(Black) else StrRepr(White)], '-')
  {
    var a, b := IntToString(idx + 1), IntToString(if v < 0 then -v else v);
    var side := if v < 0 then StrRepr(Black) else StrRepr(White);
    JoinCons(b, [side], '-');
    JoinCons(a, [b, side], '-');
    assert [a] + [b, side] == [a, b, side] && [b] + [side] == [b, side];
  }

  /** Writing a group back with the decoding step restores the point it came from. */
  lemma GroupPlace(q: Points, idx: nat, v: int)
    requires idx < NumPlayablePoints && v != 0
    ensures Place(q, Group(idx, v)) == Success(q[idx := v])
  {
    var count := if v < 0 then -v else v;
    var side := if v < 0 then StrRepr(Black) else StrRepr(White);
    var a, b := IntToString(idx + 1), IntToString(count);
    IntStringAvoids(idx + 1);
    IntStringAvoids(count);
    GroupParts(idx, v);
    SplitJoin([a, b, side], '-');
    IntRoundTrip(idx + 1);
    IntRoundTrip(count);
  }

  function Prefix(pts: Points, n: nat): Points
  {
    seq(NumPlayablePoints, k requires 0 <= k < NumPlayablePoints => if k < n then pts[k] else 0)
  }

  /** The groups hold no space and no slash, and there are none exactly when the points are all empty. */
  lemma GroupsShape(pts: Points, n: nat)
    requires n <= NumPlayablePoints
    ensures forall k :: 0 <= k < |Groups(pts, n)| ==> ' ' !in Groups(pts, n)[k] && '/' !in Groups(pts, n)[k]
    ensures |Groups(pts, n)| == 0 <==> forall i :: 0 <= i < n ==> pts[i] == 0
  {
    GroupsAvoid(pts, n);
    GroupsEmpty(pts, n);
  }

  lemma {:induction false} GroupsAvoid(pts: Points, n: nat)
    requires n <= NumPlayablePoints
    ensures forall k :: 0 <= k < |Groups(pts, n)| ==> ' ' !in Groups(pts, n)[k] && '/' !in Groups(pts, n)[k]
  {
    if n > 0 {
      GroupsAvoid(pts, n - 1);
      if pts[n - 1] != 0 {
        GroupAvoids(n - 1, pts[n - 1]);
        GroupsSnoc(pts, n);
      } else {
        GroupsSkipOne(pts, n);
      }
    }
  }

  lemma {:induction false} GroupsEmpty(pts: Points, n: nat)
    requires n <= NumPlayablePoints
    ensures |Groups(pts, n)| == 0 <==> forall i :: 0 <= i < n ==> pts[i] == 0
  {
    if n > 0 {
      GroupsEmpty(pts, n - 1);
      if pts[n - 1] != 0 {
        GroupsSnoc(pts, n);
      } else {
        GroupsSkipOne(pts, n);
      }
    }
  }

  /** An empty point appends nothing. */
  lemma GroupsSkipOne(pts: Points, n: nat)
    requires 0 < n <= NumPlayablePoints && pts[n - 1] == 0
    ensures Groups(pts, n) == Groups(pts, n - 1)
  {
    assert Groups(pts, n) == Groups(pts, n - 1) + [];
  }

  /** An occupied point appends its group. */
  lemma GroupsSnoc(pts: Points, n: nat)
    requires 0 < n <= NumPlayablePoints && pts[n - 1] != 0
    ensures Groups(pts, n) == Groups(pts, n - 1) + [Group(n - 1, pts[n - 1])]
  {
  }

  /** Decoding the groups of the first `n` points rebuilds those points and leaves the rest empty. */
  lemma {:induction false} GroupsFill(pts: Points, n: nat)
    requires n <= NumPlayablePoints
    ensures FillPoints(Groups(pts, n)) == Success(Prefix(pts, n))
  {
    if n == 0 {
      PrefixEmpty(pts);
    } else {
      GroupsFill(pts, n - 1);
      if pts[n - 1] == 0 {
        GroupsFillSkip(pts, n);
      } else {
        GroupsFillStep(pts, n);
      }
    }
  }

  /** An empty point adds no group and leaves the prefix unchanged. */
  lemma GroupsFillSkip(pts: Points, n: nat)
    requires 0 < n <= NumPlayablePoints && pts[n - 1] == 0
    requires FillPoints(Groups(pts, n - 1)) == Success(Prefix(pts, n - 1))
    ensures FillPoints(Groups(pts, n)) == Success(Prefix(pts, n))
  {
    GroupsSkipOne(pts, n);
    PrefixSkip(pts, n);
  }

  /** One occupied point: its group, placed on the earlier points, adds that point. */
  lemma GroupsFillStep(pts: Points, n: nat)
    requires 0 < n <= NumPlayablePoints && pts[n - 1] != 0
    requires FillPoints(Groups(pts, n - 1)) == Success(Prefix(pts, n - 1))
    ensures FillPoints(Groups(pts, n)) == Success(Prefix(pts, n))
  {
    GroupsSnoc(pts, n);
    FillPointsSnoc(Groups(pts, n - 1), Group(n - 1, pts[n - 1]), Prefix(pts, n - 1));
    PrefixPlace(pts, n);
  }

  lemma PrefixPlace(pts: Points, n: nat)
    requires 0 < n <= NumPlayablePoints && pts[n - 1] != 0
    ensures Place(Prefix(pts, n - 1), Group(n - 1, pts[n - 1])) == Success(Prefix(pts, n))
  {
    GroupPlace(Prefix(pts, n - 1), n - 1, pts[n - 1]);
    PrefixStep(pts, n);
  }

  /** The decoding loop over one more group is one more placing step. */
  lemma FillPointsSnoc(gs: seq<string>, g: string, q: Points)
    requires FillPoints(gs) == Success(q)
    ensures FillPoints(gs + [g]) == Place(q, g)
  {
    assert (gs + [g])[..|gs|] == gs;
  }

  lemma PrefixEmpty(pts: Points)
    ensures Prefix(pts, 0) == EmptyPoints()
  {
  }

  lemma PrefixSkip(pts: Points, n: nat)
    requires 0 < n <= NumPlayablePoints && pts[n - 1] == 0
    ensures Prefix(pts, n) == Prefix(pts, n - 1)
  {
  }

  lemma PrefixStep(pts: Points, n: nat)
    requires 0 < n <= NumPlayablePoints
    ensures Prefix(pts, n - 1)[n - 1 := pts[n - 1]] == Prefix(pts, n)
  {
  }

  lemma JoinSix(a: string, b: string, c: string, d: string, e: string, f: string)
    ensures Join([a, b, c + " " + d, e + " " + f], ' ') == Join([a, b, c, d, e, f], ' ')
  {
    var cd, ef := c + " " + d, e + " " + f;
    JoinCons(e, [f], ' ');
    JoinCons(d, [e, f], ' ');
    JoinCons(c, [d, e, f], ' ');
    JoinCons(b, [c, d, e, f], ' ');
    JoinCons(a, [b, c, d, e, f], ' ');
    assert [e] + [f] == [e, f] && [d] + [e, f] == [d, e, f] && [c] + [d, e, f] == [c, d, e, f];
    assert [b] + [c, d, e, f] == [b, c, d, e, f] && [a] + [b, c, d, e, f] == [a, b, c, d, e, f];
    JoinCons(cd, [ef], ' ');
    JoinCons(b, [cd, ef], ' ');
    JoinCons(a, [b, cd, ef], ' ');
    assert [cd] + [ef] == [cd, ef] && [b] + [cd, ef] == [b, cd, ef] && [a] + [b, cd, ef] == [a, b, cd, ef];
  }

  /** The six space-separated fields of a position's text. */
  function Fields(p: Position): seq<string>
  {
    [Join(Groups(p.points, NumPlayablePoints), '/'), StrRepr(p.turn),
     IntToString(p.barredWhite), IntToString(p.barredBlack),
     IntToString(p.offedWhite), IntToString(p.offedBlack)]
  }

  lemma SerializeFields(p: Position)
    ensures Split(Serialize(p), ' ') == Fields(p)
  {
    var groups := Groups(p.points, NumPlayablePoints);
    GroupsShape(p.points, NumPlayablePoints);
    JoinAvoids(groups, '/', ' ');
    IntStringAvoids(p.barredWhite);
    IntStringAvoids(p.barredBlack);
    IntStringAvoids(p.offedWhite);
    IntStringAvoids(p.offedBlack);
    var fields := Fields(p);
    JoinSix(fields[0], fields[1], fields[2], fields[3], fields[4], fields[5]);
    SplitJoin(fields, ' ');
  }

  /** What `Decode` does with the six fields of a position. */
  lemma DecodeFields(s: string, p: Position)
    requires Split(s, ' ') == Fields(p)
    requires FillPoints(Split(Fields(p)[0], '/')) == Success(p.points)
    ensures Decode(s) == Success(p)
  {
    IntRoundTrip(p.barredWhite);
    IntRoundTrip(p.barredBlack);
    IntRoundTrip(p.offedWhite);
    IntRoundTrip(p.offedBlack);
    StrReprRoundTrip(p.turn, StrRepr(p.turn));
    var f := Fields(p);
    DecodeSix(s, f[0], f[1], f[2], f[3], f[4], f[5], p);
  }

  /** `Decode` on six fields that each read back as the matching part of `p`. */
  lemma DecodeSix(s: string, g: string, t: string, bw: string, bb: string, ow: string, ob: string, p: Position)
    requires Split(s, ' ') == [g, t, bw, bb, ow, ob]
    requires FillPoints(Split(g, '/')) == Success(p.points)
    requires PlayerFromStrRepr(t) == Some(p.turn)
    requires ParseInt(bw) == Some(p.barredWhite) && ParseInt(bb) == Some(p.barredBlack)
    requires ParseInt(ow) == Some(p.offedWhite) && ParseInt(ob) == Some(p.offedBlack)
    ensures Decode(s) == Success(p)
  {
  }

  /** The groups of a board with an occupied point decode back to its points. */
  lemma GroupsRoundTrip(pts: Points)
    requires exists i :: 0 <= i < NumPlayablePoints && pts[i] != 0
    ensures FillPoints(Split(Join(Groups(pts, NumPlayablePoints), '/'), '/')) == Success(pts)
  {
    GroupsShape(pts, NumPlayablePoints);
    SplitJoin(Groups(pts, NumPlayablePoints), '/');
    GroupsFill(pts, NumPlayablePoints);
    assert Prefix(pts, NumPlayablePoints) == pts;
  }

  /** Decoding the text of a position gives the position back, as long as one
      point is occupied; the all-empty board is the one exception (see below). */
  lemma RoundTrip(p: Position)
    requires exists i :: 0 <= i < NumPlayablePoints && p.points[i] != 0
    ensures Decode(Serialize(p)) == Success(p)
  {
    SerializeFields(p);
    GroupsRoundTrip(p.points);
    DecodeFields(Serialize(p), p);
  }

  /** The text of a board with no checker on any point does not decode: its
      empty group list splits into one empty group, which has one part, not three. */
  lemma EmptyBoardUndecodable(p: Position)
    requires forall i :: 0 <= i < NumPlayablePoints ==> p.points[i] == 0
    ensures Decode(Serialize(p)) == Failure(MalformedGroup)
  {
    GroupsShape(p.points, NumPlayablePoints);
    assert Groups(p.points, NumPlayablePoints) == [];
    SerializeFields(p);
    assert Split(Serialize(p), ' ')[0] == "";
    assert Split("", '/') == [""];
    assert [""][..0] == [];
    assert Split("", '-') == [""];
  }

  // ---- The starting position ----

  /** Signed checker count of point `i` at the start of a game. */
  function StartingCount(i: int): int
  {
    match i
    case 0 => -2
    case 5 => 5
    case 7 => 3
    case 11 => -5
    case 12 => 5
    case 16 => -3
    case 18 => -5
    case 23 => 2
    case _ => 0
  }

  function StartingPoints(): Points
  {
    seq(NumPlayablePoints, StartingCount)
  }

  function StartingPosition(turn: Player): Position
  {
    Position(StartingPoints(), turn, 0, 0, 0, 0)
  }

  /** The starting points, written out. */
  lemma StartingPointsLiteral()
    ensures StartingPoints() == [-2, 0, 0, 0, 0, 5, 0, 3, 0, 0, 0, -5, 5, 0, 0, 0, -3, 0, -5, 0, 0, 0, 0, 2]
  {
  }

  /** A game starts with fifteen checkers of each colour, all on the points:
      the checker count every legal move then keeps. */
  lemma StartingTotals(turn: Player, pl: Player)
    ensures Total(StartingPosition(turn), pl) == InitCheckerCount
  {
    StartingPointsLiteral();
    if pl == White {
      StartingFirstHalf(StartingPoints(), White);
      StartingSecondHalf(StartingPoints(), White);
    } else {
      StartingFirstHalf(StartingPoints(), Black);
      StartingSecondHalf(StartingPoints(), Black);
    }
  }

  lemma StartingFirstHalf(pts: Points, pl: Player)
    requires pts == [-2, 0, 0, 0, 0, 5, 0, 3, 0, 0, 0, -5, 5, 0, 0, 0, -3, 0, -5, 0, 0, 0, 0, 2]
    ensures SumOwn(pts, Range(0, 12), pl) == if pl == White then 8 else 7
  {
    SumOwnRangeStep(pts, 1, pl);
    SumOwnRangeStep(pts, 2, pl);
    SumOwnRangeStep(pts, 3, pl);
    SumOwnRangeStep(pts, 4, pl);
    SumOwnRangeStep(pts, 5, pl);
    SumOwnRangeStep(pts, 6, pl);
    SumOwnRangeStep(pts, 7, pl);
    SumOwnRangeStep(pts, 8, pl);
    SumOwnRangeStep(pts, 9, pl);
    SumOwnRangeStep(pts, 10, pl);
    SumOwnRangeStep(pts, 11, pl);
    SumOwnRangeStep(pts, 12, pl);
  }

  lemma StartingSecondHalf(pts: Points, pl: Player)
    requires pts == [-2, 0, 0, 0, 0, 5, 0, 3, 0, 0, 0, -5, 5, 0, 0, 0, -3, 0, -5, 0, 0, 0, 0, 2]
    ensures SumOwn(pts, Range(0, 24), pl) == SumOwn(pts, Range(0, 12), pl) + (if pl == White then 7 else 8)
  {
    SumOwnRangeStep(pts, 13, pl);
    SumOwnRangeStep(pts, 14, pl);
    SumOwnRangeStep(pts, 15, pl);
    SumOwnRangeStep(pts, 16, pl);
    SumOwnRangeStep(pts, 17, pl);
    SumOwnRangeStep(pts, 18, pl);
    SumOwnRangeStep(pts, 19, pl);
    SumOwnRangeStep(pts, 20, pl);
    SumOwnRangeStep(pts, 21, pl);
    SumOwnRangeStep(pts, 22, pl);
    SumOwnRangeStep(pts, 23, pl);
    SumOwnRangeStep(pts, 24, pl);
  }

  /** The text constants for the starting position with white or black to move. */
  function StartingSerialized(turn: Player): string
  {
    if turn == White then "1-2-b/6-5-w/8-3-w/12-5-b/13-5-w/17-3-b/19-5-b/24-2-w w 0 0 0 0"
    else "1-2-b/6-5-w/8-3-w/12-5-b/13-5-w/17-3-b/19-5-b/24-2-w b 0 0 0 0"
  }

  /** The starting constant is exactly the text of the starting position, so it
      decodes to two black checkers on point 0, five white on 5, three white on
      7, five black on 11, five white on 12, three black on 16, five black on 18
      and two white on 23, with every counter zero. */
  lemma StartingBoard(turn: Player)
    ensures Serialize(StartingPosition(turn)) == StartingSerialized(turn)
    ensures Decode(StartingSerialized(turn)) == Success(StartingPosition(turn))
  {
    var p := StartingPosition(turn);
    StartingGroups(p.points);
    StartingJoin();
    StartingText(p);
    assert p.points[0] != 0;
    RoundTrip(p);
  }

  lemma StartingJoin()
    ensures Join(["1-2-b", "6-5-w", "8-3-w", "12-5-b", "13-5-w", "17-3-b", "19-5-b", "24-2-w"], '/')
      == "1-2-b/6-5-w/8-3-w/12-5-b/13-5-w/17-3-b/19-5-b/24-2-w"
  {
    var low, high := ["1-2-b", "6-5-w", "8-3-w", "12-5-b"], ["13-5-w", "17-3-b", "19-5-b", "24-2-w"];
    StartingJoinHalves();
    JoinAppend(low, high, '/');
    assert low + high == ["1-2-b", "6-5-w", "8-3-w", "12-5-b", "13-5-w", "17-3-b", "19-5-b", "24-2-w"];
    assert "1-2-b/6-5-w/8-3-w/12-5-b" + "/" + "13-5-w/17-3-b/19-5-b/24-2-w"
      == "1-2-b/6-5-w/8-3-w/12-5-b/13-5-w/17-3-b/19-5-b/24-2-w";
  }

  lemma StartingJoinHalves()
    ensures Join(["1-2-b", "6-5-w", "8-3-w", "12-5-b"], '/') == "1-2-b/6-5-w/8-3-w/12-5-b"
    ensures Join(["13-5-w", "17-3-b", "19-5-b", "24-2-w"], '/') == "13-5-w/17-3-b/19-5-b/24-2-w"
  {
    JoinFour("1-2-b", "6-5-w", "8-3-w", "12-5-b", '/');
    JoinFour("13-5-w", "17-3-b", "19-5-b", "24-2-w", '/');
  }

  /** The text of a position is its four space-separated parts written out. */
  lemma SerializeText(p: Position)
    ensures Serialize(p) == Join(Groups(p.points, NumPlayablePoints), '/') + " " + StrRepr(p.turn) + " "
      + IntToString(p.barredWhite) + " " + IntToString(p.barredBlack) + " "
      + IntToString(p.offedWhite) + " " + IntToString(p.offedBlack)
  {
    SpacedJoin(Join(Groups(p.points, NumPlayablePoints), '/'), StrRepr(p.turn),
               IntToString(p.barredWhite), IntToString(p.barredBlack),
               IntToString(p.offedWhite), IntToString(p.offedBlack));
  }

  lemma SpacedJoin(g: string, t: string, a: string, b: string, c: string, d: string)
    ensures Join([g, t, a + " " + b, c + " " + d], ' ') == g + " " + t + " " + a + " " + b + " " + c + " " + d
  {
    JoinFour(g, t, a + " " + b, c + " " + d, ' ');
  }

  lemma StartingText(p: Position)
    requires Join(Groups(p.points, NumPlayablePoints), '/')
      == "1-2-b/6-5-w/8-3-w/12-5-b/13-5-w/17-3-b/19-5-b/24-2-w"
    requires p.barredWhite == 0 && p.barredBlack == 0 && p.offedWhite == 0 && p.offedBlack == 0
    ensures Serialize(p) == StartingSerialized(p.turn)
  {
    SerializeText(p);
    assert IntToString(0) == "0";
    StartingLiteral(p.turn);
  }

  lemma StartingLiteral(turn: Player)
    ensures "1-2-b/6-5-w/8-3-w/12-5-b/13-5-w/17-3-b/19-5-b/24-2-w" + " " + StrRepr(turn) + " "
      + "0" + " " + "0" + " " + "0" + " " + "0" == StartingSerialized(turn)
  {
  }

  lemma LowGroupTexts()
    ensures Group(0, -2) == "1-2-b" && Group(5, 5) == "6-5-w" && Group(7, 3) == "8-3-w"
  {
  }

  lemma MiddleGroupTexts()
    ensures Group(11, -5) == "12-5-b" && Group(12, 5) == "13-5-w"
  {
    assert IntToString(12) == "12" && IntToString(13) == "13";
  }

  lemma HighGroupTexts()
    ensures Group(16, -3) == "17-3-b" && Group(18, -5) == "19-5-b" && Group(23, 2) == "24-2-w"
  {
    assert IntToString(17) == "17" && IntToString(19) == "19" && IntToString(24) == "24";
  }

  /** An occupied point adds its group. */
  lemma GroupsStep(pts: Points, n: nat, g: string)
    requires n < NumPlayablePoints && pts[n] != 0 && Group(n, pts[n]) == g
    ensures Groups(pts, n + 1) == Groups(pts, n) + [g]
  {
  }

  /** Empty points add no group. */
  lemma {:induction false} GroupsSkip(pts: Points, n: nat, m: nat)
    requires n <= m <= NumPlayablePoints
    requires forall k :: n <= k < m ==> pts[k] == 0
    ensures Groups(pts, m) == Groups(pts, n)
    decreases m - n
  {
    if n < m {
      GroupsSkipOne(pts, n + 1);
      GroupsSkip(pts, n + 1, m);
    }
  }

  lemma StartingGroupsLow(pts: Points)
    requires pts[0] == -2 && pts[5] == 5 && pts[6] == 0 && pts[7] == 3
    requires forall k :: 1 <= k < 5 ==> pts[k] == 0
    ensures Groups(pts, 8) == ["1-2-b", "6-5-w", "8-3-w"]
  {
    LowGroupTexts();
    assert Groups(pts, 0) == [];
    GroupsStep(pts, 0, "1-2-b");
    GroupsSkip(pts, 1, 5);
    GroupsStep(pts, 5, "6-5-w");
    GroupsSkip(pts, 6, 7);
    GroupsStep(pts, 7, "8-3-w");
  }

  lemma StartingGroupsMiddle(pts: Points, low: seq<string>)
    requires Groups(pts, 8) == low
    requires pts[11] == -5 && pts[12] == 5
    requires forall k :: 8 <= k < 11 ==> pts[k] == 0
    ensures Groups(pts, 13) == low + ["12-5-b", "13-5-w"]
  {
    MiddleGroupTexts();
    GroupsSkip(pts, 8, 11);
    GroupsStep(pts, 11, "12-5-b");
    GroupsStep(pts, 12, "13-5-w");
  }

  lemma StartingGroupsUpper(pts: Points, low: seq<string>)
    requires Groups(pts, 13) == low
    requires pts[16] == -3
    requires forall k :: 13 <= k < 16 ==> pts[k] == 0
    ensures Groups(pts, 17) == low + ["17-3-b"]
  {
    HighGroupTexts();
    GroupsSkip(pts, 13, 16);
    GroupsStep(pts, 16, "17-3-b");
  }

  lemma StartingGroupsHigh(pts: Points, low: seq<string>)
    requires Groups(pts, 17) == low
    requires pts[17] == 0 && pts[18] == -5 && pts[23] == 2
    requires forall k :: 19 <= k < 23 ==> pts[k] == 0
    ensures Groups(pts, NumPlayablePoints) == low + ["19-5-b", "24-2-w"]
  {
    HighGroupTexts();
    GroupsSkip(pts, 17, 18);
    GroupsStep(pts, 18, "19-5-b");
    GroupsSkip(pts, 19, 23);
    GroupsStep(pts, 23, "24-2-w");
  }

  lemma StartingGroups(pts: Points)
    requires pts == StartingPoints()
    ensures Groups(pts, NumPlayablePoints)
      == ["1-2-b", "6-5-w", "8-3-w", "12-5-b", "13-5-w", "17-3-b", "19-5-b", "24-2-w"]
  {
    StartingGroupsToThirteen(pts);
    StartingGroupsUpper(pts, ["1-2-b", "6-5-w", "8-3-w", "12-5-b", "13-5-w"]);
    StartingGroupsHigh(pts, ["1-2-b", "6-5-w", "8-3-w", "12-5-b", "13-5-w", "17-3-b"]);
  }

  lemma StartingGroupsToThirteen(pts: Points)
    requires pts == StartingPoints()
    ensures Groups(pts, 13) == ["1-2-b", "6-5-w", "8-3-w", "12-5-b", "13-5-w"]
  {
    StartingGroupsLow(pts);
    StartingGroupsMiddle(pts, ["1-2-b", "6-5-w", "8-3-w"]);
  }
}
