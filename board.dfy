/** The mutable board object: the 24 signed point counts live in an array
    that the board updates in place, next to the turn and the four barred and
    offed counters. Every operation is specified through `Snapshot()`, the
    position value the object currently holds. */
module Board {
  import opened Outcome
  import opened Text
  import opened BoardState
  import opened BoardCodec

  class Board {
    var points: array<int>
    var turn: Player
    var barredWhite: int
    var barredBlack: int
    var offedWhite: int
    var offedBlack: int

    ghost predicate Valid()
      reads this
    {
      points.Length == NumPlayablePoints
    }

    /** The position this board holds. */
    function Snapshot(): Position
      reads this, points
      requires Valid()
    {
      Position(points[..], turn, barredWhite, barredBlack, offedWhite, offedBlack)
    }

    /** Keeps the given array itself, not a copy, exactly as the point list is stored. */
    constructor (points: array<int>, turn: Player, barredWhite: int, barredBlack: int,
                 offedWhite: int, offedBlack: int)
      requires points.Length == NumPlayablePoints
      ensures Valid() && this.points == points
      ensures Snapshot() == Position(points[..], turn, barredWhite, barredBlack, offedWhite, offedBlack)
    {
      this.points := points;
      this.turn := turn;
      this.barredWhite := barredWhite;
      this.barredBlack := barredBlack;
      this.offedWhite := offedWhite;
      this.offedBlack := offedBlack;
    }

    // ---- The unchecked one-step mutators ----

    method IncOffed(pl: Player)
      requires Valid()
      modifies this
      ensures Valid() && points == old(points)
      ensures Snapshot() == old(Snapshot()).IncOffed(pl)
    {
      if pl == White {
        offedWhite := offedWhite + 1;
      } else {
        offedBlack := offedBlack + 1;
      }
    }

    method DecOffed(pl: Player)
      requires Valid()
      modifies this
      ensures Valid() && points == old(points)
      ensures Snapshot() == old(Snapshot()).DecOffed(pl)
    {
      if pl == White {
        offedWhite := offedWhite - 1;
      } else {
        offedBlack := offedBlack - 1;
      }
    }

    method IncBarred(pl: Player)
      requires Valid()
      modifies this
      ensures Valid() && points == old(points)
      ensures Snapshot() == old(Snapshot()).IncBarred(pl)
    {
      if pl == White {
        barredWhite := barredWhite + 1;
      } else {
        barredBlack := barredBlack + 1;
      }
    }

    method DecBarred(pl: Player)
      requires Valid()
      modifies this
      ensures Valid() && points == old(points)
      ensures Snapshot() == old(Snapshot()).DecBarred(pl)
    {
      if pl == White {
        barredWhite := barredWhite - 1;
      } else {
        barredBlack := barredBlack - 1;
      }
    }

    method IncPoint(idx: int)
      requires Valid() && Indexable(idx)
      modifies points
      ensures Valid()
      ensures Snapshot() == old(Snapshot()).IncPoint(idx)
    {
      points[Slot(idx)] := points[Slot(idx)] + 1;
    }

    method DecPoint(idx: int)
      requires Valid() && Indexable(idx)
      modifies points
      ensures Valid()
      ensures Snapshot() == old(Snapshot()).DecPoint(idx)
    {
      points[Slot(idx)] := points[Slot(idx)] - 1;
    }

    // ---- Queries ----

    predicate IsEmptyPoint(idx: int)
      reads this, points
      requires Valid() && Indexable(idx)
    {
      Snapshot().IsEmptyPoint(idx)
    }

    predicate IsPointOfColor(idx: int, color: Player)
      reads this, points
      requires Valid() && Indexable(idx)
    {
      Snapshot().IsPointOfColor(idx, color)
    }

    function NumCheckersAtIndex(idx: int): nat
      reads this, points
      requires Valid() && Indexable(idx)
    {
      Snapshot().NumCheckersAtIndex(idx)
    }

    /** Counts the checkers of `pl` on its home points, adds its borne-off
        checkers and compares the sum with fifteen. */
    method AllCheckersInHome(pl: Player) returns (b: bool)
      requires Valid()
      ensures b == Snapshot().AllCheckersInHome(pl)
    {
      var count := 0;
      var range := HomeBoardRange(pl);
      var k := 0;
      while k < |range|
        invariant 0 <= k <= |range|
        invariant count == SumOwn(points[..], range[..k], pl)
      {
        var idx := range[k];
        if points[idx] > 0 && pl == White {
          count := count + NumCheckersAtIndex(idx);
        } else if points[idx] < 0 && pl == Black {
          count := count + NumCheckersAtIndex(idx);
        }
        assert range[..k + 1][..k] == range[..k];
        k := k + 1;
      }
      assert range[..k] == range;
      count := count + (if pl == Black then offedBlack else offedWhite);
      b := count == InitCheckerCount;
    }

    /** The board text: one group per occupied point in ascending order, then
        the turn letter and the four counters. */
    method SerializeBoard() returns (s: string)
      requires Valid()
      ensures s == Serialize(Snapshot())
    {
      var checkers: seq<string> := [];
      var idx := 0;
      while idx < NumPlayablePoints
        invariant 0 <= idx <= NumPlayablePoints
        invariant checkers == Groups(points[..], idx)
      {
        if !IsEmptyPoint(idx) {
          var point, count, side := idx, points[idx], StrRepr(White);
          if IsPointOfColor(idx, Black) {
            count, side := -points[idx], StrRepr(Black);
          }
          checkers := checkers + [IntToString(point + 1) + "-" + IntToString(count) + "-" + side];
        }
        idx := idx + 1;
      }
      var checkersStr := Join(checkers, '/');
      s := Join([checkersStr, StrRepr(turn),
                 IntToString(barredWhite) + " " + IntToString(barredBlack),
                 IntToString(offedWhite) + " " + IntToString(offedBlack)], ' ');
    }

    /** Parses a board text into a new board; each failure is the exception
        the parser raises, and it is raised exactly when `Decode` fails. */
    static method FromString(serialized: string) returns (r: Result<Board, FormatError>)
      ensures r.Success? <==> Decode(serialized).Success?
      ensures r.Success? ==> fresh(r.value) && fresh(r.value.points) && r.value.Valid()
                             && r.value.Snapshot() == Decode(serialized).value
      ensures r.Failure? ==> r.error == Decode(serialized).error
    {
      var fields := Split(serialized, ' ');
      if |fields| != 6 {
        return Failure(WrongFieldCount);
      }
      var groups := Split(fields[0], '/');
      var pts := new int[NumPlayablePoints](_ => 0);
      assert pts[..] == EmptyPoints();
      var i := 0;
      while i < |groups|
        invariant 0 <= i <= |groups|
        invariant FillPoints(groups[..i]) == Success(pts[..])
      {
        assert groups[..i + 1][..i] == groups[..i];
        var err := PlaceGroup(pts, groups[i]);
        if err.Some? {
          FillPointsFailureSticks(groups, i + 1, |groups|);
          assert groups[..|groups|] == groups;
          return Failure(err.value);
        }
        i := i + 1;
      }
      assert groups[..i] == groups;
      var turn := PlayerFromStrRepr(fields[1]);
      if turn.None? {
        return Failure(UnknownTurn);
      }
      var bw, bb, ow, ob := ParseInt(fields[2]), ParseInt(fields[3]), ParseInt(fields[4]), ParseInt(fields[5]);
      if bw.None? || bb.None? || ow.None? || ob.None? {
        return Failure(NotAnInteger);
      }
      var board := new Board(pts, turn.value, bw.value, bb.value, ow.value, ob.value);
      return Success(board);
    }

    /** One pass of the parsing loop: split the group, read the count, then
        the point, and write the signed count at that point. */
    static method PlaceGroup(pts: array<int>, part: string) returns (err: Option<FormatError>)
      requires pts.Length == NumPlayablePoints
      modifies pts
      ensures Place(old(pts[..]), part).Success? ==> err.None? && pts[..] == Place(old(pts[..]), part).value
      ensures Place(old(pts[..]), part).Failure? ==> err == Some(Place(old(pts[..]), part).error)
    {
      var parts := Split(part, '-');
      if |parts| != 3 {
        return Some(MalformedGroup);
      }
      var count := ParseInt(parts[1]);
      if count.None? {
        return Some(NotAnInteger);
      }
      var point := ParseInt(parts[0]);
      if point.None? {
        return Some(NotAnInteger);
      }
      if !Indexable(point.value - 1) {
        return Some(PointOutOfRange);
      }
      if parts[2] == "w" {
        pts[Slot(point.value - 1)] := count.value;
      } else {
        pts[Slot(point.value - 1)] := -count.value;
      }
      return None;
    }

    /** A fresh board in the starting position with the given player to move. */
    static method NewBoard(startingPlayer: Player) returns (b: Board)
      ensures fresh(b) && fresh(b.points) && b.Valid()
      ensures b.Snapshot() == StartingPosition(startingPlayer)
    {
      StartingBoard(startingPlayer);
      var r;
      if startingPlayer == White {
        r := FromString(StartingSerialized(White));
      } else {
        r := FromString(StartingSerialized(Black));
      }
      b := r.value;
    }

    /** Board equality compares the points, the turn and all four counters. */
    function Equals(ot: Board): (r: bool)
      reads this, points, ot, ot.points
      requires Valid() && ot.Valid()
      ensures r <==> Snapshot() == ot.Snapshot()
    {
      && points[..] == ot.points[..]
      && turn == ot.turn
      && barredBlack == ot.barredBlack && barredWhite == ot.barredWhite
      && offedBlack == ot.offedBlack && offedWhite == ot.offedWhite
    }
  }
}
