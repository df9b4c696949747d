/** Moves of the game engine and what applying and undoing them does to a
    position. The engine picks the moving colour by looking at the board and
    then calls the board's one-step updates; `Apply` and `Undo` are those
    call sequences on position values.

    Both are parameterised by `Semantics`: `AsWritten` follows the engine's
    code, `Intended` repairs the three branches whose comments say otherwise
    (a black normal move, a black bear-off, and the undo of a bar entry).
    Every other branch is the same under both. */
module Moves {
  import opened Outcome
  import opened BoardState
  import opened BoardCodec

  datatype MoveType = Normal | NormalPutOnBar | BarEntry | BarEntryPutOnBar | BearOff

  /** `-1` stands for the bar as the start of a bar entry and for "off the
      board" as the end of a bear-off. */
  datatype Move = Move(fromPoint: int, toPoint: int, moveType: MoveType)

  datatype MoveRoll = MoveRoll(moves: seq<Move>)

  datatype Semantics = AsWritten | Intended

  /** Raised when a bear-off is undone from a point in neither home board. */
  datatype UndoError = BearOffOutsideHome

  /** The point indices applying the move reads or writes are valid list indices. */
  predicate ApplyIndexed(mv: Move)
  {
    match mv.moveType
    case Normal => Indexable(mv.fromPoint) && Indexable(mv.toPoint)
    case NormalPutOnBar => Indexable(mv.fromPoint) && Indexable(mv.toPoint)
    case BarEntry => Indexable(mv.toPoint)
    case BarEntryPutOnBar => Indexable(mv.toPoint)
    case BearOff => Indexable(mv.fromPoint)
  }

  /** The point indices undoing the move reads or writes are valid list indices
      (a bear-off is first checked against the home boards). */
  predicate UndoIndexed(mv: Move)
  {
    match mv.moveType
    case Normal => Indexable(mv.fromPoint) && Indexable(mv.toPoint)
    case NormalPutOnBar => Indexable(mv.fromPoint) && Indexable(mv.toPoint)
    case BarEntry => Indexable(mv.toPoint)
    case BarEntryPutOnBar => Indexable(mv.toPoint)
    case BearOff => true
  }

  /** The engine's move application. A black normal move as written calls the
      barred counters with point numbers; a number is never `WHITE`, so both
      calls reach the black counter and cancel out. A black bear-off as written
      bars a black checker instead of taking it off its point. */
  function Apply(sem: Semantics, p: Position, mv: Move): Position
    requires ApplyIndexed(mv)
  {
    var f, t := mv.fromPoint, mv.toPoint;
    match mv.moveType
    case Normal =>
      if p.IsPointOfColor(f, White) then p.DecPoint(f).IncPoint(t)
      else if sem == AsWritten then p.IncBarred(Black).DecBarred(Black)
      else p.IncPoint(f).DecPoint(t)
    case BearOff =>
      if p.IsPointOfColor(f, White) then p.DecPoint(f).IncOffed(White)
      else if sem == AsWritten then p.IncBarred(Black).IncOffed(Black)
      else p.IncPoint(f).IncOffed(Black)
    case BarEntry =>
      if IndexInHome(t, Black) then p.DecBarred(White).IncPoint(t)
      else p.DecBarred(Black).DecPoint(t)
    case NormalPutOnBar =>
      if p.IsPointOfColor(f, White) then p.DecPoint(f).IncPoint(t).IncPoint(t).IncBarred(Black)
      else p.IncPoint(f).DecPoint(t).DecPoint(t).IncBarred(White)
    case BarEntryPutOnBar =>
      if IndexInHome(t, Black) then p.IncPoint(t).DecBarred(White).IncPoint(t).IncBarred(Black)
      else p.DecPoint(t).DecBarred(Black).DecPoint(t).IncBarred(White)
  }

  /** The engine's undo, which picks the colour from the destination point (or,
      for a bear-off, from the home board the start point lies in). As written,
      undoing a bar entry takes the branch of the other colour. */
  function Undo(sem: Semantics, p: Position, mv: Move): Result<Position, UndoError>
    requires UndoIndexed(mv)
  {
    var f, t := mv.fromPoint, mv.toPoint;
    match mv.moveType
    case Normal =>
      if p.IsPointOfColor(t, White) then Success(p.IncPoint(f).DecPoint(t))
      else Success(p.DecPoint(f).IncPoint(t))
    case BearOff =>
      if IndexInHome(f, White) then Success(p.IncPoint(f).DecOffed(White))
      else if IndexInHome(f, Black) then Success(p.DecPoint(f).DecOffed(Black))
      else Failure(BearOffOutsideHome)
    case NormalPutOnBar =>
      if p.IsPointOfColor(t, White) then Success(p.IncPoint(f).DecPoint(t).DecPoint(t).DecBarred(Black))
      else Success(p.DecPoint(f).IncPoint(t).IncPoint(t).DecBarred(White))
    case BarEntryPutOnBar =>
      if p.IsPointOfColor(t, White) then Success(p.DecPoint(t).DecPoint(t).DecBarred(Black).IncBarred(White))
      else Success(p.IncPoint(t).IncPoint(t).DecBarred(White).IncBarred(Black))
    case BarEntry =>
      if p.IsPointOfColor(t, White) then
        if sem == AsWritten then Success(p.IncPoint(t).IncBarred(Black))
        else Success(p.DecPoint(t).IncBarred(White))
      else
        if sem == AsWritten then Success(p.DecPoint(t).IncBarred(White))
        else Success(p.IncPoint(t).IncBarred(Black))
  }

  // ---- Legal moves and their effect ----

  /** The colour the engine moves: the colour on the start point, or for a bar
      entry white exactly when it enters on black's home board. */
  function Mover(p: Position, mv: Move): Player
    requires ApplyIndexed(mv)
  {
    match mv.moveType
    case BarEntry => if IndexInHome(mv.toPoint, Black) then White else Black
    case BarEntryPutOnBar => if IndexInHome(mv.toPoint, Black) then White else Black
    case _ => if p.IsPointOfColor(mv.fromPoint, White) then White else Black
  }

  /** The conditions the engine takes for granted: the mover has a checker to
      move (on the start point, or on the bar), the destination holds no
      opposing checker for a plain move and exactly one for a hit, and a
      bear-off starts on the mover's home board. */
  predicate Legal(p: Position, mv: Move)
  {
    && ApplyIndexed(mv)
    && var m := Mover(p, mv);
       match mv.moveType
       case Normal =>
         Own(p.points[Slot(mv.fromPoint)], m) > 0 && Own(p.points[Slot(mv.toPoint)], Other(m)) == 0
       case NormalPutOnBar =>
         Own(p.points[Slot(mv.fromPoint)], m) > 0 && Own(p.points[Slot(mv.toPoint)], Other(m)) == 1
       case BarEntry =>
         p.Barred(m) > 0 && Own(p.points[Slot(mv.toPoint)], Other(m)) == 0
       case BarEntryPutOnBar =>
         p.Barred(m) > 0 && Own(p.points[Slot(mv.toPoint)], Other(m)) == 1
       case BearOff =>
         Own(p.points[Slot(mv.fromPoint)], m) > 0 && IndexInHome(mv.fromPoint, m)
  }

  /** The legal moves whose written branches already do what their comments say. */
  predicate FaithfulAsWritten(p: Position, mv: Move)
    requires ApplyIndexed(mv)
  {
    || mv.moveType == NormalPutOnBar || mv.moveType == BarEntryPutOnBar
    || ((mv.moveType == Normal || mv.moveType == BearOff) && Mover(p, mv) == White)
  }

  /** `n` checkers of `pl` as a signed point count. */
  function Signed(pl: Player, n: int): int
  {
    if pl == White then n else -n
  }

  /** Per kind, in checkers of the mover: how many leave the start point, how
      far the destination count moves towards the mover (two when the
      opponent's lone checker there is hit), and the changes of the mover's
      barred and offed counters and of the opponent's barred counter. */
  datatype Delta = Delta(leaveFrom: int, gainTo: int, moverBarred: int, moverOffed: int, otherBarred: int)

  function KindDelta(k: MoveType): Delta
  {
    match k
    case Normal => Delta(1, 1, 0, 0, 0)
    case NormalPutOnBar => Delta(1, 2, 0, 0, 1)
    case BarEntry => Delta(0, 1, -1, 0, 0)
    case BarEntryPutOnBar => Delta(0, 2, -1, 0, 1)
    case BearOff => Delta(1, 0, 0, 1, 0)
  }

  /** Net change of point `j`, in checkers of the mover. */
  function PointGain(mv: Move, j: int): int
  {
    var d := KindDelta(mv.moveType);
    (if Indexable(mv.toPoint) && Slot(mv.toPoint) == j then d.gainTo else 0)
      - (if Indexable(mv.fromPoint) && Slot(mv.fromPoint) == j then d.leaveFrom else 0)
  }

  /** `r` is `p` changed exactly as the table says for a move of `mv`'s kind by `m`. */
  predicate HasEffect(p: Position, r: Position, mv: Move, m: Player)
  {
    && (forall j :: 0 <= j < NumPlayablePoints ==> r.points[j] == p.points[j] + Signed(m, PointGain(mv, j)))
    && r.turn == p.turn
    && r.Barred(m) == p.Barred(m) + KindDelta(mv.moveType).moverBarred
    && r.Offed(m) == p.Offed(m) + KindDelta(mv.moveType).moverOffed
    && r.Barred(Other(m)) == p.Barred(Other(m)) + KindDelta(mv.moveType).otherBarred
    && r.Offed(Other(m)) == p.Offed(Other(m))
  }

  /** Under the intended semantics every move changes the position exactly as
      the table for its kind says, for the colour `Mover` names. */
  lemma ApplyEffect(p: Position, mv: Move)
    requires ApplyIndexed(mv)
    ensures HasEffect(p, Apply(Intended, p, mv), mv, Mover(p, mv))
  {
    var r, m := Apply(Intended, p, mv), Mover(p, mv);
    forall j | 0 <= j < NumPlayablePoints
      ensures r.points[j] == p.points[j] + Signed(m, PointGain(mv, j))
    {
    }
  }

  /** The legal moves a semantics handles as the comments describe: every
      legal move under the intended semantics, the faithful ones as written. */
  predicate GoodStep(sem: Semantics, p: Position, mv: Move)
  {
    Legal(p, mv) && (sem == Intended || FaithfulAsWritten(p, mv))
  }

  /** The written application differs from the intended one only in a black
      normal move and a black bear-off. */
  lemma ApplyAgrees(p: Position, mv: Move)
    requires ApplyIndexed(mv)
    ensures Apply(AsWritten, p, mv) == Apply(Intended, p, mv) <==>
      FaithfulAsWritten(p, mv) || mv.moveType == BarEntry
      || (mv.moveType == Normal && Slot(mv.fromPoint) == Slot(mv.toPoint))
  {
    var f, t := mv.fromPoint, mv.toPoint;
    if !FaithfulAsWritten(p, mv) && mv.moveType == Normal && Slot(f) != Slot(t) {
      assert Apply(Intended, p, mv).points[Slot(f)] != p.points[Slot(f)];
    }
    if !FaithfulAsWritten(p, mv) && mv.moveType == BearOff {
      assert Apply(Intended, p, mv).Barred(Black) != Apply(AsWritten, p, mv).Barred(Black);
    }
  }

  /** The written undo differs from the intended one only for a bar entry. */
  lemma UndoAgrees(p: Position, mv: Move)
    requires UndoIndexed(mv)
    ensures mv.moveType != BarEntry ==> Undo(AsWritten, p, mv) == Undo(Intended, p, mv)
    ensures mv.moveType == BarEntry ==> Undo(AsWritten, p, mv) != Undo(Intended, p, mv)
  {
    if mv.moveType == BarEntry {
      var t := mv.toPoint;
      if p.IsPointOfColor(t, White) {
        assert Undo(AsWritten, p, mv).value.Barred(Black) != Undo(Intended, p, mv).value.Barred(Black);
      } else {
        assert Undo(AsWritten, p, mv).value.Barred(White) != Undo(Intended, p, mv).value.Barred(White);
      }
    }
  }

  /** A good step keeps the number of checkers of each colour (on the board,
      on the bar and borne off together). */
  lemma Conservation(sem: Semantics, p: Position, mv: Move, pl: Player)
    requires GoodStep(sem, p, mv)
    ensures Total(Apply(sem, p, mv), pl) == Total(p, pl)
  {
    ApplyAgrees(p, mv);
    match mv.moveType
    case Normal => NormalConserves(p, mv, pl);
    case BearOff => BearOffConserves(p, mv, pl);
    case BarEntry => EntryConserves(p, mv, pl);
    case NormalPutOnBar => NormalHitConserves(p, mv, pl);
    case BarEntryPutOnBar => EntryHitConserves(p, mv, pl);
  }

  lemma NormalConserves(p: Position, mv: Move, pl: Player)
    requires mv.moveType == Normal && Legal(p, mv)
    ensures Total(Apply(Intended, p, mv), pl) == Total(p, pl)
  {
    var f, t := mv.fromPoint, mv.toPoint;
    TotalPointStep(p, f, pl);
    if p.IsPointOfColor(f, White) {
      TotalPointStep(p.DecPoint(f), t, pl);
    } else {
      TotalPointStep(p.IncPoint(f), t, pl);
    }
  }

  lemma BearOffConserves(p: Position, mv: Move, pl: Player)
    requires mv.moveType == BearOff && Legal(p, mv)
    ensures Total(Apply(Intended, p, mv), pl) == Total(p, pl)
  {
    var f := mv.fromPoint;
    TotalPointStep(p, f, pl);
    if p.IsPointOfColor(f, White) {
      TotalCounterStep(p.DecPoint(f), White, pl);
    } else {
      TotalCounterStep(p.IncPoint(f), Black, pl);
    }
  }

  lemma EntryConserves(p: Position, mv: Move, pl: Player)
    requires mv.moveType == BarEntry && Legal(p, mv)
    ensures Total(Apply(Intended, p, mv), pl) == Total(p, pl)
  {
    var t := mv.toPoint;
    if IndexInHome(t, Black) {
      TotalCounterStep(p, White, pl);
      TotalPointStep(p.DecBarred(White), t, pl);
    } else {
      TotalCounterStep(p, Black, pl);
      TotalPointStep(p.DecBarred(Black), t, pl);
    }
  }

  lemma NormalHitConserves(p: Position, mv: Move, pl: Player)
    requires mv.moveType == NormalPutOnBar && Legal(p, mv)
    ensures Total(Apply(Intended, p, mv), pl) == Total(p, pl)
  {
    var f, t := mv.fromPoint, mv.toPoint;
    var a := if p.IsPointOfColor(f, White) then p.DecPoint(f) else p.IncPoint(f);
    var b := if p.IsPointOfColor(f, White) then a.IncPoint(t) else a.DecPoint(t);
    var c := if p.IsPointOfColor(f, White) then b.IncPoint(t) else b.DecPoint(t);
    TotalPointStep(p, f, pl);
    TotalPointStep(a, t, pl);
    TotalPointStep(b, t, pl);
    TotalCounterStep(c, if p.IsPointOfColor(f, White) then Black else White, pl);
  }

  lemma EntryHitConserves(p: Position, mv: Move, pl: Player)
    requires mv.moveType == BarEntryPutOnBar && Legal(p, mv)
    ensures Total(Apply(Intended, p, mv), pl) == Total(p, pl)
  {
    var t := mv.toPoint;
    var m := Mover(p, mv);
    var a := if m == White then p.IncPoint(t) else p.DecPoint(t);
    var b := a.DecBarred(m);
    var c := if m == White then b.IncPoint(t) else b.DecPoint(t);
    TotalPointStep(p, t, pl);
    TotalCounterStep(a, m, pl);
    TotalPointStep(b, t, pl);
    TotalCounterStep(c, Other(m), pl);
  }

  /** Undoing a good step restores the position it was applied to. */
  lemma RoundTrip(sem: Semantics, p: Position, mv: Move)
    requires GoodStep(sem, p, mv)
    ensures UndoIndexed(mv)
    ensures Undo(sem, Apply(sem, p, mv), mv) == Success(p)
  {
    ApplyAgrees(p, mv);
    UndoAgrees(Apply(sem, p, mv), mv);
    match mv.moveType
    case Normal => NormalRoundTrip(p, mv);
    case BearOff => BearOffRoundTrip(p, mv);
    case BarEntry => EntryRoundTrip(p, mv);
    case NormalPutOnBar => NormalHitRoundTrip(p, mv);
    case BarEntryPutOnBar => EntryHitRoundTrip(p, mv);
  }

  lemma NormalRoundTrip(p: Position, mv: Move)
    requires mv.moveType == Normal && Legal(p, mv)
    ensures Undo(Intended, Apply(Intended, p, mv), mv) == Success(p)
  {
    var f, t := mv.fromPoint, mv.toPoint;
    var r := Apply(Intended, p, mv);
    if p.IsPointOfColor(f, White) {
      assert r.IsPointOfColor(t, White);
      assert r.IncPoint(f).DecPoint(t).points == p.points;
    } else {
      assert !r.IsPointOfColor(t, White);
      assert r.DecPoint(f).IncPoint(t).points == p.points;
    }
  }

  lemma BearOffRoundTrip(p: Position, mv: Move)
    requires mv.moveType == BearOff && Legal(p, mv)
    ensures Undo(Intended, Apply(Intended, p, mv), mv) == Success(p)
  {
    var f := mv.fromPoint;
    var r := Apply(Intended, p, mv);
    if p.IsPointOfColor(f, White) {
      assert r.IncPoint(f).points == p.points;
    } else {
      assert r.DecPoint(f).points == p.points;
    }
  }

  lemma EntryRoundTrip(p: Position, mv: Move)
    requires mv.moveType == BarEntry && Legal(p, mv)
    ensures Undo(Intended, Apply(Intended, p, mv), mv) == Success(p)
  {
    var t := mv.toPoint;
    var r := Apply(Intended, p, mv);
    if IndexInHome(t, Black) {
      assert r.IsPointOfColor(t, White);
      assert r.DecPoint(t).points == p.points;
    } else {
      assert !r.IsPointOfColor(t, White);
      assert r.IncPoint(t).points == p.points;
    }
  }

  lemma NormalHitRoundTrip(p: Position, mv: Move)
    requires mv.moveType == NormalPutOnBar && Legal(p, mv)
    ensures Undo(Intended, Apply(Intended, p, mv), mv) == Success(p)
  {
    var f, t := mv.fromPoint, mv.toPoint;
    var r := Apply(Intended, p, mv);
    if p.IsPointOfColor(f, White) {
      assert r.IsPointOfColor(t, White);
      assert r.IncPoint(f).DecPoint(t).DecPoint(t).points == p.points;
    } else {
      assert !r.IsPointOfColor(t, White);
      assert r.DecPoint(f).IncPoint(t).IncPoint(t).points == p.points;
    }
  }

  lemma EntryHitRoundTrip(p: Position, mv: Move)
    requires mv.moveType == BarEntryPutOnBar && Legal(p, mv)
    ensures Undo(Intended, Apply(Intended, p, mv), mv) == Success(p)
  {
    var t := mv.toPoint;
    var r := Apply(Intended, p, mv);
    if IndexInHome(t, Black) {
      assert r.IsPointOfColor(t, White);
      assert r.DecPoint(t).DecPoint(t).points == p.points;
    } else {
      assert !r.IsPointOfColor(t, White);
      assert r.IncPoint(t).IncPoint(t).points == p.points;
    }
  }

  // ---- Where the written branches go wrong ----

  /** As written, a black normal move leaves the position as it was, and
      undoing it then moves a black checker backwards from a point it never
      reached. */
  lemma BlackNormalAsWritten(p: Position, mv: Move)
    requires mv.moveType == Normal && Legal(p, mv) && Mover(p, mv) == Black
    ensures Apply(AsWritten, p, mv) == p
    ensures Slot(mv.fromPoint) != Slot(mv.toPoint) ==>
      Undo(AsWritten, Apply(AsWritten, p, mv), mv) != Success(p)
  {
    var f, t := mv.fromPoint, mv.toPoint;
    if Slot(f) != Slot(t) {
      assert !p.IsPointOfColor(t, White);
      assert Undo(AsWritten, p, mv).value.points[Slot(f)] != p.points[Slot(f)];
    }
  }

  /** The intended black normal move takes one checker off its start point and adds one to its destination. */
  lemma BlackNormalIntended(p: Position, mv: Move)
    requires mv.moveType == Normal && ApplyIndexed(mv) && p.points[Slot(mv.fromPoint)] < 0
    requires Slot(mv.fromPoint) != Slot(mv.toPoint)
    ensures Apply(Intended, p, mv).points[Slot(mv.fromPoint)] == p.points[Slot(mv.fromPoint)] + 1
    ensures Apply(Intended, p, mv).points[Slot(mv.toPoint)] == p.points[Slot(mv.toPoint)] - 1
  {
  }

  /** The opening move that takes a black checker from point 12 to point 18:
      as written the starting position is unchanged, while the intended move
      leaves four checkers on the first point and one on the second. */
  lemma BlackNormalExample(turn: Player)
    ensures Apply(AsWritten, StartingPosition(turn), Move(11, 17, Normal)) == StartingPosition(turn)
    ensures Apply(Intended, StartingPosition(turn), Move(11, 17, Normal)).points[11] == -4
    ensures Apply(Intended, StartingPosition(turn), Move(11, 17, Normal)).points[17] == -1
  {
    var p, mv := StartingPosition(turn), Move(11, 17, Normal);
    assert p.points[11] == StartingCount(11) == -5;
    assert p.points[17] == StartingCount(17) == 0;
    BlackNormalAsWritten(p, mv);
    BlackNormalIntended(p, mv);
  }

  /** As written, a black bear-off puts a checker on the bar and another off
      the board while its start point keeps its count: black gains two checkers. */
  lemma BlackBearOffAsWritten(p: Position, mv: Move)
    requires mv.moveType == BearOff && ApplyIndexed(mv) && Mover(p, mv) == Black
    ensures Apply(AsWritten, p, mv).points == p.points
    ensures Apply(AsWritten, p, mv).Barred(Black) == p.Barred(Black) + 1
    ensures Apply(AsWritten, p, mv).Offed(Black) == p.Offed(Black) + 1
    ensures Total(Apply(AsWritten, p, mv), Black) == Total(p, Black) + 2
    ensures Total(Apply(AsWritten, p, mv), White) == Total(p, White)
  {
    TotalCounterStep(p, Black, Black);
    TotalCounterStep(p, Black, White);
    TotalCounterStep(p.IncBarred(Black), Black, Black);
    TotalCounterStep(p.IncBarred(Black), Black, White);
  }

  /** As written, undoing a legal bar entry does not return the checker to the
      bar: it adds a checker of the mover to the point and one of the
      opponent to the bar, so both colours end up with one checker too many. */
  lemma BarEntryUndoAsWritten(p: Position, mv: Move)
    requires mv.moveType == BarEntry && Legal(p, mv)
    ensures Undo(AsWritten, Apply(AsWritten, p, mv), mv).Success?
    ensures Total(Undo(AsWritten, Apply(AsWritten, p, mv), mv).value, White) == Total(p, White) + 1
    ensures Total(Undo(AsWritten, Apply(AsWritten, p, mv), mv).value, Black) == Total(p, Black) + 1
  {
    var t := mv.toPoint;
    var r := Apply(AsWritten, p, mv);
    EntryConserves(p, mv, White);
    EntryConserves(p, mv, Black);
    TotalPointStep(r, t, White);
    TotalPointStep(r, t, Black);
    if IndexInHome(t, Black) {
      assert r.points[Slot(t)] > 0;
      TotalCounterStep(r.IncPoint(t), Black, White);
      TotalCounterStep(r.IncPoint(t), Black, Black);
    } else {
      assert r.points[Slot(t)] < 0;
      TotalCounterStep(r.DecPoint(t), White, White);
      TotalCounterStep(r.DecPoint(t), White, Black);
    }
  }

  // ---- Move rolls ----

  predicate AllApplyIndexed(moves: seq<Move>)
  {
    forall k :: 0 <= k < |moves| ==> ApplyIndexed(moves[k])
  }

  predicate AllUndoIndexed(moves: seq<Move>)
  {
    forall k :: 0 <= k < |moves| ==> UndoIndexed(moves[k])
  }

  /** The moves of a roll applied in order. */
  function ApplyAll(sem: Semantics, p: Position, moves: seq<Move>): Position
    requires AllApplyIndexed(moves)
  {
    if |moves| == 0 then p
    else Apply(sem, ApplyAll(sem, p, moves[..|moves| - 1]), moves[|moves| - 1])
  }

  /** Undoing a roll either completes or stops at the first move whose undo
      raises, leaving the moves already undone undone. */
  datatype UndoOutcome = Completed(pos: Position) | Raised(error: UndoError, pos: Position)

  /** The moves of a roll undone from the last to the first. */
  function UndoAll(sem: Semantics, p: Position, moves: seq<Move>): UndoOutcome
    requires AllUndoIndexed(moves)
    decreases |moves|
  {
    if |moves| == 0 then Completed(p)
    else
      match Undo(sem, p, moves[|moves| - 1])
      case Failure(e) => Raised(e, p)
      case Success(q) => UndoAll(sem, q, moves[..|moves| - 1])
  }

  /** Every move of the roll is a good step from the position the earlier moves lead to. */
  predicate GoodRoll(sem: Semantics, p: Position, moves: seq<Move>)
  {
    && AllApplyIndexed(moves)
    && forall k :: 0 <= k < |moves| ==> GoodStep(sem, ApplyAll(sem, p, moves[..k]), moves[k])
  }

  lemma GoodRollInit(sem: Semantics, p: Position, moves: seq<Move>)
    requires GoodRoll(sem, p, moves) && |moves| > 0
    ensures GoodRoll(sem, p, moves[..|moves| - 1])
    ensures GoodStep(sem, ApplyAll(sem, p, moves[..|moves| - 1]), moves[|moves| - 1])
  {
    var init := moves[..|moves| - 1];
    forall k | 0 <= k < |init|
      ensures GoodStep(sem, ApplyAll(sem, p, init[..k]), init[k])
    {
      assert init[..k] == moves[..k];
    }
  }

  /** Undoing a roll of good steps in reverse order restores the position. */
  lemma {:induction false} RollRoundTrip(sem: Semantics, p: Position, moves: seq<Move>)
    requires GoodRoll(sem, p, moves)
    ensures AllUndoIndexed(moves)
    ensures UndoAll(sem, ApplyAll(sem, p, moves), moves) == Completed(p)
    decreases |moves|
  {
    if |moves| > 0 {
      var init, last := moves[..|moves| - 1], moves[|moves| - 1];
      GoodRollInit(sem, p, moves);
      RollRoundTrip(sem, p, init);
      RoundTrip(sem, ApplyAll(sem, p, init), last);
    }
  }

  /** A roll of good steps keeps each colour's checker count. */
  lemma {:induction false} RollConservation(sem: Semantics, p: Position, moves: seq<Move>, pl: Player)
    requires GoodRoll(sem, p, moves)
    ensures Total(ApplyAll(sem, p, moves), pl) == Total(p, pl)
    decreases |moves|
  {
    if |moves| > 0 {
      GoodRollInit(sem, p, moves);
      RollConservation(sem, p, moves[..|moves| - 1], pl);
      Conservation(sem, ApplyAll(sem, p, moves[..|moves| - 1]), moves[|moves| - 1], pl);
    }
  }

  /** Every position a game reaches from the opening by rolls of legal moves
      holds fifteen checkers of each colour, counting the bar and the borne-off
      checkers. */
  lemma StartingRollTotals(turn: Player, moves: seq<Move>, pl: Player)
    requires GoodRoll(Intended, StartingPosition(turn), moves)
    ensures Total(ApplyAll(Intended, StartingPosition(turn), moves), pl) == InitCheckerCount
    ensures ApplyAll(Intended, StartingPosition(turn), moves).Barred(pl) >= 0
  {
    StartingTotals(turn, pl);
    RollConservation(Intended, StartingPosition(turn), moves, pl);
    RollBarredNonNegative(StartingPosition(turn), moves);
  }

  /** A legal move never drives a bar count below zero: only a bar entry takes
      a checker off the bar, and it needs one there. */
  lemma BarredNonNegative(p: Position, mv: Move)
    requires Legal(p, mv) && p.Barred(White) >= 0 && p.Barred(Black) >= 0
    ensures Apply(Intended, p, mv).Barred(White) >= 0 && Apply(Intended, p, mv).Barred(Black) >= 0
  {
    ApplyEffect(p, mv);
  }

  /** A roll of legal moves keeps both bar counts non-negative. */
  lemma {:induction false} RollBarredNonNegative(p: Position, moves: seq<Move>)
    requires GoodRoll(Intended, p, moves) && p.Barred(White) >= 0 && p.Barred(Black) >= 0
    ensures ApplyAll(Intended, p, moves).Barred(White) >= 0 && ApplyAll(Intended, p, moves).Barred(Black) >= 0
    decreases |moves|
  {
    if |moves| > 0 {
      GoodRollInit(Intended, p, moves);
      RollBarredNonNegative(p, moves[..|moves| - 1]);
      BarredNonNegative(ApplyAll(Intended, p, moves[..|moves| - 1]), moves[|moves| - 1]);
    }
  }
}
