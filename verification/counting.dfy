/** Piece counts of a board, and how the cell writes of `takeBackMove` change
    them. `addPiece` asserts that a piece's list has room (fewer than ten
    entries); these lemmas show when the boards a take-back passes through
    leave that room. */
module Counting {
  import opened Constants
  import opened Ranges
  import opened Board
  import opened MoveBoard

  /** The number of cells of `b` holding `p`. */
  function Count(b: seq<nat>, p: nat): int
    requires |b| == LargeNC
  {
    Tally(b, LargeNC, CountW(p))
  }

  /** No piece kind occurs more than ten times: the length of a piece list. */
  predicate Capacity(b: seq<nat>)
    requires |b| == LargeNC
  {
    forall p :: wP <= p <= bK ==> Count(b, p) <= 10
  }

  /** One write changes a count by what it removes and what it puts. */
  lemma CountPlaced(b: seq<nat>, sq: nat, v: nat, p: nat)
    requires |b| == LargeNC && sq < LargeNC
    ensures |Placed(b, sq, v)| == LargeNC
    ensures Count(Placed(b, sq, v), p)
         == Count(b, p) - (if b[sq] == p then 1 else 0) + (if v == p then 1 else 0)
  {
    TallyUpdate(b, LargeNC, CountW(p), sq, v);
  }

  /** Moving a piece onto an empty cell changes no piece's count. */
  lemma CountMoved(b: seq<nat>, from: nat, to: nat, p: nat)
    requires |b| == LargeNC && from < LargeNC && to < LargeNC && from != to
    requires b[to] == EMPTY && p != EMPTY
    ensures |Moved(b, from, to)| == LargeNC
    ensures Count(Moved(b, from, to), p) == Count(b, p)
  {
    CountPlaced(b, from, EMPTY, p);
    CountPlaced(Placed(b, from, EMPTY), to, b[from], p);
  }

  /** The stages after the special one add no pawn of the other colour. */
  lemma LaterStagesKeepOther(a: seq<nat>, mv: MoveParts, side: nat)
    requires |a| == LargeNC && side < 2 && UnmoveFits(a, mv, side)
    requires !mv.castle && mv.enPas
    ensures |SpecialBackBoard(a, mv, side)| == LargeNC
    ensures Count(UndoBoard(a, mv, side), PawnOf(Other(side)))
         == Count(SpecialBackBoard(a, mv, side), PawnOf(Other(side)))
  {
    UnwindCells(a, mv, side);
    var a1 := SpecialBackBoard(a, mv, side);
    CountMoved(a1, mv.to, mv.from, PawnOf(Other(side)));
  }

  /** Putting back a pawn taken en passant leaves room in its list. */
  lemma EnPasRoom(a: seq<nat>, mv: MoveParts, side: nat)
    requires |a| == LargeNC && side < 2 && UnmoveFits(a, mv, side)
    requires mv.promoted <= bK && Capacity(UndoBoard(a, mv, side))
    ensures !mv.castle && mv.enPas ==> Count(a, PawnOf(Other(side))) < 10
  {
    if !mv.castle && mv.enPas {
      LaterStagesKeepOther(a, mv, side);
      CountPlaced(a, EpVictim(mv.to, side), PawnOf(Other(side)), PawnOf(Other(side)));
      assert Count(UndoBoard(a, mv, side), PawnOf(Other(side))) <= 10;
    }
  }

  /** Taking back a promotion adds a pawn of the mover's colour, never a piece
      of the captured colour. */
  lemma UnpromoteKeepsCaptured(b: seq<nat>, mv: MoveParts, p: nat)
    requires |b| == LargeNC && OnBoard(mv.from) && mv.promoted <= bK
    requires mv.promoted != EMPTY ==> b[mv.from] == mv.promoted && p != mv.promoted
    requires mv.promoted != EMPTY ==> p != PawnOf(PieceCol[mv.promoted])
    ensures Count(UnpromoteBoard(b, mv), p) == Count(b, p)
  {
    if mv.promoted != EMPTY {
      CountPlaced(b, mv.from, EMPTY, p);
      CountPlaced(Cleared(b, mv.from), mv.from, PawnOf(PieceCol[mv.promoted]), p);
    }
  }

  /** Putting back a captured piece leaves room in its list. */
  lemma CaptureRoom(a: seq<nat>, mv: MoveParts, side: nat)
    requires |a| == LargeNC && side < 2 && UnmoveFits(a, mv, side)
    requires mv.promoted <= bK && Capacity(UndoBoard(a, mv, side))
    ensures |UnmoveBoard(SpecialBackBoard(a, mv, side), mv)| == LargeNC
    ensures mv.captured != EMPTY ==>
      Count(UnmoveBoard(SpecialBackBoard(a, mv, side), mv), mv.captured) < 10
  {
    if mv.captured != EMPTY {
      CaptureRoomOf(a, mv, side);
    }
  }

  lemma CaptureRoomOf(a: seq<nat>, mv: MoveParts, side: nat)
    requires |a| == LargeNC && side < 2 && UnmoveFits(a, mv, side)
    requires mv.captured != EMPTY && mv.promoted <= bK
    requires Capacity(UndoBoard(a, mv, side))
    ensures |UnmoveBoard(SpecialBackBoard(a, mv, side), mv)| == LargeNC
    ensures Count(UnmoveBoard(SpecialBackBoard(a, mv, side), mv), mv.captured) < 10
  {
    UnwindCells(a, mv, side);
    var a2 := UnmoveBoard(SpecialBackBoard(a, mv, side), mv);
    var a3 := UncaptureBoard(a2, mv);
    CountPlaced(a2, mv.to, mv.captured, mv.captured);
    if mv.promoted != EMPTY {
      PieceTablesAgree(mv.promoted);
    }
    UnpromoteKeepsCaptured(a3, mv, mv.captured);
    assert Count(UndoBoard(a, mv, side), mv.captured) <= 10;
  }

  /** Turning a promoted piece back into a pawn leaves room in the pawn list. */
  lemma PromotionRoom(a: seq<nat>, mv: MoveParts, side: nat)
    requires |a| == LargeNC && side < 2 && UnmoveFits(a, mv, side)
    requires mv.promoted <= bK && Capacity(UndoBoard(a, mv, side))
    ensures |UncaptureBoard(UnmoveBoard(SpecialBackBoard(a, mv, side), mv), mv)| == LargeNC
    ensures mv.promoted != EMPTY ==> PawnOf(PieceCol[mv.promoted]) == PawnOf(side)
    ensures mv.promoted != EMPTY ==>
      Count(UncaptureBoard(UnmoveBoard(SpecialBackBoard(a, mv, side), mv), mv), PawnOf(side)) < 10
  {
    if mv.promoted != EMPTY {
      PromotionRoomOf(a, mv, side);
    }
  }

  lemma PromotionRoomOf(a: seq<nat>, mv: MoveParts, side: nat)
    requires |a| == LargeNC && side < 2 && UnmoveFits(a, mv, side)
    requires mv.promoted != EMPTY && mv.promoted <= bK
    requires Capacity(UndoBoard(a, mv, side))
    ensures |UncaptureBoard(UnmoveBoard(SpecialBackBoard(a, mv, side), mv), mv)| == LargeNC
    ensures PawnOf(PieceCol[mv.promoted]) == PawnOf(side)
    ensures Count(UncaptureBoard(UnmoveBoard(SpecialBackBoard(a, mv, side), mv), mv), PawnOf(side)) < 10
  {
    UnwindCells(a, mv, side);
    var a3 := UncaptureBoard(UnmoveBoard(SpecialBackBoard(a, mv, side), mv), mv);
    PieceTablesAgree(mv.promoted);
    CountPlaced(a3, mv.from, EMPTY, PawnOf(side));
    CountPlaced(Cleared(a3, mv.from), mv.from, PawnOf(side), PawnOf(side));
    assert Count(UndoBoard(a, mv, side), PawnOf(side)) <= 10;
  }

  /** The boards `takeBackMove` can take a move by `side` back on without
      overfilling a piece list. */
  predicate Undoable(a: seq<nat>, mv: MoveParts, side: nat)
    requires |a| == LargeNC && side < 2
  {
    && UnmoveFits(a, mv, side) && mv.promoted <= bK
    && Capacity(UndoBoard(a, mv, side))
  }

  /** A move played on a board it fits can be taken back on the result, and
      taking it back needs no more room than the board it was played on. */
  lemma PlayUndoable(b: seq<nat>, mv: MoveParts, side: nat)
    requires |b| == LargeNC && side < 2 && MoveFits(b, mv, side) && Capacity(b)
    ensures OnBoard(mv.from) && OnBoard(mv.to) && mv.promoted <= bK
    ensures |PlayBoard(b, mv, side)| == LargeNC && Undoable(PlayBoard(b, mv, side), mv, side)
  {
    FitSquares(b, mv, side);
    PlayUnmoveFits(b, mv, side);
    UndoPlayBoard(b, mv, side);
  }
}
