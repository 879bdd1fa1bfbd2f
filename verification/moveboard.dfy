/** What `makeMove` and `takeBackMove` of src/makemove.cpp do to the 120 board
    cells alone, with the move's packed word already unpacked. The position
    level (hash, counters, lists, history) is in module MakeMove. */
module MoveBoard {
  import opened Constants
  import opened Ranges
  import opened Moves
  import Arith

  // ---------------------------------------------------------------------
  // The move as makeMove reads it
  // ---------------------------------------------------------------------

  /** The fields `makeMove` reads through the getters. */
  datatype MoveParts = MoveParts(
    from: nat, to: nat, captured: nat, promoted: nat,
    castle: bool, enPas: bool, pawnStart: bool)

  /** `getFrom`, `getTo`, `getCaptured`, `getPromoted` and the three flag tests;
      the castle test is the corrected one that masks the `castle` flag. */
  function Parts(m: Move): (mv: MoveParts)
    ensures mv.from < 128 && mv.to < 128 && mv.captured < 16 && mv.promoted < 16
  {
    MoveParts(GetFrom(m), GetTo(m), GetCaptured(m), GetPromoted(m),
              GetCastle(m) != 0, GetEnPas(m) != 0, GetPawnStart(m) != 0)
  }

  /** A move built by the five-argument constructor unpacks to its arguments. */
  lemma PartsOfNewMove(from: nat, to: nat, captured: nat, promoted: nat, fl: bv32)
    requires from < 128 && to < 128 && captured < 16 && promoted < 16 && IsFlag(fl)
    ensures Parts(NewMove(from, to, captured, promoted, fl))
         == MoveParts(from, to, captured, promoted, fl == CASTLE, fl == EN_PAS, fl == PAWN_START)
  {
    NewMoveFields(from, to, captured, promoted, fl);
  }

  /** `Color(side ^ 1)` on a colour. */
  function Other(side: nat): nat
    requires side < 2
  {
    1 - side
  }

  function PawnOf(side: nat): nat {
    if side == WHITE then wP else bP
  }

  function KingOf(side: nat): nat {
    if side == WHITE then wK else bK
  }

  function RookOf(side: nat): nat {
    if side == WHITE then wR else bR
  }

  /** The four king targets of a castling move. */
  predicate IsCastleTarget(to: nat) {
    to == C1 || to == C8 || to == G1 || to == G8
  }

  /** Where the castling rook starts and ends, chosen by the king's target. */
  function RookFrom(to: nat): nat {
    if to == C1 then A1 else if to == C8 then A8 else if to == G1 then H1 else H8
  }

  function RookTo(to: nat): nat {
    if to == C1 then D1 else if to == C8 then D8 else if to == G1 then F1 else F8
  }

  /** The square of the pawn taken en passant: behind `to` as seen by `side`. */
  function EpVictim(to: nat, side: nat): nat
    requires OnBoard(to)
  {
    if side == WHITE then to - 10 else to + 10
  }

  /** The en-passant square a double push from `from` leaves. */
  function SkippedSquare(from: nat, side: nat): nat
    requires OnBoard(from)
  {
    if side == WHITE then from + 10 else from - 10
  }

  /** The square a double push skips is on the third rank of the mover. */
  lemma SkippedRank(from: nat, side: nat)
    requires OnBoard(from) && side < 2 && StartRank(from, side)
    ensures SkippedSquare(from, side) < LargeNC
    ensures BRanks[SkippedSquare(from, side)] == if side == WHITE then RANK_3 else RANK_6
  {
    var q, f := from / 10, from % 10;
    var sq := SkippedSquare(from, side);
    if side == WHITE {
      Arith.DivModUnique(sq, 10, q + 1, f);
    } else {
      Arith.DivModUnique(sq, 10, q - 1, f);
    }
    GeometryAt(sq);
  }

  /** The rank a pawn of `side` starts on. */
  predicate StartRank(sq: nat, side: nat) {
    RankOf(sq) == if side == WHITE then RANK_2 else RANK_7
  }

  // ---------------------------------------------------------------------
  // Moves that fit a board
  // ---------------------------------------------------------------------

  /** A castling move: the king on its home square goes to one of its side's
      two targets, the rook it moves with is home and the rook's target is
      free. */
  predicate CastleFits(b: seq<nat>, mv: MoveParts, side: nat)
    requires |b| == LargeNC
  {
    && (if side == WHITE then mv.to == C1 || mv.to == G1 else mv.to == C8 || mv.to == G8)
    && mv.from == (if side == WHITE then E1 else E8)
    && b[mv.from] == KingOf(side)
    && b[RookFrom(mv.to)] == RookOf(side) && b[RookTo(mv.to)] == EMPTY
    && mv.captured == EMPTY && mv.promoted == EMPTY
  }

  /** An en-passant capture: a pawn moves to an empty square behind an enemy
      pawn. */
  predicate EnPasFits(b: seq<nat>, mv: MoveParts, side: nat)
    requires |b| == LargeNC && side < 2 && OnBoard(mv.from) && OnBoard(mv.to)
  {
    && b[mv.from] == PawnOf(side)
    && OnBoard(EpVictim(mv.to, side))
    && b[EpVictim(mv.to, side)] == PawnOf(Other(side))
    && mv.captured == EMPTY && mv.promoted == EMPTY
  }

  /** A promotion: a pawn becomes a knight, bishop, rook or queen of its own
      colour. */
  predicate PromotionFits(b: seq<nat>, mv: MoveParts, side: nat)
    requires |b| == LargeNC && mv.from < LargeNC
  {
    && !mv.castle && !mv.enPas
    && b[mv.from] == PawnOf(side)
    && IsPieceValid(mv.promoted) && PieceCol[mv.promoted] == side
    && !IsPawn(mv.promoted) && !PieceK[mv.promoted]
  }

  /** The moves the generator emits for `side` on board `b`: a piece of `side`
      moves from `from` to `to`; a capture names the enemy piece, never a
      king, standing on `to`; otherwise `to` is empty; the flags describe a
      castling, en-passant, promotion or double-push move that fits the
      board. */
  predicate MoveFits(b: seq<nat>, mv: MoveParts, side: nat)
    requires |b| == LargeNC && side < 2
  {
    && OnBoard(mv.from) && OnBoard(mv.to)
    && IsPieceValid(b[mv.from]) && PieceCol[b[mv.from]] == side
    && (mv.captured == EMPTY ==> b[mv.to] == EMPTY)
    && (mv.captured != EMPTY ==>
          b[mv.to] == mv.captured && IsPieceValid(mv.captured)
          && PieceCol[mv.captured] != side && !PieceK[mv.captured])
    && (mv.castle ==> CastleFits(b, mv, side))
    && (!mv.castle && mv.enPas ==> EnPasFits(b, mv, side))
    && (mv.promoted != EMPTY ==> PromotionFits(b, mv, side))
    && (mv.pawnStart ==> b[mv.from] == PawnOf(side) && StartRank(mv.from, side))
  }

  // ---------------------------------------------------------------------
  // Boards a move can be taken back on
  // ---------------------------------------------------------------------

  /** After castling: the king on its target, the rook beside it, the rook's
      home square empty. */
  predicate CastleUnfits(a: seq<nat>, mv: MoveParts, side: nat)
    requires |a| == LargeNC
  {
    && (if side == WHITE then mv.to == C1 || mv.to == G1 else mv.to == C8 || mv.to == G8)
    && mv.from == (if side == WHITE then E1 else E8)
    && a[RookTo(mv.to)] == RookOf(side) && a[RookFrom(mv.to)] == EMPTY
    && mv.captured == EMPTY && mv.promoted == EMPTY
  }

  /** After an en-passant capture: the square of the taken pawn is empty. */
  predicate EnPasUnfits(a: seq<nat>, mv: MoveParts, side: nat)
    requires |a| == LargeNC && side < 2 && OnBoard(mv.to)
  {
    && OnBoard(EpVictim(mv.to, side)) && EpVictim(mv.to, side) != mv.from
    && a[EpVictim(mv.to, side)] == EMPTY
    && mv.captured == EMPTY && mv.promoted == EMPTY
  }

  /** After a promotion: the new piece of the mover's colour stands on `to`. */
  predicate PromotionUnfits(a: seq<nat>, mv: MoveParts, side: nat)
    requires |a| == LargeNC && mv.to < LargeNC
  {
    && !mv.castle && !mv.enPas
    && a[mv.to] == mv.promoted
    && IsPieceValid(mv.promoted) && PieceCol[mv.promoted] == side
    && !IsPawn(mv.promoted) && !PieceK[mv.promoted]
  }

  /** The boards `takeBackMove` expects for a move by `side`: the mover's piece
      on `to`, `from` empty, the captured piece of the other colour, and the
      castling, en-passant and promotion leftovers in place. */
  predicate UnmoveFits(a: seq<nat>, mv: MoveParts, side: nat)
    requires |a| == LargeNC && side < 2
  {
    && OnBoard(mv.from) && OnBoard(mv.to) && mv.from != mv.to
    && IsPieceValid(a[mv.to]) && PieceCol[a[mv.to]] == side && a[mv.from] == EMPTY
    && (mv.captured != EMPTY ==> IsPieceValid(mv.captured) && PieceCol[mv.captured] != side)
    && (mv.castle ==> CastleUnfits(a, mv, side))
    && (!mv.castle && mv.enPas ==> EnPasUnfits(a, mv, side))
    && (mv.promoted != EMPTY ==> PromotionUnfits(a, mv, side))
  }

  // ---------------------------------------------------------------------
  // Cell writes
  // ---------------------------------------------------------------------

  /** `movePiece`'s writes: `from` is emptied and `to` gets its piece. */
  function Moved(b: seq<nat>, from: nat, to: nat): (r: seq<nat>)
    requires from < |b| && to < |b|
    ensures |r| == |b|
  {
    b[from := EMPTY][to := b[from]]
  }

  /** The moved piece stands on `to`. */
  lemma MovedTo(b: seq<nat>, from: nat, to: nat)
    requires from < |b| && to < |b|
    ensures |Moved(b, from, to)| == |b| && Moved(b, from, to)[to] == b[from]
  {
  }

  /** `clearPiece`'s write. */
  function Cleared(b: seq<nat>, sq: nat): (r: seq<nat>)
    requires sq < |b|
    ensures |r| == |b|
  {
    b[sq := EMPTY]
  }

  /** `addPiece`'s write. */
  function Placed(b: seq<nat>, sq: nat, piece: nat): (r: seq<nat>)
    requires sq < |b|
    ensures |r| == |b|
  {
    b[sq := piece]
  }

  /** `pieceK[getPiece(sq)]`: a king stands on `sq`. */
  predicate KingOn(b: seq<nat>, sq: nat)
    requires sq < |b|
  {
    b[sq] < |PieceK| && PieceK[b[sq]]
  }

  /** The king squares after a piece of `side` lands on `sq`: recorded there
      when it is a king. */
  function KingsAfter(kings: seq<nat>, b: seq<nat>, side: nat, sq: nat): seq<nat>
    requires |kings| == 2 && side < 2 && sq < |b|
  {
    if KingOn(b, sq) then kings[side := sq] else kings
  }

  // ---------------------------------------------------------------------
  // The board writes of makeMove
  // ---------------------------------------------------------------------

  /** The castling rook's move, or the removal of the pawn taken en passant. */
  function SpecialBoard(b: seq<nat>, mv: MoveParts, side: nat): (r: seq<nat>)
    requires |b| == LargeNC && OnBoard(mv.to)
    ensures |r| == |b|
  {
    if mv.castle then Moved(b, RookFrom(mv.to), RookTo(mv.to))
    else if mv.enPas then Cleared(b, EpVictim(mv.to, side))
    else b
  }

  /** The captured piece leaves `to`. */
  function CaptureBoard(b: seq<nat>, mv: MoveParts): (r: seq<nat>)
    requires |b| == LargeNC && OnBoard(mv.to)
    ensures |r| == |b|
  {
    if mv.captured != EMPTY then Cleared(b, mv.to) else b
  }

  /** The piece goes from `from` to `to`, and a promoted pawn is replaced. */
  function RelocateBoard(b: seq<nat>, mv: MoveParts): (r: seq<nat>)
    requires |b| == LargeNC && OnBoard(mv.from) && OnBoard(mv.to)
    ensures |r| == |b|
  {
    var moved := Moved(b, mv.from, mv.to);
    if mv.promoted != EMPTY then Placed(Cleared(moved, mv.to), mv.to, mv.promoted) else moved
  }

  /** The board after `makeMove`, before any take-back. */
  function PlayBoard(b: seq<nat>, mv: MoveParts, side: nat): (r: seq<nat>)
    requires |b| == LargeNC && OnBoard(mv.from) && OnBoard(mv.to)
    ensures |r| == |b|
  {
    RelocateBoard(CaptureBoard(SpecialBoard(b, mv, side), mv), mv)
  }

  // ---------------------------------------------------------------------
  // The board writes of takeBackMove
  // ---------------------------------------------------------------------

  /** The castling rook goes home, or the pawn taken en passant comes back. */
  function SpecialBackBoard(b: seq<nat>, mv: MoveParts, side: nat): (r: seq<nat>)
    requires |b| == LargeNC && OnBoard(mv.to) && side < 2
    ensures |r| == |b|
  {
    if mv.castle then Moved(b, RookTo(mv.to), RookFrom(mv.to))
    else if mv.enPas then Placed(b, EpVictim(mv.to, side), PawnOf(Other(side)))
    else b
  }

  /** The piece goes back from `to` to `from`. */
  function UnmoveBoard(b: seq<nat>, mv: MoveParts): (r: seq<nat>)
    requires |b| == LargeNC && OnBoard(mv.from) && OnBoard(mv.to)
    ensures |r| == |b|
  {
    Moved(b, mv.to, mv.from)
  }

  /** The captured piece returns to `to`. */
  function UncaptureBoard(b: seq<nat>, mv: MoveParts): (r: seq<nat>)
    requires |b| == LargeNC && OnBoard(mv.to)
    ensures |r| == |b|
  {
    if mv.captured != EMPTY then Placed(b, mv.to, mv.captured) else b
  }

  /** A promoted piece turns back into a pawn of its colour. */
  function UnpromoteBoard(b: seq<nat>, mv: MoveParts): (r: seq<nat>)
    requires |b| == LargeNC && OnBoard(mv.from) && mv.promoted <= bK
    ensures |r| == |b|
  {
    if mv.promoted != EMPTY then Placed(Cleared(b, mv.from), mv.from, PawnOf(PieceCol[mv.promoted])) else b
  }

  /** The board after `takeBackMove` of a move by `side`. */
  function UndoBoard(b: seq<nat>, mv: MoveParts, side: nat): (r: seq<nat>)
    requires |b| == LargeNC && OnBoard(mv.from) && OnBoard(mv.to) && side < 2 && mv.promoted <= bK
    ensures |r| == |b|
  {
    UnpromoteBoard(UncaptureBoard(UnmoveBoard(SpecialBackBoard(b, mv, side), mv), mv), mv)
  }

  // ---------------------------------------------------------------------
  // Facts about the board writes
  // ---------------------------------------------------------------------

  /** The squares a fitting move touches are distinct where they must be. */
  lemma FitSquares(b: seq<nat>, mv: MoveParts, side: nat)
    requires |b| == LargeNC && side < 2 && MoveFits(b, mv, side)
    ensures mv.from != mv.to
    ensures mv.castle ==> && IsCastleTarget(mv.to)
                          && RookFrom(mv.to) != mv.from && RookFrom(mv.to) != mv.to
                          && RookTo(mv.to) != mv.from && RookTo(mv.to) != mv.to
                          && RookFrom(mv.to) != RookTo(mv.to)
                          && OnBoard(RookFrom(mv.to)) && OnBoard(RookTo(mv.to))
    ensures !mv.castle && mv.enPas ==>
      EpVictim(mv.to, side) != mv.from && EpVictim(mv.to, side) != mv.to
  {
    PieceTablesAgree(b[mv.from]);
    if mv.captured != EMPTY {
      PieceTablesAgree(mv.captured);
    }
    if mv.castle {
      assert OnBoard(A1) && OnBoard(D1) && OnBoard(H1) && OnBoard(F1);
      assert OnBoard(A8) && OnBoard(D8) && OnBoard(H8) && OnBoard(F8);
    }
  }

  /** The special writes leave the move's own squares alone, and after the
      capture `from` still holds the mover and `to` is empty. */
  lemma SpecialKeeps(b: seq<nat>, mv: MoveParts, side: nat)
    requires |b| == LargeNC && side < 2 && MoveFits(b, mv, side)
    ensures |SpecialBoard(b, mv, side)| == LargeNC
    ensures SpecialBoard(b, mv, side)[mv.from] == b[mv.from]
    ensures SpecialBoard(b, mv, side)[mv.to] == b[mv.to]
    ensures mv.promoted != EMPTY ==> SpecialBoard(b, mv, side) == b
    ensures |CaptureBoard(SpecialBoard(b, mv, side), mv)| == LargeNC
    ensures CaptureBoard(SpecialBoard(b, mv, side), mv)[mv.from] == b[mv.from]
    ensures CaptureBoard(SpecialBoard(b, mv, side), mv)[mv.to] == EMPTY
  {
    FitSquares(b, mv, side);
  }

  /** The capture leaves `from` alone and `to` empty. */
  lemma CaptureKeeps(b: seq<nat>, mv: MoveParts)
    requires |b| == LargeNC && OnBoard(mv.to) && mv.from < LargeNC && mv.from != mv.to
    requires mv.captured == EMPTY ==> b[mv.to] == EMPTY
    ensures |CaptureBoard(b, mv)| == LargeNC
    ensures CaptureBoard(b, mv)[mv.from] == b[mv.from] && CaptureBoard(b, mv)[mv.to] == EMPTY
  {
  }

  /** Where `makeMove` writes: `from` is emptied, `to` gets the moving piece
      or its promotion, the castling rook moves, the pawn taken en passant
      goes, and every other cell keeps its piece. */
  lemma PlayBoardCells(b: seq<nat>, mv: MoveParts, side: nat, sq: nat)
    requires |b| == LargeNC && side < 2 && MoveFits(b, mv, side) && sq < LargeNC
    ensures |PlayBoard(b, mv, side)| == LargeNC
    ensures PlayBoard(b, mv, side)[sq] ==
      if sq == mv.to then (if mv.promoted != EMPTY then mv.promoted else b[mv.from])
      else if sq == mv.from then EMPTY
      else if mv.castle && sq == RookFrom(mv.to) then EMPTY
      else if mv.castle && sq == RookTo(mv.to) then RookOf(side)
      else if !mv.castle && mv.enPas && sq == EpVictim(mv.to, side) then EMPTY
      else b[sq]
  {
    FitSquares(b, mv, side);
  }

  /** Where `takeBackMove` writes, cell by cell, for a board `a` on which the
      move's own squares are distinct. */
  lemma UndoBoardCells(a: seq<nat>, mv: MoveParts, side: nat, sq: nat)
    requires |a| == LargeNC && OnBoard(mv.from) && OnBoard(mv.to) && side < 2 && mv.promoted <= bK
    requires mv.from != mv.to && sq < LargeNC
    requires mv.castle ==> && OnBoard(RookFrom(mv.to)) && OnBoard(RookTo(mv.to))
                           && RookFrom(mv.to) != RookTo(mv.to)
                           && RookFrom(mv.to) != mv.from && RookFrom(mv.to) != mv.to
                           && RookTo(mv.to) != mv.from && RookTo(mv.to) != mv.to
    requires !mv.castle && mv.enPas ==>
      EpVictim(mv.to, side) != mv.from && EpVictim(mv.to, side) != mv.to
    ensures |UndoBoard(a, mv, side)| == LargeNC
    ensures UndoBoard(a, mv, side)[sq] ==
      if sq == mv.from then (if mv.promoted != EMPTY then PawnOf(PieceCol[mv.promoted]) else a[mv.to])
      else if sq == mv.to then mv.captured
      else if mv.castle && sq == RookTo(mv.to) then EMPTY
      else if mv.castle && sq == RookFrom(mv.to) then a[RookTo(mv.to)]
      else if !mv.castle && mv.enPas && sq == EpVictim(mv.to, side) then PawnOf(Other(side))
      else a[sq]
  {
  }

  /** Taking a fitting move back restores one cell. */
  lemma UndoPlayCell(b: seq<nat>, mv: MoveParts, side: nat, sq: nat)
    requires |b| == LargeNC && side < 2 && MoveFits(b, mv, side) && sq < LargeNC
    ensures |UndoBoard(PlayBoard(b, mv, side), mv, side)| == LargeNC
    ensures UndoBoard(PlayBoard(b, mv, side), mv, side)[sq] == b[sq]
  {
    FitSquares(b, mv, side);
    var after := PlayBoard(b, mv, side);
    PlayBoardCells(b, mv, side, sq);
    PlayBoardCells(b, mv, side, mv.to);
    if mv.castle {
      PlayBoardCells(b, mv, side, RookTo(mv.to));
    }
    UndoBoardCells(after, mv, side, sq);
    if mv.promoted != EMPTY {
      PieceTablesAgree(mv.promoted);
    }
  }

  /** Taking a fitting move back restores every cell of the board. */
  lemma UndoPlayBoard(b: seq<nat>, mv: MoveParts, side: nat)
    requires |b| == LargeNC && side < 2 && MoveFits(b, mv, side)
    ensures UndoBoard(PlayBoard(b, mv, side), mv, side) == b
  {
    var back := UndoBoard(PlayBoard(b, mv, side), mv, side);
    forall sq | 0 <= sq < LargeNC
      ensures back[sq] == b[sq]
    {
      UndoPlayCell(b, mv, side, sq);
    }
    UndoPlayCell(b, mv, side, 0);
  }

  // ---------------------------------------------------------------------
  // King squares
  // ---------------------------------------------------------------------

  /** The recorded king squares hold the two kings. */
  predicate KingsOn(b: seq<nat>, kings: seq<nat>)
    requires |b| == LargeNC
  {
    && |kings| == 2 && kings[WHITE] < LargeNC && kings[BLACK] < LargeNC
    && b[kings[WHITE]] == wK && b[kings[BLACK]] == bK
  }

  /** A king that does not move keeps its square. */
  lemma PlayKeepsKing(b: seq<nat>, mv: MoveParts, side: nat, sq: nat)
    requires |b| == LargeNC && side < 2 && MoveFits(b, mv, side) && sq < LargeNC
    requires (b[sq] == wK || b[sq] == bK) && sq != mv.from
    ensures |PlayBoard(b, mv, side)| == LargeNC && PlayBoard(b, mv, side)[sq] == b[sq]
  {
    PlayBoardCells(b, mv, side, sq);
    if mv.captured != EMPTY {
      PieceTablesAgree(mv.captured);
    }
  }

  /** A king lands on `to` exactly when the mover is its side's king. */
  lemma PlayLandsKing(b: seq<nat>, mv: MoveParts, side: nat)
    requires |b| == LargeNC && side < 2 && MoveFits(b, mv, side)
    ensures |PlayBoard(b, mv, side)| == LargeNC
    ensures KingOn(PlayBoard(b, mv, side), mv.to) <==> b[mv.from] == KingOf(side)
    ensures KingOn(PlayBoard(b, mv, side), mv.to) ==> PlayBoard(b, mv, side)[mv.to] == KingOf(side)
  {
    PlayBoardCells(b, mv, side, mv.to);
    PieceTablesAgree(b[mv.from]);
    if mv.promoted != EMPTY {
      PieceTablesAgree(mv.promoted);
    }
  }

  /** After a move the updated king squares still hold the kings. */
  lemma PlayKingsOn(b: seq<nat>, mv: MoveParts, side: nat, kings: seq<nat>)
    requires |b| == LargeNC && side < 2 && MoveFits(b, mv, side) && KingsOn(b, kings)
    ensures |PlayBoard(b, mv, side)| == LargeNC
    ensures KingsOn(PlayBoard(b, mv, side), KingsAfter(kings, PlayBoard(b, mv, side), side, mv.to))
  {
    var a := PlayBoard(b, mv, side);
    PlayLandsKing(b, mv, side);
    if KingOn(a, mv.to) {
      var other := 1 - side;
      assert b[mv.from] != b[kings[other]];
      PlayKeepsKing(b, mv, side, kings[other]);
    } else {
      assert b[kings[side]] == KingOf(side);
      PlayKeepsKing(b, mv, side, kings[WHITE]);
      PlayKeepsKing(b, mv, side, kings[BLACK]);
    }
  }

  /** `takeBackMove`'s king update: a king that went back from `to` to `from`
      is recorded on `from`. */
  function KingsBack(kings: seq<nat>, a: seq<nat>, side: nat, mv: MoveParts): seq<nat>
    requires |kings| == 2 && side < 2 && mv.to < |a|
  {
    if KingOn(a, mv.to) then kings[side := mv.from] else kings
  }

  /** The king update after the piece went back reads the cell it left. */
  lemma KingsBackIs(kings: seq<nat>, b: seq<nat>, side: nat, mv: MoveParts)
    requires |kings| == 2 && side < 2 && |b| == LargeNC && OnBoard(mv.from) && OnBoard(mv.to)
    ensures |UnmoveBoard(b, mv)| == LargeNC
    ensures KingsAfter(kings, UnmoveBoard(b, mv), side, mv.from) == KingsBack(kings, b, side, mv)
  {
    MovedTo(b, mv.to, mv.from);
  }

  // ---------------------------------------------------------------------
  // Taking back
  // ---------------------------------------------------------------------

  /** A move played on a board it fits can be taken back on the result. */
  lemma PlayUnmoveFits(b: seq<nat>, mv: MoveParts, side: nat)
    requires |b| == LargeNC && side < 2 && MoveFits(b, mv, side)
    ensures |PlayBoard(b, mv, side)| == LargeNC && UnmoveFits(PlayBoard(b, mv, side), mv, side)
  {
    FitSquares(b, mv, side);
    PlayBoardCells(b, mv, side, mv.to);
    PlayBoardCells(b, mv, side, mv.from);
    PieceTablesAgree(b[mv.from]);
    if mv.castle {
      PlayBoardCells(b, mv, side, RookTo(mv.to));
      PlayBoardCells(b, mv, side, RookFrom(mv.to));
    } else if mv.enPas {
      PlayBoardCells(b, mv, side, EpVictim(mv.to, side));
    }
  }

  /** The squares `takeBackMove` touches are distinct where they must be. */
  lemma UnfitSquares(a: seq<nat>, mv: MoveParts, side: nat)
    requires |a| == LargeNC && side < 2 && UnmoveFits(a, mv, side)
    ensures mv.castle ==> && IsCastleTarget(mv.to)
                          && RookFrom(mv.to) != mv.from && RookFrom(mv.to) != mv.to
                          && RookTo(mv.to) != mv.from && RookTo(mv.to) != mv.to
                          && RookFrom(mv.to) != RookTo(mv.to)
                          && OnBoard(RookFrom(mv.to)) && OnBoard(RookTo(mv.to))
    ensures !mv.castle && mv.enPas ==>
      EpVictim(mv.to, side) != mv.from && EpVictim(mv.to, side) != mv.to
  {
    if mv.castle {
      assert OnBoard(A1) && OnBoard(D1) && OnBoard(H1) && OnBoard(F1);
      assert OnBoard(A8) && OnBoard(D8) && OnBoard(H8) && OnBoard(F8);
    }
  }

  /** The cells of the intermediate boards of a take-back that the later
      writes rely on. */
  lemma UnwindCells(a: seq<nat>, mv: MoveParts, side: nat)
    requires |a| == LargeNC && side < 2 && UnmoveFits(a, mv, side)
    ensures |SpecialBackBoard(a, mv, side)| == LargeNC
    ensures SpecialBackBoard(a, mv, side)[mv.from] == EMPTY
    ensures SpecialBackBoard(a, mv, side)[mv.to] == a[mv.to]
    ensures |UnmoveBoard(SpecialBackBoard(a, mv, side), mv)| == LargeNC
    ensures UnmoveBoard(SpecialBackBoard(a, mv, side), mv)[mv.to] == EMPTY
    ensures UnmoveBoard(SpecialBackBoard(a, mv, side), mv)[mv.from] == a[mv.to]
    ensures |UncaptureBoard(UnmoveBoard(SpecialBackBoard(a, mv, side), mv), mv)| == LargeNC
    ensures UncaptureBoard(UnmoveBoard(SpecialBackBoard(a, mv, side), mv), mv)[mv.from] == a[mv.to]
  {
    UnfitSquares(a, mv, side);
  }

  /** The rook or pawn a take-back restores first does not change whether a
      king stands on `to`. */
  lemma SpecialBackKings(kings: seq<nat>, a: seq<nat>, mv: MoveParts, side: nat)
    requires |kings| == 2 && |a| == LargeNC && side < 2 && UnmoveFits(a, mv, side)
    ensures KingsBack(kings, SpecialBackBoard(a, mv, side), side, mv) == KingsBack(kings, a, side, mv)
  {
    UnwindCells(a, mv, side);
  }

  /** The king squares a move records and its take-back records again are the
      ones before the move, when a king that moves was recorded where it
      stood. */
  lemma KingsRoundTrip(b: seq<nat>, mv: MoveParts, side: nat, kings: seq<nat>)
    requires |b| == LargeNC && side < 2 && MoveFits(b, mv, side) && |kings| == 2
    requires b[mv.from] == KingOf(side) ==> kings[side] == mv.from
    ensures |PlayBoard(b, mv, side)| == LargeNC
    ensures KingsBack(KingsAfter(kings, PlayBoard(b, mv, side), side, mv.to),
                      PlayBoard(b, mv, side), side, mv) == kings
  {
    PlayLandsKing(b, mv, side);
  }
}
