/** The range predicates of include/valid.hpp, which the debug build uses as
    preconditions of the board primitives. */
module Ranges {
  import opened Constants

  /** `isOnBoard`: the square's `bFiles` entry is not `OFFBOARD`. The table has
      120 entries, so the caller must pass a padded-board square. */
  predicate IsOnBoard(sq: nat)
    requires sq < LargeNC
  {
    BFiles[sq] != OFFBOARD
  }

  /** `isOnBoard` holds exactly on the 64 squares of the real board: rows 2..9
      and columns 1..8 of the padded board. */
  lemma IsOnBoardExactly(sq: nat)
    requires sq < LargeNC
    ensures IsOnBoard(sq) <==> 21 <= sq <= 98 && 1 <= sq % 10 <= 8
  {
    GeometryAt(sq);
  }

  /** `isSideValid`. */
  predicate IsSideValid(side: nat) {
    side == WHITE || side == BLACK
  }

  /** `isFileRankValid`; the `fr >= 0` half always holds for an unsigned value. */
  predicate IsFileRankValid(fr: nat) {
    fr <= 7
  }

  /** `isPieceValidOrEmpty`. */
  predicate IsPieceValidOrEmpty(piece: nat) {
    EMPTY <= piece <= bK
  }

  /** `isPieceValid`. */
  predicate IsPieceValid(piece: nat) {
    wP <= piece <= bK
  }

  /** A valid file and a valid rank name an on-board square, and an on-board
      square has a valid file and rank. */
  lemma FileRankOnBoard(file: nat, rank: nat)
    requires IsFileRankValid(file) && IsFileRankValid(rank)
    ensures ConvertFR(file, rank) < LargeNC && IsOnBoard(ConvertFR(file, rank))
  {
    ConvertFRInverse(file, rank);
    GeometryAt(ConvertFR(file, rank));
  }

  lemma OnBoardFileRank(sq: nat)
    requires sq < LargeNC && IsOnBoard(sq)
    ensures 0 <= FileOf(sq) && 0 <= RankOf(sq)
    ensures IsFileRankValid(FileOf(sq)) && IsFileRankValid(RankOf(sq))
    ensures BFiles[sq] == FileOf(sq) && BRanks[sq] == RankOf(sq)
  {
    GeometryAt(sq);
    assert OnBoard(sq);
    OnBoardIsConvertFR(sq);
  }

  /** The valid pieces are exactly the codes with a colour in `pieceCol`, and
      the valid sides are the two colours pieces can have. */
  lemma PieceValidByColour(piece: nat)
    requires IsPieceValidOrEmpty(piece)
    ensures IsPieceValid(piece) <==> PieceCol[piece] != BOTH
    ensures IsPieceValid(piece) ==> IsSideValid(PieceCol[piece])
  {
  }
}
