/** The board geometry, piece tables and bit helpers of
    include/board_constants.hpp. The geometry tables are built with the
    generators of include/util.hpp exactly as the header builds them, and the
    lemmas give their closed forms. */
module Constants {
  import opened Arith
  import Util

  // ---------------------------------------------------------------------
  // Enumerations
  // ---------------------------------------------------------------------

  /** Colours. */
  const WHITE: nat := 0
  const BLACK: nat := 1
  const BOTH: nat := 2

  /** Pieces; `EMPTY` marks an empty square. */
  const EMPTY: nat := 0
  const wP: nat := 1
  const wN: nat := 2
  const wB: nat := 3
  const wR: nat := 4
  const wQ: nat := 5
  const wK: nat := 6
  const bP: nat := 7
  const bN: nat := 8
  const bB: nat := 9
  const bR: nat := 10
  const bQ: nat := 11
  const bK: nat := 12

  /** Files and ranks. */
  const FILE_A: nat := 0
  const FILE_H: nat := 7
  const RANK_1: nat := 0
  const RANK_2: nat := 1
  const RANK_3: nat := 2
  const RANK_6: nat := 5
  const RANK_7: nat := 6
  const RANK_8: nat := 7

  /** The squares the castling and pawn code name; `A1 = 21` and each rank
      adds 10. */
  const A1: nat := 21
  const C1: nat := 23
  const D1: nat := 24
  const E1: nat := 25
  const F1: nat := 26
  const G1: nat := 27
  const H1: nat := 28
  const H7: nat := 88
  const A8: nat := 91
  const E8: nat := 95
  const C8: nat := 93
  const D8: nat := 94
  const F8: nat := 96
  const G8: nat := 97
  const H8: nat := 98
  const NO_SQ: nat := 99
  const OFFBOARD: nat := 100

  /** Castling permission bits. */
  const WKC: bv8 := 1
  const WQC: bv8 := 2
  const BKC: bv8 := 4
  const BQC: bv8 := 8

  /** Sizes: the padded board, the real board, a move list. */
  const LargeNC: nat := 120
  const RegularNC: nat := 64
  const MaxMoves: nat := 256

  /** `INT_MAX` of a 32-bit `int`. */
  const INT_MAX: int := 0x7FFF_FFFF

  // ---------------------------------------------------------------------
  // Piece tables, indexed by piece
  // ---------------------------------------------------------------------

  const PieceBig: seq<bool> :=
    [false, false, true, true, true, true, true, false, true, true, true, true, true]
  const PieceMaj: seq<bool> :=
    [false, false, false, false, true, true, true, false, false, false, true, true, true]
  const PieceMin: seq<bool> :=
    [false, false, true, true, false, false, false, false, true, true, false, false, false]

  /** `pieceVal` as include/board_constants.hpp writes it: the king is worth
      `INT_MAX`. */
  const PieceValAsWritten: seq<int> :=
    [0, 100, 325, 325, 550, 1000, INT_MAX, 100, 325, 325, 550, 1000, INT_MAX]

  /** `pieceVal` with the king worth 50000, as h/board_constants.h writes it;
      the material counters of the model use this table. */
  const PieceVal: seq<int> :=
    [0, 100, 325, 325, 550, 1000, 50000, 100, 325, 325, 550, 1000, 50000]

  const PieceCol: seq<nat> :=
    [BOTH, WHITE, WHITE, WHITE, WHITE, WHITE, WHITE, BLACK, BLACK, BLACK, BLACK, BLACK, BLACK]
  const PieceN: seq<bool> :=
    [false, false, true, false, false, false, false, false, true, false, false, false, false]
  const PieceK: seq<bool> :=
    [false, false, false, false, false, false, true, false, false, false, false, false, true]
  const PieceRQ: seq<bool> :=
    [false, false, false, false, true, true, false, false, false, false, true, true, false]

  /** `pieceBQ` ("is bishop or queen?") as written: true for wR, wK, bB and bQ. */
  const PieceBQAsWritten: seq<bool> :=
    [false, false, false, false, true, false, true, false, false, true, false, true, false]

  /** `pieceBQ` as its comment describes it: true for wB, wQ, bB and bQ. */
  const PieceBQ: seq<bool> :=
    [false, false, false, true, false, true, false, false, false, true, false, true, false]

  const PieceSlides: seq<bool> :=
    [false, false, false, true, true, true, false, false, false, true, true, true, false]

  /** Pawns, the pieces whose `pieceBig` entry is false. */
  predicate IsPawn(p: nat) {
    p == wP || p == bP
  }

  /** Square offsets. The source stores them in `size_t`, so a negative offset
      wraps and the addition `sq + offset` wraps back; on the padded board this
      is plain integer addition. */
  const KnightMoves: seq<int> := [-8, -19, -21, -12, 8, 19, 21, 12]
  const KingMoves: seq<int> := [-1, -10, 1, 10, -9, -11, 11, 9]
  const BishopMoves: seq<int> := [-9, -11, 11, 9, 0, 0, 0, 0]
  const RookMoves: seq<int> := [-1, -10, 1, 10, 0, 0, 0, 0]
  const NoMoves: seq<int> := [0, 0, 0, 0, 0, 0, 0, 0]

  const PieceDirections: seq<seq<int>> :=
    [NoMoves,
     NoMoves, KnightMoves, BishopMoves, RookMoves, KingMoves, KingMoves,
     NoMoves, KnightMoves, BishopMoves, RookMoves, KingMoves, KingMoves]

  const DirectionNumber: seq<nat> := [0, 0, 8, 4, 4, 8, 8, 0, 8, 4, 4, 8, 8]

  /** Every table holds one entry per piece and `EMPTY`. */
  lemma PieceTableSizes()
    ensures |PieceBig| == |PieceMaj| == |PieceMin| == |PieceVal| == |PieceValAsWritten| == 13
    ensures |PieceCol| == |PieceN| == |PieceK| == |PieceRQ| == |PieceBQ| == |PieceBQAsWritten| == 13
    ensures |PieceSlides| == |PieceDirections| == |DirectionNumber| == 13
  {
  }

  /** The piece tables describe the pieces consistently: big pieces are the
      non-pawns, each big piece is either major or minor, white pieces are
      `wP..wK` and the black ones the same six moved up by six, each black
      piece shares every property of its white counterpart, and the corrected
      `pieceVal` differs from the written one only in the kings' 50000. */
  lemma PieceTablesAgree(p: nat)
    requires 1 <= p <= 12
    ensures PieceBig[p] <==> !IsPawn(p)
    ensures PieceBig[p] <==> PieceMaj[p] != PieceMin[p]
    ensures !PieceBig[p] ==> !PieceMaj[p] && !PieceMin[p]
    ensures PieceCol[p] == if p <= wK then WHITE else BLACK
    ensures PieceK[p] <==> p == wK || p == bK
    ensures PieceN[p] <==> p == wN || p == bN
    ensures PieceK[p] ==> PieceVal[p] == 50000 && PieceValAsWritten[p] == INT_MAX
    ensures !PieceK[p] ==> PieceVal[p] == PieceValAsWritten[p]
    ensures p <= wK ==>
      && PieceBig[p] == PieceBig[p + 6] && PieceMaj[p] == PieceMaj[p + 6]
      && PieceMin[p] == PieceMin[p + 6] && PieceVal[p] == PieceVal[p + 6]
      && PieceN[p] == PieceN[p + 6] && PieceK[p] == PieceK[p + 6]
      && PieceRQ[p] == PieceRQ[p + 6] && PieceBQ[p] == PieceBQ[p + 6]
      && PieceSlides[p] == PieceSlides[p + 6]
      && PieceDirections[p] == PieceDirections[p + 6]
      && DirectionNumber[p] == DirectionNumber[p + 6]
  {
  }

  /** The direction table lists exactly `directionNumber[p]` non-zero offsets
      for each piece, the sliding pieces are exactly the ones with a rook or a
      bishop step, and `pieceRQ` / the corrected `pieceBQ` mark the sliders
      whose directions hold an orthogonal / a diagonal step. */
  lemma DirectionsAgree(p: nat)
    requires p <= 12
    ensures |PieceDirections[p]| == 8 && DirectionNumber[p] <= 8
    ensures forall i :: 0 <= i < 8 ==> (PieceDirections[p][i] != 0 <==> i < DirectionNumber[p])
    ensures PieceRQ[p] <==> PieceSlides[p] && 10 in PieceDirections[p]
    ensures PieceBQ[p] <==> PieceSlides[p] && 9 in PieceDirections[p]
    ensures PieceSlides[p] <==> PieceRQ[p] || PieceBQ[p]
  {
    if p == 0 || p == wP || p == bP {
      assert PieceDirections[p] == NoMoves;
    } else if p == wN || p == bN {
      assert PieceDirections[p] == KnightMoves;
    } else if p == wK || p == bK {
      assert PieceDirections[p] == KingMoves;
    } else if p == wB || p == bB {
      assert PieceDirections[p] == BishopMoves;
      assert BishopMoves[3] == 9;
    } else if p == wR || p == bR {
      assert PieceDirections[p] == RookMoves;
      assert RookMoves[3] == 10;
    } else {
      assert PieceDirections[p] == KingMoves;
      assert KingMoves[3] == 10 && KingMoves[7] == 9;
    }
  }

  /** `pieceBQ` as written marks the white rook and the white king, which
      slide diagonally in no direction, and misses the white bishop. */
  lemma PieceBQAsWrittenWrong()
    ensures PieceBQAsWritten[wR] && !(PieceSlides[wR] && 9 in PieceDirections[wR])
    ensures PieceBQAsWritten[wK] && !PieceSlides[wK]
    ensures !PieceBQAsWritten[wB] && PieceSlides[wB] && 9 in PieceDirections[wB]
  {
    assert PieceDirections[wB][3] == 9;
  }

  /** With the king worth `INT_MAX`, the material of a king and one pawn no
      longer fits a 32-bit `int`; with 50000 ten of every piece still does. */
  lemma PieceValOverflow()
    ensures PieceValAsWritten[wK] + PieceValAsWritten[wP] > INT_MAX
    ensures 10 * (PieceVal[wP] + PieceVal[wN] + PieceVal[wB] + PieceVal[wR] + PieceVal[wQ] + PieceVal[wK]) <= INT_MAX
  {
  }

  // ---------------------------------------------------------------------
  // Board geometry
  // ---------------------------------------------------------------------

  /** `convertFR`: the padded-board index of a file and rank. */
  function ConvertFR(file: int, rank: int): int {
    21 + file + 10 * rank
  }

  /** A square of the 8 x 8 board inside the 10 x 12 padded board. */
  predicate OnBoard(sq: int) {
    0 <= sq < LargeNC && 2 <= sq / 10 <= 9 && 1 <= sq % 10 <= 8
  }

  /** File and rank of a padded-board square. */
  function FileOf(sq: int): int { sq % 10 - 1 }
  function RankOf(sq: int): int { sq / 10 - 2 }

  /** A file and rank on the board name an on-board square, and the square
      gives them back. */
  lemma ConvertFRInverse(file: int, rank: int)
    requires 0 <= file < 8 && 0 <= rank < 8
    ensures OnBoard(ConvertFR(file, rank))
    ensures FileOf(ConvertFR(file, rank)) == file && RankOf(ConvertFR(file, rank)) == rank
  {
    DivModUnique(ConvertFR(file, rank), 10, rank + 2, file + 1);
  }

  /** Every on-board square is `convertFR` of its file and rank. */
  lemma OnBoardIsConvertFR(sq: int)
    requires OnBoard(sq)
    ensures 0 <= FileOf(sq) < 8 && 0 <= RankOf(sq) < 8
    ensures sq == ConvertFR(FileOf(sq), RankOf(sq))
  {
  }

  /** Any 64-element sequence passes `SequenceCheck` and is laid out as an
      8 x 8 core. */
  lemma Shell64Check(s: seq<nat>)
    requires |s| == RegularNC
    ensures Util.SequenceCheck(s)
    ensures Util.FindPair(|s|) == (8, 8)
  {
    assert Util.Divides(2, 64);
    Util.FindPairExamples();
  }

  /** `sequence_in_shell<..., OFFBOARD>` for a 64-element sequence. */
  function Shell64(s: seq<nat>): (r: seq<nat>)
    requires |s| == RegularNC
    ensures |r| == LargeNC
  {
    Shell64Check(s);
    Util.SequenceInShell(s, OFFBOARD)
  }

  /** The 64 numbers the board squares show in `Board120`: `0, 1, ..., 63`. */
  const Squares64: seq<nat> := Util.SimpleSequence(0, 63)

  /** The file numbers `0..7` repeated for each of the eight ranks. */
  const Files64: seq<nat> := Util.Concat(Util.SimpleSequence(FILE_A, FILE_H), 8)

  /** Each rank number `0..7` repeated eight times. */
  const Ranks64: seq<nat> := Util.ColumnarSequence(RANK_1, RANK_8, 8)

  /** `Board120`: the real-board index of each padded square, 100 off the board. */
  const Board120: seq<nat> := Shell64(Squares64)

  /** `bFiles`: the file of each padded square, `OFFBOARD` off the board. */
  const BFiles: seq<nat> := Shell64(Files64)

  /** `bRanks`: the rank of each padded square, `OFFBOARD` off the board. */
  const BRanks: seq<nat> := Shell64(Ranks64)

  /** `Board64`: the padded index of each real-board square. */
  const Board64: seq<nat> := Util.RangeWithTwoGaps(21, 98)

  /** Where a padded square sits in the 8 x 8 core of a shell built from a
      64-element sequence. */
  lemma CoreOfOnBoard(sq: int)
    requires 0 <= sq < LargeNC
    ensures Util.InCore(sq, 8, 8) <==> OnBoard(sq)
    ensures OnBoard(sq) ==> Util.CoreIndex(sq, 8) == 8 * RankOf(sq) + FileOf(sq)
  {
  }

  /** The closed forms of the three padded-board tables: on the board,
      `Board120` numbers the squares rank by rank, `bFiles` gives the file and
      `bRanks` the rank; off the board all three hold `OFFBOARD`. */
  lemma GeometryTables()
    ensures |Board120| == |BFiles| == |BRanks| == LargeNC
    ensures forall sq :: 0 <= sq < LargeNC ==>
      Board120[sq] == (if OnBoard(sq) then 8 * RankOf(sq) + FileOf(sq) else OFFBOARD)
    ensures forall sq :: 0 <= sq < LargeNC ==>
      BFiles[sq] == (if OnBoard(sq) then FileOf(sq) else OFFBOARD)
    ensures forall sq :: 0 <= sq < LargeNC ==>
      BRanks[sq] == (if OnBoard(sq) then RankOf(sq) else OFFBOARD)
  {
    Shell64Check(Squares64);
    Shell64Check(Files64);
    Shell64Check(Ranks64);
    forall sq | 0 <= sq < LargeNC
      ensures Board120[sq] == (if OnBoard(sq) then 8 * RankOf(sq) + FileOf(sq) else OFFBOARD)
      ensures BFiles[sq] == (if OnBoard(sq) then FileOf(sq) else OFFBOARD)
      ensures BRanks[sq] == (if OnBoard(sq) then RankOf(sq) else OFFBOARD)
    {
      CoreOfOnBoard(sq);
      if OnBoard(sq) {
        var k := 8 * RankOf(sq) + FileOf(sq);
        DivModUnique(k, 8, RankOf(sq), FileOf(sq));
      }
    }
  }

  /** `GeometryTables` at one padded square. */
  lemma GeometryAt(sq: int)
    requires 0 <= sq < LargeNC
    ensures |Board120| == |BFiles| == |BRanks| == LargeNC
    ensures Board120[sq] == (if OnBoard(sq) then 8 * RankOf(sq) + FileOf(sq) else OFFBOARD)
    ensures BFiles[sq] == (if OnBoard(sq) then FileOf(sq) else OFFBOARD)
    ensures BRanks[sq] == (if OnBoard(sq) then RankOf(sq) else OFFBOARD)
  {
    GeometryTables();
  }

  /** `Board64` lists the 64 board squares rank by rank. */
  lemma Board64Squares()
    ensures |Board64| == RegularNC
    ensures forall rank, file :: 0 <= rank < 8 && 0 <= file < 8 ==>
      Board64[Util.Index8(rank, file)] == ConvertFR(file, rank)
  {
    Util.RangeWithTwoGapsRows(21, 7, 7);
  }

  /** The padded square `Board64` lists for a real-board index is on the board
      and is numbered with that index in `Board120`. */
  lemma Board64Numbered(sq64: nat)
    requires sq64 < RegularNC
    ensures |Board64| == RegularNC && OnBoard(Board64[sq64])
    ensures |Board120| == LargeNC && Board120[Board64[sq64]] == sq64
  {
    var rank, file := sq64 / 8, sq64 % 8;
    assert sq64 == Util.Index8(rank, file);
    Board64Squares();
    var sq := ConvertFR(file, rank);
    assert Board64[sq64] == sq;
    ConvertFRInverse(file, rank);
    GeometryTables();
    assert Board120[sq] == 8 * RankOf(sq) + FileOf(sq);
  }

  /** `convert64To120`. */
  function Convert64To120(sq64: nat): (sq: nat)
    requires sq64 < RegularNC
    ensures OnBoard(sq) && Board120[sq] == sq64
  {
    Board64Numbered(sq64);
    Board64[sq64]
  }

  /** `convert120To64`. */
  function Convert120To64(sq: nat): (sq64: nat)
    requires OnBoard(sq)
    ensures sq64 < RegularNC && Convert64To120(sq64) == sq
  {
    GeometryTables();
    OnBoardIsConvertFR(sq);
    var k := Board120[sq];
    var c := Convert64To120(k);
    assert Board120[c] == k;
    SquareOfIndex(sq, c);
    k
  }

  /** Two on-board squares with the same `Board120` number are the same square. */
  lemma SquareOfIndex(a: int, b: int)
    requires OnBoard(a) && OnBoard(b) && Board120[a] == Board120[b]
    ensures a == b
  {
    GeometryAt(a);
    GeometryAt(b);
    RankFileInjective(a, b);
  }

  /** Rank and file, combined as `8 * rank + file`, tell board squares apart. */
  lemma RankFileInjective(a: int, b: int)
    requires OnBoard(a) && OnBoard(b) && 8 * RankOf(a) + FileOf(a) == 8 * RankOf(b) + FileOf(b)
    ensures a == b
  {
    OnBoardIsConvertFR(a);
    OnBoardIsConvertFR(b);
    var ra, fa, rb, fb := RankOf(a), FileOf(a), RankOf(b), FileOf(b);
    var i := 8 * ra + fa;
    DivModUnique(i, 8, ra, fa);
    DivModUnique(i, 8, rb, fb);
    assert ra == rb && fa == fb;
  }

  /** The two conversions are inverse bijections between the 64 board
      squares and the numbers `0..63`. */
  lemma ConversionsInverse(sq64: nat, sq: nat)
    ensures sq64 < RegularNC ==> Convert120To64(Convert64To120(sq64)) == sq64
    ensures OnBoard(sq) ==> Convert64To120(Convert120To64(sq)) == sq
  {
  }

  /** `isOnBoard` of include/valid.hpp reads `bFiles`; on the padded board this
      is exactly the 8 x 8 board. */
  lemma BFilesMarksBoard(sq: nat)
    requires sq < LargeNC
    ensures BFiles[sq] != OFFBOARD <==> OnBoard(sq)
  {
    GeometryTables();
  }
}
