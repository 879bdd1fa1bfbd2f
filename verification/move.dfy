/** The packed move of include/move.hpp and src/move.cpp, the fixed-size move
    list and the undo record. A move's `info` word holds, from the low bit up:
    the from square (7 bits), the to square (7 bits), the captured piece
    (4 bits), the en-passant flag, the pawn-start flag, the promoted piece
    (4 bits) and the castle flag. */
module Moves {
  import opened Constants

  // ---------------------------------------------------------------------
  // Flags and layout
  // ---------------------------------------------------------------------

  const EN_PAS: bv32 := 0x4_0000
  const PAWN_START: bv32 := 0x8_0000
  const CASTLE: bv32 := 0x100_0000

  /** The bit `getCastle` tests: bit 20, the low bit of the promoted field,
      and not the `castle` flag above it. */
  const CASTLE_AS_READ: bv32 := 0x10_0000

  /** The flags a move is built with. */
  predicate IsFlag(fl: bv32) {
    fl == 0 || fl == EN_PAS || fl == PAWN_START || fl == CASTLE
  }

  /** The three flags are distinct single bits, above the from, to and
      captured fields and clear of the promoted field. */
  lemma FlagsDistinct()
    ensures EN_PAS != PAWN_START && PAWN_START != CASTLE && EN_PAS != CASTLE
    ensures EN_PAS & (EN_PAS - 1) == 0 && PAWN_START & (PAWN_START - 1) == 0
    ensures CASTLE & (CASTLE - 1) == 0
    ensures (EN_PAS | PAWN_START | CASTLE) & 0x3_FFFF == 0
    ensures (EN_PAS | PAWN_START | CASTLE) & 0xF0_0000 == 0
  {
  }

  // ---------------------------------------------------------------------
  // Move
  // ---------------------------------------------------------------------

  datatype Move = Move(info: bv32, score: int)

  /** `Move()`: no information and no score. */
  const NoMove: Move := Move(0, 0)

  /** `Move(int i)`: the packed word verbatim, score 0. */
  function MoveOfInfo(i: bv32): (m: Move)
    ensures m.score == 0 && m.info == i
  {
    Move(i, 0)
  }

  /** The packing of the five-argument constructor on fields of their own
      widths. */
  function Pack(from: bv7, to: bv7, captured: bv4, promoted: bv4, fl: bv32): bv32 {
    (from as bv32) | ((to as bv32) << 7) | ((captured as bv32) << 14)
      | ((promoted as bv32) << 20) | fl
  }

  /** `Move(from, to, captured, promoted, fl)`: `from | to << 7 | captured << 14
      | promoted << 20 | fl`, score 0. Every caller passes squares below 128
      and piece codes below 16. */
  function NewMove(from: nat, to: nat, captured: nat, promoted: nat, fl: bv32): Move
    requires from < 128 && to < 128 && captured < 16 && promoted < 16
  {
    Move(Pack(from as bv7, to as bv7, captured as bv4, promoted as bv4, fl), 0)
  }

  function GetFrom(m: Move): nat { (m.info & 0x7f) as nat }
  function GetTo(m: Move): nat { ((m.info >> 7) & 0x7f) as nat }
  function GetCaptured(m: Move): nat { ((m.info >> 14) & 0xf) as nat }
  function GetPromoted(m: Move): nat { ((m.info >> 20) & 0xf) as nat }
  function GetEnPas(m: Move): bv32 { m.info & EN_PAS }
  function GetPawnStart(m: Move): bv32 { m.info & PAWN_START }

  /** `getCastle` as written: it masks with 0x100000. */
  function GetCastleAsWritten(m: Move): bv32 { m.info & CASTLE_AS_READ }

  /** The castle test the layout comment describes, masking with `castle`. */
  function GetCastle(m: Move): bv32 { m.info & CASTLE }

  /** `getPawnBits` of src/move.cpp: the captured field and the en-passant flag. */
  function GetPawnBits(m: Move): bv32 { m.info & 0x7_C000 }

  /** `getPromotedBits` of src/move.cpp: the promoted field in place. */
  function GetPromotedBits(m: Move): bv32 { m.info & 0xF0_0000 }

  /** `getPawnBits` of h/move.cpp returns its mask, not the masked word. */
  function GetPawnBitsH(m: Move): bv32 { 0x7_C000 }

  /** `getPromotedBits` of h/move.cpp returns its mask, not the masked word. */
  function GetPromotedBitsH(m: Move): bv32 { 0xF0_0000 }

  /** `SetScore`. */
  function SetScore(m: Move, s: int): Move {
    m.(score := s)
  }

  lemma Widen7(x: nat)
    requires x < 128
    ensures ((x as bv7) as bv32) as nat == x
  {
    Narrow7(x);
    Zext7(x as bv7);
  }

  lemma Widen4(x: nat)
    requires x < 16
    ensures ((x as bv4) as bv32) as nat == x
  {
    Narrow4(x);
    Zext4(x as bv4);
  }

  lemma Narrow7(x: nat)
    requires x < 128
    ensures (x as bv7) as nat == x
  {
    if x < 32 {
    } else if x < 64 {
    } else if x < 96 {
    } else {
    }
  }

  lemma Narrow4(x: nat)
    requires x < 16
    ensures (x as bv4) as nat == x
  {
  }

  lemma Zext7(b: bv7)
    ensures (b as bv32) as nat == b as nat
  {
  }

  lemma Zext4(b: bv4)
    ensures (b as bv32) as nat == b as nat
  {
  }

  /** The packing on bit fields: each field reads back, a flag bit is set
      exactly when that flag was passed, and bit 20 is the low bit of the
      promoted field. */
  lemma PackFields(from: bv7, to: bv7, captured: bv4, promoted: bv4, fl: bv32)
    requires IsFlag(fl)
    ensures var i := Pack(from, to, captured, promoted, fl);
      && (i & 0x7f) == from as bv32 && ((i >> 7) & 0x7f) == to as bv32
      && ((i >> 14) & 0xf) == captured as bv32 && ((i >> 20) & 0xf) == promoted as bv32
      && (i & EN_PAS != 0 <==> fl == EN_PAS) && (i & PAWN_START != 0 <==> fl == PAWN_START)
      && (i & CASTLE != 0 <==> fl == CASTLE)
      && (i & CASTLE_AS_READ != 0 <==> promoted & 1 == 1)
  {
  }

  /** The low bit of a 4-bit field is its parity. */
  lemma LowBitParity(x: nat)
    requires x < 16
    ensures (x as bv4) & 1 == 1 <==> x % 2 == 1
  {
  }

  /** The getters invert the constructor: from, to, captured and promoted come
      back unchanged, each flag reads as set exactly when it was passed, and
      the score starts at 0. */
  lemma NewMoveFields(from: nat, to: nat, captured: nat, promoted: nat, fl: bv32)
    requires from < 128 && to < 128 && captured < 16 && promoted < 16
    requires IsFlag(fl)
    ensures var m := NewMove(from, to, captured, promoted, fl);
      && GetFrom(m) == from && GetTo(m) == to
      && GetCaptured(m) == captured && GetPromoted(m) == promoted
      && (GetEnPas(m) != 0 <==> fl == EN_PAS)
      && (GetPawnStart(m) != 0 <==> fl == PAWN_START)
      && (GetCastle(m) != 0 <==> fl == CASTLE)
      && m.score == 0
  {
    PackFields(from as bv7, to as bv7, captured as bv4, promoted as bv4, fl);
    Widen7(from);
    Widen7(to);
    Widen4(captured);
    Widen4(promoted);
  }

  /** `getCastle` as written answers the parity of the promoted piece, whatever
      the flags: a move built with `castle` and no promotion does not read as
      a castle, and a promotion to a white queen does. */
  lemma CastleAsWrittenReadsPromoted(from: nat, to: nat, captured: nat, promoted: nat, fl: bv32)
    requires from < 128 && to < 128 && captured < 16 && promoted < 16
    requires IsFlag(fl)
    ensures GetCastleAsWritten(NewMove(from, to, captured, promoted, fl)) != 0 <==> promoted % 2 == 1
  {
    PackFields(from as bv7, to as bv7, captured as bv4, promoted as bv4, fl);
    LowBitParity(promoted);
  }

  /** The two concrete witnesses of the `getCastle` defect. */
  lemma CastleAsWrittenWrong()
    ensures GetCastleAsWritten(NewMove(E1, G1, EMPTY, EMPTY, CASTLE)) == 0
    ensures GetCastle(NewMove(E1, G1, EMPTY, EMPTY, CASTLE)) != 0
    ensures GetCastleAsWritten(NewMove(H7, H8, EMPTY, wQ, 0)) != 0
    ensures GetCastle(NewMove(H7, H8, EMPTY, wQ, 0)) == 0
  {
    CastleAsWrittenReadsPromoted(E1, G1, EMPTY, EMPTY, CASTLE);
    CastleAsWrittenReadsPromoted(H7, H8, EMPTY, wQ, 0);
    NewMoveFields(E1, G1, EMPTY, EMPTY, CASTLE);
    NewMoveFields(H7, H8, EMPTY, wQ, 0);
  }

  /** `getPawnBits` is zero exactly when nothing is captured and the move is
      not en passant, and `getPromotedBits` exactly when nothing is promoted. */
  lemma FieldGroups(m: Move)
    ensures GetPawnBits(m) == 0 <==> GetCaptured(m) == 0 && GetEnPas(m) == 0
    ensures GetPromotedBits(m) == 0 <==> GetPromoted(m) == 0
  {
    var i := m.info;
    assert GetCaptured(m) == 0 <==> (i >> 14) & 0xf == 0;
    assert GetPromoted(m) == 0 <==> (i >> 20) & 0xf == 0;
  }

  /** The h/move.cpp group getters do not depend on the move: on the empty move
      they report bits the src/move.cpp getters do not. */
  lemma GroupGettersDisagree()
    ensures GetPawnBits(NoMove) == 0 && GetPawnBitsH(NoMove) != 0
    ensures GetPromotedBits(NoMove) == 0 && GetPromotedBitsH(NoMove) != 0
  {
  }

  /** `SetScore` changes the score and no field of the packed word. */
  lemma SetScoreKeepsFields(m: Move, s: int)
    ensures SetScore(m, s).score == s
    ensures var r := SetScore(m, s);
      && GetFrom(r) == GetFrom(m) && GetTo(r) == GetTo(m)
      && GetCaptured(r) == GetCaptured(m) && GetPromoted(r) == GetPromoted(m)
      && GetEnPas(r) == GetEnPas(m) && GetPawnStart(r) == GetPawnStart(m)
      && GetCastle(r) == GetCastle(m)
  {
  }

  // ---------------------------------------------------------------------
  // Text
  // ---------------------------------------------------------------------

  /** The character `base + k`, as `dump_str += base + k` appends it. */
  function Offset(base: char, k: nat): char
    requires base as int + k < 0xD800
  {
    (base as int + k) as char
  }

  /** The square named by a file letter and a rank digit:
      `convertFR(f - 'a', r - '1')`, as the FEN parser reads it. */
  function SquareOfText(f: char, r: char): int {
    ConvertFR(f as int - 'a' as int, r as int - '1' as int)
  }

  /** The character `getDumpMove` appends for a promotion. */
  function PromotionChar(promoted: nat): char {
    if promoted == wN || promoted == bN then 'n'
    else if promoted == wR || promoted == bR then 'r'
    else if promoted == wB || promoted == bB then 'b'
    else 'q'
  }

  /** `getDumpMove`: file and rank of the from square, file and rank of the
      to square, then a promotion letter when something is promoted. */
  function DumpMove(m: Move): string
    requires GetFrom(m) < LargeNC && GetTo(m) < LargeNC
  {
    var text := SquareText(GetFrom(m)) + SquareText(GetTo(m));
    if GetPromoted(m) != EMPTY then text + [PromotionChar(GetPromoted(m))] else text
  }

  /** The text of one square: its file letter and rank digit. */
  function SquareText(sq: nat): string
    requires sq < LargeNC
  {
    GeometryAt(sq);
    [Offset('a', BFiles[sq]), Offset('1', BRanks[sq])]
  }

  /** On the board the text of a square is a letter `a..h` and a digit `1..8`
      that name the square back. */
  lemma SquareTextInverse(sq: nat)
    requires sq < LargeNC && OnBoard(sq)
    ensures var t := SquareText(sq);
      && 'a' <= t[0] <= 'h' && '1' <= t[1] <= '8' && SquareOfText(t[0], t[1]) == sq
  {
    GeometryAt(sq);
    OnBoardIsConvertFR(sq);
    var f, r := FileOf(sq), RankOf(sq);
    assert SquareText(sq) == [Offset('a', f), Offset('1', r)];
    OffsetBack('a', f);
    OffsetBack('1', r);
  }

  lemma OffsetBack(base: char, k: nat)
    requires base as int + k < 0xD800
    ensures Offset(base, k) as int - base as int == k
  {
  }

  /** Reading the text of a move back: its first two characters name the from
      square and the next two the to square; a fifth character appears
      exactly for a promotion and names the promoted piece's kind. */
  lemma DumpMoveInverse(m: Move)
    requires GetFrom(m) < LargeNC && GetTo(m) < LargeNC
    requires OnBoard(GetFrom(m)) && OnBoard(GetTo(m))
    ensures var t := DumpMove(m);
      && (|t| == 5 <==> GetPromoted(m) != EMPTY) && (|t| == 4 <==> GetPromoted(m) == EMPTY)
      && 'a' <= t[0] <= 'h' && '1' <= t[1] <= '8' && 'a' <= t[2] <= 'h' && '1' <= t[3] <= '8'
      && SquareOfText(t[0], t[1]) == GetFrom(m) && SquareOfText(t[2], t[3]) == GetTo(m)
    ensures |DumpMove(m)| == 5 ==>
      (DumpMove(m)[4] == 'n' <==> GetPromoted(m) in {wN, bN})
      && (DumpMove(m)[4] == 'r' <==> GetPromoted(m) in {wR, bR})
      && (DumpMove(m)[4] == 'b' <==> GetPromoted(m) in {wB, bB})
  {
    DumpMoveSquares(m);
    DumpMoveLetter(m);
  }

  /** The first four characters of a move's text name its two squares. */
  lemma DumpMoveSquares(m: Move)
    requires GetFrom(m) < LargeNC && GetTo(m) < LargeNC
    requires OnBoard(GetFrom(m)) && OnBoard(GetTo(m))
    ensures var t := DumpMove(m);
      && (|t| == 5 <==> GetPromoted(m) != EMPTY) && (|t| == 4 <==> GetPromoted(m) == EMPTY)
      && 'a' <= t[0] <= 'h' && '1' <= t[1] <= '8' && 'a' <= t[2] <= 'h' && '1' <= t[3] <= '8'
      && SquareOfText(t[0], t[1]) == GetFrom(m) && SquareOfText(t[2], t[3]) == GetTo(m)
  {
    var from, to := GetFrom(m), GetTo(m);
    SquareTextInverse(from);
    SquareTextInverse(to);
    assert DumpMove(m)[..4] == SquareText(from) + SquareText(to);
  }

  /** The fifth character of a move's text names the promoted piece's kind. */
  lemma DumpMoveLetter(m: Move)
    requires GetFrom(m) < LargeNC && GetTo(m) < LargeNC
    ensures |DumpMove(m)| == 5 ==>
      (DumpMove(m)[4] == 'n' <==> GetPromoted(m) in {wN, bN})
      && (DumpMove(m)[4] == 'r' <==> GetPromoted(m) in {wR, bR})
      && (DumpMove(m)[4] == 'b' <==> GetPromoted(m) in {wB, bB})
  {
    var text := SquareText(GetFrom(m)) + SquareText(GetTo(m));
    assert |text| == 4;
    if GetPromoted(m) != EMPTY {
      assert DumpMove(m)[4] == PromotionChar(GetPromoted(m));
    }
  }

  // ---------------------------------------------------------------------
  // Move list
  // ---------------------------------------------------------------------

  /** `MoveList`: the live prefix `moves[0..count)` of the 256-slot array; the
      empty list is `MoveList()` with count 0. */
  type MoveList = seq<Move>

  /** `push_back`: write slot `count`, then increment it. The array has
      `maxMoves` slots. */
  function PushBack(list: MoveList, m: Move): (r: MoveList)
    requires |list| < MaxMoves
    ensures |r| == |list| + 1 <= MaxMoves && r[|list|] == m
    ensures forall i :: 0 <= i < |list| ==> r[i] == list[i]
  {
    list + [m]
  }

  // ---------------------------------------------------------------------
  // Undo record
  // ---------------------------------------------------------------------

  /** `Undo` with a full-width fifty-move counter; include/move.hpp declares
      that field `bool` (see `FiftyAsWritten`). */
  datatype Undo = Undo(move: Move, castlePerm: bv8, enPas: nat, fiftyMove: nat, posKey: bv64)

  /** Storing a counter in the `bool` field of include/move.hpp and reading it
      back: any nonzero count becomes 1. */
  function FiftyAsWritten(count: nat): (r: nat)
    ensures r <= 1 && (r == count <==> count <= 1)
  {
    var stored: bool := count != 0;
    if stored then 1 else 0
  }
}
