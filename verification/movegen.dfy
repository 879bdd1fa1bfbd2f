/** The pawn part of `MoveList::GenerateAllMoves` in src/move.cpp, with
    `AddWhitePawnMove` and `AddBlackPawnMove`. The generator appends to the
    list it is given; only pawn moves are ever appended, since the slider and
    stepper loops only print. Moves are compared through `Decode`, the
    fields the getters read back from the packed word. */
module MoveGen {
  import opened Constants
  import opened Moves
  import opened Board

  // ---------------------------------------------------------------------
  // Decoded moves
  // ---------------------------------------------------------------------

  /** What the getters of a move report. */
  datatype Fields = Fields(from: nat, to: nat, captured: nat, promoted: nat, castle: bool, enPas: bool, pawnStart: bool)

  function Decode(m: Move): Fields {
    Fields(GetFrom(m), GetTo(m), GetCaptured(m), GetPromoted(m), GetCastle(m) != 0, Moves.GetEnPas(m) != 0, GetPawnStart(m) != 0)
  }

  function Decoded(s: seq<Move>): (r: seq<Fields>)
    ensures |r| == |s| && forall i :: 0 <= i < |s| ==> r[i] == Decode(s[i])
  {
    seq(|s|, i requires 0 <= i < |s| => Decode(s[i]))
  }

  lemma DecodedAppend(a: seq<Move>, b: seq<Move>)
    ensures Decoded(a + b) == Decoded(a) + Decoded(b)
  {
  }

  /** A move built by the five-argument constructor reads back as built. */
  lemma DecodeNew(from: nat, to: nat, captured: nat, promoted: nat, fl: bv32)
    requires from < 128 && to < 128 && captured < 16 && promoted < 16 && IsFlag(fl)
    ensures Decode(NewMove(from, to, captured, promoted, fl))
      == Fields(from, to, captured, promoted, fl == CASTLE, fl == EN_PAS, fl == PAWN_START)
  {
    NewMoveFields(from, to, captured, promoted, fl);
  }

  // ---------------------------------------------------------------------
  // What a pawn may do
  // ---------------------------------------------------------------------

  /** The square `k` cells ahead of `sq` for the given colour. */
  function Ahead(sq: int, white: bool, k: int): int {
    if white then sq + k else sq - k
  }

  function PawnOf(white: bool): nat { if white then wP else bP }

  /** The rank a pawn starts on and the rank it promotes from. */
  function StartRank(white: bool): nat { if white then RANK_2 else RANK_7 }
  function LastRank(white: bool): nat { if white then RANK_7 else RANK_2 }

  /** The promotion pieces, in the order the generator emits them. */
  function Promotions(white: bool): seq<nat> {
    if white then [wQ, wR, wB, wN] else [bQ, bR, bB, bN]
  }

  lemma PromotionCodes(white: bool)
    ensures |Promotions(white)| == 4
    ensures forall j :: 0 <= j < 4 ==> Promotions(white)[j] <= bK
  {
    var p := Promotions(white);
    assert p[0] <= bK && p[1] <= bK && p[2] <= bK && p[3] <= bK;
  }

  /** A piece of the side not moving. */
  predicate IsOpponent(v: nat, white: bool) {
    if white then bP <= v <= bK else wP <= v <= wK
  }

  /** `sq` is a board square on the rank the pawn promotes from. */
  predicate OnLastRank(sq: int, white: bool) {
    OnBoard(sq) && RankOf(sq) == LastRank(white)
  }

  /** `bRanks` tells the last rank apart. */
  lemma LastRankRead(sq: int, white: bool)
    requires 0 <= sq < LargeNC
    ensures |BRanks| == LargeNC && (BRanks[sq] == LastRank(white) <==> OnLastRank(sq, white))
  {
    GeometryAt(sq);
  }

  lemma OnBoardBounds(sq: int)
    requires OnBoard(sq)
    ensures 21 <= sq <= 98
  {
  }

  /** `bRanks` tells the start rank apart on the board. */
  lemma StartRankRead(sq: int, white: bool)
    requires OnBoard(sq)
    ensures |BRanks| == LargeNC && (BRanks[sq] == StartRank(white) <==> RankOf(sq) == StartRank(white))
  {
    GeometryAt(sq);
  }

  /** One move from `from` to `to` capturing `captured` per entry of
      `pieces`, promoting to that entry. */
  function PromotedTo(from: nat, to: nat, captured: nat, pieces: seq<nat>): seq<Fields> {
    seq(|pieces|, j requires 0 <= j < |pieces| => Fields(from, to, captured, pieces[j], false, false, false))
  }

  /** The move (or the four promotions) from `from` to `to` capturing
      `captured`: one per promotion piece from the last rank, else one that
      promotes to nothing. */
  function Promote(from: nat, to: nat, captured: nat, white: bool): seq<Fields> {
    PromotedTo(from, to, captured,
      if OnLastRank(from, white) then Promotions(white) else [EMPTY])
  }

  /** The en-passant target test of the generator: the target equals the
      en-passant square, and with `fixed` that square is also set. */
  predicate EnPasHit(to: int, enPas: nat, fixed: bool) {
    to == enPas && (fixed ==> enPas != NO_SQ)
  }

  /** The double push from the start rank onto an empty square. */
  function DoublePlan(board: seq<nat>, sq: nat, white: bool): seq<Fields>
    requires Framed(board) && OnBoard(sq)
  {
    var double := Ahead(sq, white, 20);
    if RankOf(sq) == StartRank(white) && board[double] == EMPTY
    then [Fields(sq, double, EMPTY, EMPTY, false, false, true)] else []
  }

  /** The push one square ahead onto an empty square, followed by the double
      push. */
  function PushPlan(board: seq<nat>, sq: nat, white: bool): seq<Fields>
    requires Framed(board) && OnBoard(sq)
  {
    var push := Ahead(sq, white, 10);
    if board[push] == EMPTY then Promote(sq, push, EMPTY, white) + DoublePlan(board, sq, white) else []
  }

  /** The capture of an opponent piece on the board square `to`. */
  function CapturePlan(board: seq<nat>, sq: nat, to: int, white: bool): seq<Fields>
    requires Framed(board)
  {
    if OnBoard(to) && IsOpponent(board[to], white) then Promote(sq, to, board[to], white) else []
  }

  /** The en-passant capture onto `to`. */
  function EnPasPlan(enPas: nat, sq: nat, to: int, fixed: bool): seq<Fields>
    requires to >= 0
  {
    if EnPasHit(to, enPas, fixed) then [Fields(sq, to, EMPTY, EMPTY, false, true, false)] else []
  }

  /** The moves of the pawn on `sq`, in the order the generator emits them:
      the pushes, the captures towards the lower and the higher file offset
      (9 then 11 squares ahead), then the en-passant captures in the same
      order. With `fixed` an unset en-passant square matches nothing. */
  function PawnPlan(board: seq<nat>, enPas: nat, sq: nat, white: bool, fixed: bool): seq<Fields>
    requires Framed(board) && OnBoard(sq)
  {
    PushPlan(board, sq, white)
    + CapturePlan(board, sq, Ahead(sq, white, 9), white)
    + CapturePlan(board, sq, Ahead(sq, white, 11), white)
    + EnPasPlan(enPas, sq, Ahead(sq, white, 9), fixed)
    + EnPasPlan(enPas, sq, Ahead(sq, white, 11), fixed)
  }

  // ---------------------------------------------------------------------
  // The generator
  // ---------------------------------------------------------------------

  /** The getters read fields of 7 and 4 bits. */
  lemma GettersBounded(m: Move)
    ensures GetFrom(m) < 128 && GetTo(m) < 128 && GetCaptured(m) < 16 && GetPromoted(m) < 16
  {
  }

  /** The constructor applied once per entry of `pieces`, as the promoted
      piece, in order. */
  function Built(from: nat, to: nat, captured: nat, pieces: seq<nat>): (r: seq<Move>)
    requires from < 128 && to < 128 && captured < 16
    requires forall j :: 0 <= j < |pieces| ==> pieces[j] < 16
    ensures Decoded(r) == PromotedTo(from, to, captured, pieces)
  {
    var r := seq(|pieces|, j requires 0 <= j < |pieces| => NewMove(from, to, captured, pieces[j], 0));
    assert forall j :: 0 <= j < |pieces| ==> Decoded(r)[j] == PromotedTo(from, to, captured, pieces)[j] by {
      forall j | 0 <= j < |pieces| {
        DecodeNew(from, to, captured, pieces[j], 0);
      }
    }
    r
  }

  /** The promoted pieces the pawn-move helpers emit for a move from
      `from`: the four promotions in the order queen, rook, bishop, knight
      when `bRanks` puts `from` on the last rank, otherwise just `EMPTY`. The
      rank test is written with `OnLastRank`, which `LastRankRead` shows is
      the `bRanks` comparison. */
  function PiecesFor(from: nat, white: bool): (pieces: seq<nat>)
    ensures forall j :: 0 <= j < |pieces| ==> pieces[j] <= bK
  {
    PromotionCodes(white);
    if OnLastRank(from, white) then Promotions(white) else [EMPTY]
  }

  /** The moves the pawn-move helpers push for `from`, `to` and `captured`. */
  function PawnMovesTo(from: nat, to: nat, captured: nat, white: bool): (r: seq<Move>)
    requires from < LargeNC && to < 128 && captured < 16
    ensures Decoded(r) == Promote(from, to, captured, white)
  {
    Built(from, to, captured, PiecesFor(from, white))
  }

  /** `AddWhitePawnMove(m, captured)` and `AddBlackPawnMove`: from, to and
      the captured piece are read back from `m`, the captured piece only when
      the flag is set, and the move is pushed once per promotion piece from
      the last rank. */
  function AddPawnMove(m: Move, captured: bool, white: bool): (r: seq<Move>)
    requires GetFrom(m) < LargeNC
    ensures Decoded(r) == Promote(GetFrom(m), GetTo(m), if captured then GetCaptured(m) else EMPTY, white)
  {
    GettersBounded(m);
    PawnMovesTo(GetFrom(m), GetTo(m), if captured then GetCaptured(m) else EMPTY, white)
  }

  /** `Board120` tells the board squares apart. */
  lemma OnBoardRead(sq: int)
    requires 0 <= sq < LargeNC
    ensures |Board120| == LargeNC && (Board120[sq] != OFFBOARD <==> OnBoard(sq))
  {
    GeometryAt(sq);
  }

  /** `pieceCol` tells the opponent's pieces apart. */
  lemma OpponentRead(v: nat, white: bool)
    requires v <= bK
    ensures |PieceCol| == 13 && (PieceCol[v] == (if white then BLACK else WHITE) <==> IsOpponent(v, white))
  {
  }

  /** `AddWhitePawnMove(Move(sq, sq + 10), false)`, or the black one towards
      `sq - 10`. */
  function SinglePush(sq: nat, white: bool): (r: seq<Move>)
    requires OnBoard(sq)
    ensures Decoded(r) == Promote(sq, Ahead(sq, white, 10), EMPTY, white)
  {
    OnBoardBounds(sq);
    DecodeNew(sq, Ahead(sq, white, 10), EMPTY, EMPTY, 0);
    AddPawnMove(NewMove(sq, Ahead(sq, white, 10), EMPTY, EMPTY, 0), false, white)
  }

  /** `Move(sq, sq + 20, EMPTY, EMPTY, pawn_start)` when `bRanks` puts `sq`
      on the start rank and the square is empty; `StartRankRead` shows the
      `bRanks` comparison is the rank test written here. */
  function DoublePush(board: seq<nat>, sq: nat, white: bool): (r: seq<Move>)
    requires Framed(board) && OnBoard(sq)
    ensures Decoded(r) == DoublePlan(board, sq, white)
  {
    OnBoardBounds(sq);
    var double := Ahead(sq, white, 20);
    if RankOf(sq) == StartRank(white) && board[double] == EMPTY then
      DecodeNew(sq, double, EMPTY, EMPTY, PAWN_START);
      [NewMove(sq, double, EMPTY, EMPTY, PAWN_START)]
    else []
  }

  /** The pushes of the pawn on `sq`: the single push when the square ahead
      is empty, followed by the double push. */
  function Pushes(board: seq<nat>, sq: nat, white: bool): (r: seq<Move>)
    requires Framed(board) && OnBoard(sq)
    ensures Decoded(r) == PushPlan(board, sq, white)
  {
    OnBoardBounds(sq);
    if board[Ahead(sq, white, 10)] == EMPTY then
      var single, double := SinglePush(sq, white), DoublePush(board, sq, white);
      DecodedAppend(single, double);
      single + double
    else []
  }

  /** `AddWhitePawnMove(Move(sq, to, getPiece(to)), true)` when `Board120`
      puts `to` on the board and `pieceCol` gives its piece to the opponent. */
  function Capture(board: seq<nat>, sq: nat, to: int, white: bool): (r: seq<Move>)
    requires Framed(board) && OnBoard(sq) && 0 <= to < LargeNC
    ensures Decoded(r) == CapturePlan(board, sq, to, white)
  {
    OnBoardRead(to);
    if Board120[to] != OFFBOARD then
      assert CellOk(to, board[to]);
      OpponentRead(board[to], white);
      if PieceCol[board[to]] == (if white then BLACK else WHITE) then
        DecodeNew(sq, to, board[to], EMPTY, 0);
        AddPawnMove(NewMove(sq, to, board[to], EMPTY, 0), true, white)
      else []
    else []
  }

  /** `AddCapturedMove(Move(sq, to, EMPTY, EMPTY, en_pas))` when `to` is the
      en-passant square; the source compares without the `fixed` guard. */
  function EnPassant(enPas: nat, sq: nat, to: int, fixed: bool): (r: seq<Move>)
    requires OnBoard(sq) && 0 <= to < LargeNC
    ensures Decoded(r) == EnPasPlan(enPas, sq, to, fixed)
  {
    if to == enPas && (fixed ==> enPas != NO_SQ) then
      DecodeNew(sq, to, EMPTY, EMPTY, EN_PAS);
      [NewMove(sq, to, EMPTY, EMPTY, EN_PAS)]
    else []
  }

  /** The body of the generator's pawn loop for the pawn on `sq`: its
      pushes, its two captures and its two en-passant tests, in that order. */
  method PawnMoves(board: seq<nat>, enPas: nat, sq: nat, white: bool, fixed: bool) returns (r: seq<Move>)
    requires Framed(board) && OnBoard(sq)
    ensures |r| <= MostPerPawn
    ensures Decoded(r) == PawnPlan(board, enPas, sq, white, fixed)
  {
    PlanSize(board, enPas, sq, white, fixed);
    var a := Pushes(board, sq, white);
    var b := Capture(board, sq, Ahead(sq, white, 9), white);
    var c := Capture(board, sq, Ahead(sq, white, 11), white);
    var d := EnPassant(enPas, sq, Ahead(sq, white, 9), fixed);
    var e := EnPassant(enPas, sq, Ahead(sq, white, 11), fixed);
    DecodedAppend(a, b);
    DecodedAppend(a + b, c);
    DecodedAppend(a + b + c, d);
    DecodedAppend(a + b + c + d, e);
    r := a + b + c + d + e;
  }

  // ---------------------------------------------------------------------
  // The pawn loop
  // ---------------------------------------------------------------------

  predicate AllOnBoard(squares: seq<nat>) {
    forall k :: 0 <= k < |squares| ==> OnBoard(squares[k])
  }

  /** The most moves one pawn can add: four promotions by a push, four by
      each capture and one en-passant capture. */
  const MostPerPawn: nat := 13

  /** The live entries of the mover's pawn list: the loop runs over
      `getPieceListSq(pawn, 0 .. getPieceNum(pawn))`. The black loop runs
      whenever white is not to move. */
  function MoverPawns(pos: Position): seq<nat>
    requires WellFormed(pos)
  {
    Live(pos, PawnOf(pos.side == WHITE))
  }

  /** The generator's precondition in the model: the position is well formed,
      the mover's pawns stand on board squares (as `check` guarantees), and
      the list has room for the most moves the pawns can add. */
  predicate CanGenerate(list: MoveList, pos: Position) {
    && WellFormed(pos)
    && AllOnBoard(MoverPawns(pos))
    && |list| + MostPerPawn * |MoverPawns(pos)| <= MaxMoves
  }

  /** The pawn loop: each pawn of `pawns` in turn appends its moves to the
      list. What it appends is the plans of the pawns, one after another.
      The moves are gathered first and appended at the end, which gives the
      same list. */
  method Sweep(list: MoveList, board: seq<nat>, enPas: nat, pawns: seq<nat>, white: bool, fixed: bool) returns (r: MoveList)
    requires Framed(board) && AllOnBoard(pawns)
    ensures |list| <= |r| <= |list| + MostPerPawn * |pawns| && r[..|list|] == list
    ensures Decoded(r[|list|..]) == Flatten(PawnPlans(board, enPas, pawns, white, fixed), |pawns|)
  {
    var added: seq<Move> := [];
    var i := 0;
    while i < |pawns|
      invariant 0 <= i <= |pawns|
      invariant |added| <= MostPerPawn * i
      invariant Appended(board, enPas, pawns, white, fixed, added, i)
    {
      var moves := Round(board, enPas, pawns, white, fixed, i, added);
      added := added + moves;
      i := i + 1;
    }
    r := list + added;
    assert r[..|list|] == list && r[|list|..] == added;
  }

  /** One round of the pawn loop: the moves of pawn `i`, which extend what the
      earlier rounds added by that pawn's plan. */
  method Round(board: seq<nat>, enPas: nat, pawns: seq<nat>, white: bool, fixed: bool, i: nat, added: seq<Move>)
    returns (moves: seq<Move>)
    requires Framed(board) && AllOnBoard(pawns) && i < |pawns|
    requires Appended(board, enPas, pawns, white, fixed, added, i)
    ensures |moves| <= MostPerPawn
    ensures Appended(board, enPas, pawns, white, fixed, added + moves, i + 1)
  {
    moves := PawnMoves(board, enPas, pawns[i], white, fixed);
    RoundAppends(board, enPas, pawns, white, fixed, i, added, moves);
  }

  /** `added` holds the moves of the first `i` pawns of `pawns`. */
  ghost predicate Appended(board: seq<nat>, enPas: nat, pawns: seq<nat>, white: bool, fixed: bool, added: seq<Move>, i: nat)
    requires Framed(board) && AllOnBoard(pawns) && i <= |pawns|
  {
    Decoded(added) == Flatten(PawnPlans(board, enPas, pawns, white, fixed), i)
  }

  /** One round of the pawn loop: appending the moves of pawn `i` extends
      the flattened plans by that pawn's plan. */
  lemma RoundAppends(board: seq<nat>, enPas: nat, pawns: seq<nat>, white: bool, fixed: bool, i: nat, added: seq<Move>, moves: seq<Move>)
    requires Framed(board) && AllOnBoard(pawns) && i < |pawns|
    requires Appended(board, enPas, pawns, white, fixed, added, i)
    requires Decoded(moves) == PawnPlan(board, enPas, pawns[i], white, fixed)
    ensures Appended(board, enPas, pawns, white, fixed, added + moves, i + 1)
  {
    var plans := PawnPlans(board, enPas, pawns, white, fixed);
    assert plans[i] == PawnPlan(board, enPas, pawns[i], white, fixed);
    DecodedAppend(added, moves);
  }

  /** `GenerateAllMoves`, with the en-passant test guarded against an unset
      square: the white pawn loop when white is to move and the black one
      otherwise, appended to the list. The slider and stepper loops append
      nothing. The moves it appends are the plans of the mover's live pawns
      in list order, with promotions in the order Q, R, B, N; each is allowed
      for the pawn it moves, and none is an en-passant capture while the
      en-passant square is unset. */
  method GenerateAllMoves(list: MoveList, pos: Position) returns (r: MoveList)
    requires CanGenerate(list, pos)
    ensures |list| <= |r| <= MaxMoves && r[..|list|] == list
    ensures Decoded(r[|list|..]) == Flatten(PawnPlans(pos.board, pos.enPas, MoverPawns(pos), pos.side == WHITE, true), |MoverPawns(pos)|)
    ensures forall f :: f in Decoded(r[|list|..]) <==>
      exists k :: 0 <= k < |MoverPawns(pos)| &&
        f in PawnPlan(pos.board, pos.enPas, MoverPawns(pos)[k], pos.side == WHITE, true)
    ensures forall f :: f in Decoded(r[|list|..]) ==>
      exists k :: 0 <= k < |MoverPawns(pos)| &&
        Allowed(pos.board, pos.enPas, MoverPawns(pos)[k], pos.side == WHITE, true, f)
    ensures pos.enPas == NO_SQ ==> forall f :: f in Decoded(r[|list|..]) ==> !f.enPas
  {
    var pawns, white := MoverPawns(pos), pos.side == WHITE;
    r := Sweep(list, pos.board, pos.enPas, pawns, white, true);
    PlannedMoves(pos.board, pos.enPas, pawns, white, true);
    PlannedSound(pos.board, pos.enPas, pawns, white, true);
  }

  /** `GenerateAllMoves` as written: the en-passant test compares with the
      en-passant square even when it is unset, so with white to move, no
      en-passant square and a white pawn on H7, it appends an en-passant
      capture onto `NO_SQ`, a square off the board. */
  method GenerateAllMovesAsWritten(list: MoveList, pos: Position) returns (r: MoveList)
    requires CanGenerate(list, pos)
    ensures |list| <= |r| <= MaxMoves && r[..|list|] == list
    ensures Decoded(r[|list|..]) == Flatten(PawnPlans(pos.board, pos.enPas, MoverPawns(pos), pos.side == WHITE, false), |MoverPawns(pos)|)
    ensures forall f :: f in Decoded(r[|list|..]) <==>
      exists k :: 0 <= k < |MoverPawns(pos)| &&
        f in PawnPlan(pos.board, pos.enPas, MoverPawns(pos)[k], pos.side == WHITE, false)
    ensures pos.side == WHITE && pos.enPas == NO_SQ && H7 in MoverPawns(pos) ==>
      exists f :: f in Decoded(r[|list|..]) && f.enPas && f.to == NO_SQ && !OnBoard(f.to)
  {
    var pawns, white := MoverPawns(pos), pos.side == WHITE;
    r := Sweep(list, pos.board, pos.enPas, pawns, white, false);
    PlannedMoves(pos.board, pos.enPas, pawns, white, false);
    if white && pos.enPas == NO_SQ && H7 in pawns {
      var k :| 0 <= k < |pawns| && pawns[k] == H7;
      BogusEnPassant(pos.board, pawns, k);
    }
  }

  // ---------------------------------------------------------------------
  // Properties of a pawn's moves
  // ---------------------------------------------------------------------

  /** A pawn adds at most 13 moves: it cannot both promote and double push,
      and at most one diagonal square is the en-passant square. */
  lemma PlanSize(board: seq<nat>, enPas: nat, sq: nat, white: bool, fixed: bool)
    requires Framed(board) && OnBoard(sq)
    ensures |PawnPlan(board, enPas, sq, white, fixed)| <= MostPerPawn
  {
    assert |PushPlan(board, sq, white)| <= 4 by {
      if OnLastRank(sq, white) {
        assert RankOf(sq) != StartRank(white);
      }
    }
    assert Ahead(sq, white, 9) != Ahead(sq, white, 11);
  }

  /** What the generator may emit for the pawn on `sq`: a push onto the empty
      square ahead, a double push from the start rank over two empty squares,
      a diagonal capture of an opponent piece on the board recording that
      piece, or an en-passant capture onto the en-passant square recording
      nothing. Exactly the moves that are neither en passant nor double
      pushes promote, when the pawn stands on the last rank, and they promote
      to a piece of its own colour. */
  predicate Allowed(board: seq<nat>, enPas: nat, sq: nat, white: bool, fixed: bool, f: Fields)
    requires Framed(board) && OnBoard(sq)
  {
    var push, double := Ahead(sq, white, 10), Ahead(sq, white, 20);
    var left, right := Ahead(sq, white, 9), Ahead(sq, white, 11);
    && f.from == sq && !f.castle
    && ((f.to == push && board[push] == EMPTY && f.captured == EMPTY && !f.enPas && !f.pawnStart)
        || (f.to == double && f.pawnStart && RankOf(sq) == StartRank(white) && board[push] == EMPTY
            && board[double] == EMPTY && f.captured == EMPTY && !f.enPas)
        || ((f.to == left || f.to == right) && OnBoard(f.to) && IsOpponent(board[f.to], white)
            && f.captured == board[f.to] && !f.enPas && !f.pawnStart)
        || ((f.to == left || f.to == right) && f.enPas && EnPasHit(f.to, enPas, fixed)
            && f.captured == EMPTY && !f.pawnStart))
    && (f.promoted != EMPTY <==> OnLastRank(sq, white) && !f.enPas && !f.pawnStart)
    && (f.promoted != EMPTY ==> f.promoted in Promotions(white))
  }

  /** Every entry of `Promote` is the move it names, promoting exactly from
      the last rank and then to a piece of the mover's colour. */
  lemma PromoteEntries(from: nat, to: nat, captured: nat, white: bool)
    ensures forall i :: 0 <= i < |Promote(from, to, captured, white)| ==>
      var f := Promote(from, to, captured, white)[i];
      && f.from == from && f.to == to && f.captured == captured && !f.castle && !f.enPas && !f.pawnStart
      && (f.promoted != EMPTY <==> OnLastRank(from, white))
      && (f.promoted != EMPTY ==> f.promoted in Promotions(white))
  {
    PromotionCodes(white);
    var ps := Promotions(white);
    assert ps[0] != EMPTY && ps[1] != EMPTY && ps[2] != EMPTY && ps[3] != EMPTY;
  }

  lemma PushSound(board: seq<nat>, enPas: nat, sq: nat, white: bool, fixed: bool)
    requires Framed(board) && OnBoard(sq)
    ensures forall i :: 0 <= i < |PushPlan(board, sq, white)| ==>
      Allowed(board, enPas, sq, white, fixed, PushPlan(board, sq, white)[i])
  {
    var push := Ahead(sq, white, 10);
    if board[push] == EMPTY {
      PromoteEntries(sq, push, EMPTY, white);
      var pr, dp := Promote(sq, push, EMPTY, white), DoublePlan(board, sq, white);
      assert PushPlan(board, sq, white) == pr + dp;
      if |dp| == 1 {
        assert !OnLastRank(sq, white);
        assert Allowed(board, enPas, sq, white, fixed, dp[0]);
      }
      forall i | 0 <= i < |pr| ensures Allowed(board, enPas, sq, white, fixed, pr[i]) {
      }
    }
  }

  lemma CaptureSound(board: seq<nat>, enPas: nat, sq: nat, to: int, white: bool, fixed: bool)
    requires Framed(board) && OnBoard(sq) && (to == Ahead(sq, white, 9) || to == Ahead(sq, white, 11))
    ensures forall i :: 0 <= i < |CapturePlan(board, sq, to, white)| ==>
      Allowed(board, enPas, sq, white, fixed, CapturePlan(board, sq, to, white)[i])
  {
    if OnBoard(to) && IsOpponent(board[to], white) {
      PromoteEntries(sq, to, board[to], white);
    }
  }

  lemma EnPasSound(board: seq<nat>, enPas: nat, sq: nat, to: int, white: bool, fixed: bool)
    requires Framed(board) && OnBoard(sq) && (to == Ahead(sq, white, 9) || to == Ahead(sq, white, 11))
    ensures forall i :: 0 <= i < |EnPasPlan(enPas, sq, to, fixed)| ==>
      Allowed(board, enPas, sq, white, fixed, EnPasPlan(enPas, sq, to, fixed)[i])
  {
  }

  /** Every move the generator plans for a pawn is allowed for it. */
  lemma PlanSound(board: seq<nat>, enPas: nat, sq: nat, white: bool, fixed: bool)
    requires Framed(board) && OnBoard(sq)
    ensures forall i :: 0 <= i < |PawnPlan(board, enPas, sq, white, fixed)| ==>
      Allowed(board, enPas, sq, white, fixed, PawnPlan(board, enPas, sq, white, fixed)[i])
  {
    var left, right := Ahead(sq, white, 9), Ahead(sq, white, 11);
    PushSound(board, enPas, sq, white, fixed);
    CaptureSound(board, enPas, sq, left, white, fixed);
    CaptureSound(board, enPas, sq, right, white, fixed);
    EnPasSound(board, enPas, sq, left, white, fixed);
    EnPasSound(board, enPas, sq, right, white, fixed);
    var a, b, c := PushPlan(board, sq, white), CapturePlan(board, sq, left, white), CapturePlan(board, sq, right, white);
    var d, e := EnPasPlan(enPas, sq, left, fixed), EnPasPlan(enPas, sq, right, fixed);
    var p := a + b + c + d + e;
    forall i | 0 <= i < |p| ensures Allowed(board, enPas, sq, white, fixed, p[i]) {
      if i < |a| { assert p[i] == a[i]; }
      else if i < |a| + |b| { assert p[i] == b[i - |a|]; }
      else if i < |a| + |b| + |c| { assert p[i] == c[i - |a| - |b|]; }
      else if i < |a| + |b| + |c| + |d| { assert p[i] == d[i - |a| - |b| - |c|]; }
      else { assert p[i] == e[i - |a| - |b| - |c| - |d|]; }
    }
  }

  /** The generator pushes a pawn exactly when the square ahead is empty. */
  lemma PushExactly(board: seq<nat>, enPas: nat, sq: nat, white: bool, fixed: bool)
    requires Framed(board) && OnBoard(sq)
    ensures var p := PawnPlan(board, enPas, sq, white, fixed);
      (exists i :: 0 <= i < |p| && p[i].to == Ahead(sq, white, 10)) <==> board[Ahead(sq, white, 10)] == EMPTY
  {
    var p := PawnPlan(board, enPas, sq, white, fixed);
    PlanSound(board, enPas, sq, white, fixed);
    if board[Ahead(sq, white, 10)] == EMPTY {
      assert p[0] == Promote(sq, Ahead(sq, white, 10), EMPTY, white)[0];
    } else {
      forall i | 0 <= i < |p| ensures p[i].to != Ahead(sq, white, 10) {
        assert Allowed(board, enPas, sq, white, fixed, p[i]);
      }
    }
  }

  /** From the last rank the push comes first as four promotions, in the
      order queen, rook, bishop, knight. */
  lemma PushPromotes(board: seq<nat>, enPas: nat, sq: nat, white: bool, fixed: bool)
    requires Framed(board) && OnBoard(sq) && OnLastRank(sq, white) && board[Ahead(sq, white, 10)] == EMPTY
    ensures var p := PawnPlan(board, enPas, sq, white, fixed);
      |p| >= 4 && forall j :: 0 <= j < 4 ==>
        p[j] == Fields(sq, Ahead(sq, white, 10), EMPTY, Promotions(white)[j], false, false, false)
  {
    var p := PawnPlan(board, enPas, sq, white, fixed);
    var pr := Promote(sq, Ahead(sq, white, 10), EMPTY, white);
    PromotionCodes(white);
    assert |pr| == 4 && p[..4] == pr;
  }

  /** The generator double pushes exactly from the start rank over two empty
      squares. */
  lemma DoublePushExactly(board: seq<nat>, enPas: nat, sq: nat, white: bool, fixed: bool)
    requires Framed(board) && OnBoard(sq)
    ensures var p := PawnPlan(board, enPas, sq, white, fixed);
      (exists i :: 0 <= i < |p| && p[i].pawnStart)
      <==> RankOf(sq) == StartRank(white) && board[Ahead(sq, white, 10)] == EMPTY && board[Ahead(sq, white, 20)] == EMPTY
  {
    var p := PawnPlan(board, enPas, sq, white, fixed);
    PlanSound(board, enPas, sq, white, fixed);
    var push, double := Ahead(sq, white, 10), Ahead(sq, white, 20);
    if RankOf(sq) == StartRank(white) && board[push] == EMPTY && board[double] == EMPTY {
      var pr := Promote(sq, push, EMPTY, white);
      assert p[|pr|] == Fields(sq, double, EMPTY, EMPTY, false, false, true);
    } else {
      forall i | 0 <= i < |p| ensures !p[i].pawnStart {
        assert Allowed(board, enPas, sq, white, fixed, p[i]);
      }
    }
  }

  /** The generator captures diagonally onto `to` exactly when an opponent
      piece stands there on the board, and records that piece. */
  lemma CaptureExactly(board: seq<nat>, enPas: nat, sq: nat, to: int, white: bool, fixed: bool)
    requires Framed(board) && OnBoard(sq) && (to == Ahead(sq, white, 9) || to == Ahead(sq, white, 11))
    ensures var p := PawnPlan(board, enPas, sq, white, fixed);
      && ((exists i :: 0 <= i < |p| && p[i].to == to && !p[i].enPas) <==> OnBoard(to) && IsOpponent(board[to], white))
      && (forall i :: 0 <= i < |p| && p[i].to == to && !p[i].enPas ==> p[i].captured == board[to])
  {
    var p := PawnPlan(board, enPas, sq, white, fixed);
    PlanSound(board, enPas, sq, white, fixed);
    var left, right := Ahead(sq, white, 9), Ahead(sq, white, 11);
    forall i | 0 <= i < |p| && p[i].to == to && !p[i].enPas
      ensures OnBoard(to) && IsOpponent(board[to], white) && p[i].captured == board[to]
    {
      assert Allowed(board, enPas, sq, white, fixed, p[i]);
    }
    if OnBoard(to) && IsOpponent(board[to], white) {
      var a, b := PushPlan(board, sq, white), CapturePlan(board, sq, left, white);
      var k := if to == left then |a| else |a| + |b|;
      assert p[k] == Promote(sq, to, board[to], white)[0];
    }
  }

  /** The generator captures en passant onto `to` exactly when the
      en-passant test holds for it. */
  lemma EnPasExactly(board: seq<nat>, enPas: nat, sq: nat, to: int, white: bool, fixed: bool)
    requires Framed(board) && OnBoard(sq) && (to == Ahead(sq, white, 9) || to == Ahead(sq, white, 11))
    ensures var p := PawnPlan(board, enPas, sq, white, fixed);
      (exists i :: 0 <= i < |p| && p[i].to == to && p[i].enPas) <==> EnPasHit(to, enPas, fixed)
  {
    var p := PawnPlan(board, enPas, sq, white, fixed);
    PlanSound(board, enPas, sq, white, fixed);
    var left, right := Ahead(sq, white, 9), Ahead(sq, white, 11);
    forall i | 0 <= i < |p| && p[i].to == to && p[i].enPas ensures EnPasHit(to, enPas, fixed) {
      assert Allowed(board, enPas, sq, white, fixed, p[i]);
    }
    if EnPasHit(to, enPas, fixed) {
      var a, b, c := PushPlan(board, sq, white), CapturePlan(board, sq, left, white), CapturePlan(board, sq, right, white);
      var d := EnPasPlan(enPas, sq, left, fixed);
      var k := if to == left then |a| + |b| + |c| else |a| + |b| + |c| + |d|;
      assert p[k] == Fields(sq, to, EMPTY, EMPTY, false, true, false);
    }
  }

  // ---------------------------------------------------------------------
  // Properties of the generator
  // ---------------------------------------------------------------------

  /** The plans of the first `n` entries of `plans`, one after another. */
  ghost function Flatten(plans: seq<seq<Fields>>, n: nat): seq<Fields>
    requires n <= |plans|
  {
    if n == 0 then [] else Flatten(plans, n - 1) + plans[n - 1]
  }

  /** A move is in the flattened plans exactly when one of them holds it. */
  lemma {:induction false} FlattenHas(plans: seq<seq<Fields>>, n: nat, f: Fields)
    requires n <= |plans|
    ensures f in Flatten(plans, n) <==> exists k :: 0 <= k < n && f in plans[k]
  {
    if n > 0 {
      FlattenHas(plans, n - 1, f);
      if f in plans[n - 1] {
        assert 0 <= n - 1 < n;
      }
    }
  }

  /** The plan of every pawn in `pawns`, in order. */
  ghost function PawnPlans(board: seq<nat>, enPas: nat, pawns: seq<nat>, white: bool, fixed: bool): (r: seq<seq<Fields>>)
    requires Framed(board) && AllOnBoard(pawns)
    ensures |r| == |pawns|
  {
    seq(|pawns|, k requires 0 <= k < |pawns| => PawnPlan(board, enPas, pawns[k], white, fixed))
  }

  /** Every move in the plans of `pawns` is planned for one of them, and every
      move planned for one of them is in the plans. */
  lemma PlannedMoves(board: seq<nat>, enPas: nat, pawns: seq<nat>, white: bool, fixed: bool)
    requires Framed(board) && AllOnBoard(pawns)
    ensures forall f :: f in Flatten(PawnPlans(board, enPas, pawns, white, fixed), |pawns|) <==>
      exists k :: 0 <= k < |pawns| && f in PawnPlan(board, enPas, pawns[k], white, fixed)
  {
    var plans, n := PawnPlans(board, enPas, pawns, white, fixed), |pawns|;
    forall f | f in Flatten(plans, n)
      ensures exists k :: 0 <= k < n && f in PawnPlan(board, enPas, pawns[k], white, fixed)
    {
      FlattenHas(plans, n, f);
      var k :| 0 <= k < n && f in plans[k];
      assert plans[k] == PawnPlan(board, enPas, pawns[k], white, fixed);
    }
    forall f, k | 0 <= k < n && f in PawnPlan(board, enPas, pawns[k], white, fixed)
      ensures f in Flatten(plans, n)
    {
      assert f in plans[k];
      FlattenHas(plans, n, f);
    }
  }

  /** Every move in the plans of `pawns` is allowed for one of the pawns. */
  lemma PlannedSound(board: seq<nat>, enPas: nat, pawns: seq<nat>, white: bool, fixed: bool)
    requires Framed(board) && AllOnBoard(pawns)
    ensures forall f :: f in Flatten(PawnPlans(board, enPas, pawns, white, fixed), |pawns|) ==>
      exists k :: 0 <= k < |pawns| && Allowed(board, enPas, pawns[k], white, fixed, f)
  {
    PlannedMoves(board, enPas, pawns, white, fixed);
    forall f | f in Flatten(PawnPlans(board, enPas, pawns, white, fixed), |pawns|)
      ensures exists k :: 0 <= k < |pawns| && Allowed(board, enPas, pawns[k], white, fixed, f)
    {
      var k :| 0 <= k < |pawns| && f in PawnPlan(board, enPas, pawns[k], white, fixed);
      PlanSound(board, enPas, pawns[k], white, fixed);
    }
  }

  /** Without the guard, a white pawn on H7 with the en-passant square unset
      plans an en-passant capture onto `NO_SQ`: H7 + 11 is `NO_SQ`. */
  lemma BogusEnPassant(board: seq<nat>, pawns: seq<nat>, k: nat)
    requires Framed(board) && AllOnBoard(pawns) && k < |pawns| && pawns[k] == H7
    ensures !OnBoard(NO_SQ)
    ensures exists f :: f in Flatten(PawnPlans(board, NO_SQ, pawns, true, false), |pawns|) && f.enPas && f.to == NO_SQ
  {
    EnPasExactly(board, NO_SQ, H7, Ahead(H7, true, 11), true, false);
    var p := PawnPlan(board, NO_SQ, H7, true, false);
    var j :| 0 <= j < |p| && p[j].to == NO_SQ && p[j].enPas;
    var plans := PawnPlans(board, NO_SQ, pawns, true, false);
    assert p[j] in plans[k];
    FlattenHas(plans, |pawns|, p[j]);
  }

  /** With the guard, an unset en-passant square plans no en-passant move. */
  lemma NoEnPassantWhenUnset(board: seq<nat>, pawns: seq<nat>, white: bool)
    requires Framed(board) && AllOnBoard(pawns)
    ensures forall f :: f in Flatten(PawnPlans(board, NO_SQ, pawns, white, true), |pawns|) ==> !f.enPas
  {
    PlannedSound(board, NO_SQ, pawns, white, true);
  }
}
