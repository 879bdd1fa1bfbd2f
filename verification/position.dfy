/** The position of include/board.hpp and the queries of src/board.cpp that
    only read it: the consistency predicate `check`, the from-scratch hash
    `generate`, `reset` and the getters. */
module Board {
  import Util
  import opened Constants
  import opened Bitboard
  import opened ConstantsH
  import opened Ranges
  import opened Moves
  import opened Zobrist

  // ---------------------------------------------------------------------
  // Tables the engine fills at start-up
  // ---------------------------------------------------------------------

  /** The tables the position code reads but does not define: the Zobrist
      keys `pieceKeys[13][120]`, `castleKeys[16]` and `sideKey` (drawn from a
      random device at start-up), the castling-rights mask `bCastlePerm[120]`
      and the pawn marker `pieceP[13]`. */
  datatype Env = Env(
    pieceKeys: seq<seq<bv64>>,
    castleKeys: seq<bv64>,
    sideKey: bv64,
    bCastlePerm: seq<bv8>,
    pieceP: seq<bool>)

  predicate EnvOk(env: Env) {
    && |env.pieceKeys| == 13
    && (forall p :: 0 <= p < 13 ==> |env.pieceKeys[p]| == LargeNC)
    && |env.castleKeys| == 16
    && |env.bCastlePerm| == LargeNC
    && |env.pieceP| == 13
  }

  // ---------------------------------------------------------------------
  // Position
  // ---------------------------------------------------------------------

  /** The fields of `Board`. `pieceList[p]` keeps all ten slots: the first
      `pieceNum[p]` are live, the rest hold whatever was last written there. */
  datatype Position = Position(
    board: seq<nat>,
    pawns: seq<bv64>,
    kings: seq<nat>,
    side: nat,
    enPas: nat,
    fiftyMove: nat,
    castlePerm: bv8,
    ply: int,
    hisPly: int,
    posKey: bv64,
    pieceNum: seq<nat>,
    bigPiece: seq<int>,
    majPiece: seq<int>,
    minPiece: seq<int>,
    material: seq<int>,
    history: seq<Undo>,
    pieceList: seq<seq<nat>>)

  /** What a padded-board cell may hold: a piece or `EMPTY` on the board and
      `OFFBOARD` around it. */
  predicate CellOk(sq: int, v: nat) {
    if OnBoard(sq) then v <= bK else v == OFFBOARD
  }

  /** A 120-cell board with its sentinel frame. */
  predicate Framed(board: seq<nat>) {
    |board| == LargeNC && forall sq {:trigger CellOk(sq, board[sq])} :: 0 <= sq < LargeNC ==> CellOk(sq, board[sq])
  }

  /** The array sizes and value ranges of the fields: the board keeps its
      sentinel frame, list slots and king squares are padded squares, and the
      unsigned-char fields stay in range. */
  predicate WellFormed(pos: Position) {
    && Framed(pos.board)
    && |pos.pawns| == 3
    && |pos.kings| == 2 && pos.kings[WHITE] < LargeNC && pos.kings[BLACK] < LargeNC
    && pos.enPas < LargeNC
    && pos.fiftyMove < 256
    && pos.castlePerm <= 15
    && |pos.pieceNum| == 13 && (forall p :: 0 <= p < 13 ==> pos.pieceNum[p] <= 10)
    && |pos.bigPiece| == 2 && |pos.majPiece| == 2 && |pos.minPiece| == 2
    && |pos.material| == 2
    && SlotsOk(pos.pieceList)
  }

  /** Thirteen lists of ten padded-board squares. */
  predicate SlotsOk(pieceList: seq<seq<nat>>) {
    && |pieceList| == 13
    && (forall p :: 0 <= p < 13 ==> |pieceList[p]| == 10)
    && (forall p, i :: 0 <= p < 13 && 0 <= i < 10 ==> pieceList[p][i] < LargeNC)
  }

  /** The live entries of a piece list. */
  function Live(pos: Position, p: nat): seq<nat>
    requires WellFormed(pos) && p < 13
  {
    pos.pieceList[p][..pos.pieceNum[p]]
  }

  // ---------------------------------------------------------------------
  // What the board determines
  // ---------------------------------------------------------------------

  /** The squares below `n` holding `p`, in ascending order. */
  function SquaresOf(board: seq<nat>, p: nat, n: nat): seq<nat>
    requires n <= |board|
  {
    if n == 0 then [] else SquaresOf(board, p, n - 1) + (if board[n - 1] == p then [n - 1] else [])
  }

  /** The sum of `w` over the cells below `n`. */
  function Tally(board: seq<nat>, n: nat, w: nat -> int): int
    requires n <= |board|
  {
    if n == 0 then 0 else Tally(board, n - 1, w) + w(board[n - 1])
  }

  /** Per-cell weights of the counters `check` recomputes. */
  function MaterialW(c: nat): nat -> int {
    (v: nat) => if IsPieceValid(v) && PieceCol[v] == c then PieceVal[v] else 0
  }

  function BigW(c: nat): nat -> int {
    (v: nat) => if IsPieceValid(v) && PieceCol[v] == c && PieceBig[v] then 1 else 0
  }

  function MajW(c: nat): nat -> int {
    (v: nat) => if IsPieceValid(v) && PieceCol[v] == c && PieceBig[v] && PieceMaj[v] then 1 else 0
  }

  function MinW(c: nat): nat -> int {
    (v: nat) => if IsPieceValid(v) && PieceCol[v] == c && PieceBig[v] && PieceMin[v] then 1 else 0
  }

  /** Bit `j` of `bb` is set exactly when real-board square `j` holds `a` or `b`. */
  predicate PawnBitsMatch(bb: bv64, board: seq<nat>, a: nat, b: nat)
    requires |board| == LargeNC
  {
    forall j {:trigger IsSet(bb, j)} :: 0 <= j < RegularNC ==>
      (IsSet(bb, j) <==> board[Convert64To120(j)] == a || board[Convert64To120(j)] == b)
  }

  /** One per cell holding `p`. */
  function CountW(p: nat): nat -> int {
    (v: nat) => if v == p then 1 else 0
  }

  /** The live entries of `p`'s list are distinct squares holding `p`, every
      square holding `p` is among them, and their number is the number of
      such squares. */
  predicate ListMatches(pos: Position, p: nat)
    requires WellFormed(pos) && p < 13
  {
    && ListAgrees(pos.pieceList[p], pos.pieceNum[p], pos.board, p)
    && pos.pieceNum[p] == Tally(pos.board, LargeNC, CountW(p))
  }

  /** The first `n` entries of `list` are distinct squares holding `p`, and
      every square holding `p` is one of them. */
  predicate ListAgrees(list: seq<nat>, n: nat, board: seq<nat>, p: nat)
    requires n <= |list| && |board| == LargeNC
    requires forall k :: 0 <= k < n ==> list[k] < LargeNC
  {
    && (forall k :: 0 <= k < n ==> board[list[k]] == p)
    && (forall k, k' :: 0 <= k < k' < n ==> list[k] != list[k'])
    && (forall sq :: 0 <= sq < LargeNC && board[sq] == p ==> sq in list[..n])
  }

  predicate ListsMatch(pos: Position)
    requires WellFormed(pos)
  {
    forall p :: wP <= p <= bK ==> ListMatches(pos, p)
  }

  /** The three pawn bitboards mark the pawn squares, with the popcounts the
      piece counts give. */
  predicate PawnsMatch(pos: Position)
    requires WellFormed(pos)
  {
    && PawnBitsMatch(pos.pawns[WHITE], pos.board, wP, wP)
    && PawnBitsMatch(pos.pawns[BLACK], pos.board, bP, bP)
    && PawnBitsMatch(pos.pawns[BOTH], pos.board, wP, bP)
    && CountBit(pos.pawns[WHITE]) == pos.pieceNum[wP]
    && CountBit(pos.pawns[BLACK]) == pos.pieceNum[bP]
    && CountBit(pos.pawns[BOTH]) == pos.pieceNum[wP] + pos.pieceNum[bP]
  }

  /** Material and the big/major/minor counters are the board's sums. */
  predicate CountersMatch(pos: Position)
    requires WellFormed(pos)
  {
    forall c :: 0 <= c < 2 ==>
      && pos.material[c] == Tally(pos.board, LargeNC, MaterialW(c))
      && pos.bigPiece[c] == Tally(pos.board, LargeNC, BigW(c))
      && pos.majPiece[c] == Tally(pos.board, LargeNC, MajW(c))
      && pos.minPiece[c] == Tally(pos.board, LargeNC, MinW(c))
  }

  /** Every field derived from the board agrees with it. */
  predicate Consistent(pos: Position) {
    WellFormed(pos) && ListsMatch(pos) && PawnsMatch(pos) && CountersMatch(pos)
  }

  // ---------------------------------------------------------------------
  // Zobrist hash
  // ---------------------------------------------------------------------

  /** The key a cell contributes: the piece's key at that square, nothing for
      `NO_SQ`, `EMPTY` and `OFFBOARD`. A framed board holds no other value
      outside `wP..bK`; the model gives such a value no key where the C++
      would index past `pieceKeys`. */
  function CellKey(env: Env, v: nat, sq: nat): bv64
    requires EnvOk(env) && sq < LargeNC
  {
    if v != NO_SQ && v != EMPTY && v != OFFBOARD && v <= bK then env.pieceKeys[v][sq] else 0
  }

  /** The XOR of the keys of the cells below `n`. */
  function BoardKey(env: Env, board: seq<nat>, n: nat): bv64
    requires EnvOk(env) && n <= |board| && n <= LargeNC
  {
    if n == 0 then 0 else Toggle(BoardKey(env, board, n - 1), CellKey(env, board[n - 1], n - 1))
  }

  function SideKey(env: Env, side: nat): bv64 {
    if side == WHITE then env.sideKey else 0
  }

  function EnPasKey(env: Env, enPas: nat): bv64
    requires EnvOk(env) && enPas < LargeNC
  {
    if enPas != NO_SQ then env.pieceKeys[EMPTY][enPas] else 0
  }

  function CastleKey(env: Env, castlePerm: bv8): bv64
    requires EnvOk(env) && castlePerm <= 15
  {
    env.castleKeys[castlePerm as nat]
  }

  /** `generate`: the board's keys, then the side key when white is to move,
      the en-passant key when a square is set, and the castling key. */
  function Generate(env: Env, pos: Position): bv64
    requires EnvOk(env) && WellFormed(pos)
  {
    var key := BoardKey(env, pos.board, LargeNC);
    var key := Toggle(key, SideKey(env, pos.side));
    var key := Toggle(key, EnPasKey(env, pos.enPas));
    Toggle(key, CastleKey(env, pos.castlePerm))
  }

  // ---------------------------------------------------------------------
  // check
  // ---------------------------------------------------------------------

  /** The en-passant square is unset, or on rank 6 with white to move, or on
      rank 3 with black to move. */
  predicate EnPasOk(pos: Position)
    requires WellFormed(pos)
  {
    GeometryAt(pos.enPas);
    || pos.enPas == NO_SQ
    || (BRanks[pos.enPas] == RANK_6 && pos.side == WHITE)
    || (BRanks[pos.enPas] == RANK_3 && pos.side == BLACK)
  }

  predicate KingsOk(pos: Position)
    requires WellFormed(pos)
  {
    pos.board[pos.kings[WHITE]] == wK && pos.board[pos.kings[BLACK]] == bK
  }

  /** What `check` tests, plus the list and frame invariants that `update`,
      `makeMove` and `takeBackMove` keep but `check` does not test: the lists,
      counters and bitboards agree with the board, the side is a colour, the
      hash is the from-scratch hash, the en-passant square fits the side, the
      kings are where they are recorded and the castling rights fit in four
      bits; beyond `check`, the live list entries are distinct, the board
      keeps its `OFFBOARD` frame and no piece count exceeds ten. */
  predicate Valid(env: Env, pos: Position) {
    && EnvOk(env)
    && Consistent(pos)
    && IsSideValid(pos.side)
    && pos.posKey == Generate(env, pos)
    && EnPasOk(pos)
    && KingsOk(pos)
  }

  // ---------------------------------------------------------------------
  // Facts about the board functions
  // ---------------------------------------------------------------------

  lemma {:induction false} SquaresOfContents(board: seq<nat>, p: nat, n: nat)
    requires n <= |board|
    ensures forall i :: 0 <= i < |SquaresOf(board, p, n)| ==>
      SquaresOf(board, p, n)[i] < n && board[SquaresOf(board, p, n)[i]] == p
    ensures forall sq :: 0 <= sq < n && board[sq] == p ==> sq in SquaresOf(board, p, n)
    ensures forall i, j :: 0 <= i < j < |SquaresOf(board, p, n)| ==>
      SquaresOf(board, p, n)[i] < SquaresOf(board, p, n)[j]
  {
    if n > 0 {
      SquaresOfContents(board, p, n - 1);
    }
  }

  /** A square is listed exactly when it is below `n` and holds `p`. */
  lemma SquaresOfMember(board: seq<nat>, p: nat, n: nat, sq: int)
    requires n <= |board|
    ensures sq in SquaresOf(board, p, n) <==> 0 <= sq < n && board[sq] == p
  {
    SquaresOfContents(board, p, n);
  }

  /** A write at or above `n` does not change the squares below `n`. */
  lemma {:induction false} SquaresOfAbove(board: seq<nat>, p: nat, n: nat, sq: nat, v: nat)
    requires n <= sq < |board|
    ensures SquaresOf(board[sq := v], p, n) == SquaresOf(board, p, n)
  {
    if n > 0 {
      SquaresOfAbove(board, p, n - 1, sq, v);
    }
  }

  /** Writing `v` at `sq` changes each tally by the difference of the weights. */
  lemma {:induction false} TallyUpdate(board: seq<nat>, n: nat, w: nat -> int, sq: nat, v: nat)
    requires n <= |board| && sq < |board|
    ensures Tally(board[sq := v], n, w) == Tally(board, n, w) + (if sq < n then w(v) - w(board[sq]) else 0)
  {
    if n > 0 {
      TallyUpdate(board, n - 1, w, sq, v);
    }
  }

  /** A write keeps the frame when the written value suits the cell. */
  lemma FramedUpdate(board: seq<nat>, sq: nat, v: nat)
    requires Framed(board) && sq < LargeNC && CellOk(sq, v)
    ensures Framed(board[sq := v])
  {
  }

  /** A write at or above `n` does not change the key of the cells below `n`. */
  lemma {:induction false} BoardKeyAbove(env: Env, board: seq<nat>, n: nat, sq: nat, v: nat)
    requires EnvOk(env) && n <= sq < |board| && n <= LargeNC
    ensures BoardKey(env, board[sq := v], n) == BoardKey(env, board, n)
  {
    if n > 0 {
      BoardKeyAbove(env, board, n - 1, sq, v);
    }
  }

  /** Writing `v` at `sq` toggles the key of the old content out and the key
      of the new content in. */
  lemma {:induction false} BoardKeyUpdate(env: Env, board: seq<nat>, n: nat, sq: nat, v: nat)
    requires EnvOk(env) && sq < n <= |board| && n <= LargeNC
    ensures BoardKey(env, board[sq := v], n)
      == Toggle(Toggle(BoardKey(env, board, n), CellKey(env, board[sq], sq)), CellKey(env, v, sq))
  {
    var k := n - 1;
    var x := BoardKey(env, board, k);
    var was, now := CellKey(env, board[sq], sq), CellKey(env, v, sq);
    if k == sq {
      BoardKeyAbove(env, board, k, sq, v);
      ToggleTwice(x, was);
    } else {
      BoardKeyUpdate(env, board, k, sq, v);
      var c := CellKey(env, board[k], k);
      assert board[sq := v][k] == board[k];
      ToggleSwap(Toggle(x, was), now, c);
      ToggleSwap(x, was, c);
    }
  }

  // ---------------------------------------------------------------------
  // reset and the constructors
  // ---------------------------------------------------------------------

  /** The empty board: `EMPTY` on the 64 squares in an `OFFBOARD` frame. */
  const EmptyBoard: seq<nat> := Shell64(Util.UniqueSequence(EMPTY, RegularNC))

  lemma EmptyBoardAt(sq: int)
    requires 0 <= sq < LargeNC
    ensures |EmptyBoard| == LargeNC
    ensures EmptyBoard[sq] == (if OnBoard(sq) then EMPTY else OFFBOARD)
  {
    var s := Util.UniqueSequence(EMPTY, RegularNC);
    Shell64Check(s);
    CoreOfOnBoard(sq);
  }

  /** The board src/board.cpp:8 builds: the numbers `0..63` in an `OFFBOARD`
      frame, which is the `Board120` table. */
  const ResetBoardAsWritten: seq<nat> := Shell64(Util.SimpleSequence(EMPTY, RegularNC - 1))

  /** `reset`, with the board it is meant to build. It leaves the history and
      the piece-list slots as they were; the counts that make slots live are
      zeroed. */
  function Reset(pos: Position): Position {
    pos.(
      board := EmptyBoard,
      pawns := [0, 0, 0],
      bigPiece := [0, 0], majPiece := [0, 0], minPiece := [0, 0],
      pieceNum := seq(13, _ => 0),
      material := [0, 0],
      kings := [0, 0],
      side := BOTH, enPas := NO_SQ, fiftyMove := 0, castlePerm := 0,
      ply := 0, hisPly := 0, posKey := 0)
  }

  /** `reset` with the board of src/board.cpp:8. */
  function ResetAsWritten(pos: Position): Position {
    Reset(pos).(board := ResetBoardAsWritten)
  }

  /** The empty ten-slot lists a new `Board` starts from. The C++ leaves them
      uninitialised; any value works, since `reset` makes none of them live. */
  const BlankLists: seq<seq<nat>> := seq(13, _ => seq(10, _ => 0))

  /** `Board()`: a fresh object with no history, then `reset`. */
  const NewBoard: Position := Reset(Position([], [], [], 0, 0, 0, 0, 0, 0, 0, [], [], [], [], [], [], BlankLists))

  lemma {:induction false} TallyEmptyBoard(w: nat -> int, n: nat)
    requires n <= LargeNC && w(EMPTY) == 0 && w(OFFBOARD) == 0
    ensures Tally(EmptyBoard, n, w) == 0
  {
    if n > 0 {
      TallyEmptyBoard(w, n - 1);
      EmptyBoardAt(n - 1);
    }
  }

  /** After `reset` every counter, list and bitboard agrees with the board it
      builds, and the position is well formed whatever it was before. */
  lemma ResetConsistent(pos: Position)
    requires SlotsOk(pos.pieceList)
    ensures Consistent(Reset(pos))
    ensures Reset(pos).history == pos.history
  {
    ResetWellFormed(pos);
    ResetListsMatch(pos);
    ResetPawnsMatch(pos);
    ResetCountersMatch(pos);
  }

  lemma ResetWellFormed(pos: Position)
    requires SlotsOk(pos.pieceList)
    ensures WellFormed(Reset(pos))
  {
    var r := Reset(pos);
    forall sq | 0 <= sq < LargeNC
      ensures CellOk(sq, r.board[sq])
    {
      EmptyBoardAt(sq);
    }
  }

  lemma ResetListsMatch(pos: Position)
    requires SlotsOk(pos.pieceList)
    ensures WellFormed(Reset(pos)) && ListsMatch(Reset(pos))
  {
    ResetWellFormed(pos);
    var r := Reset(pos);
    forall p | wP <= p <= bK
      ensures ListMatches(r, p)
    {
      TallyEmptyBoard(CountW(p), LargeNC);
      forall sq | 0 <= sq < LargeNC
        ensures r.board[sq] != p
      {
        EmptyBoardAt(sq);
      }
    }
  }

  lemma ResetPawnsMatch(pos: Position)
    requires SlotsOk(pos.pieceList)
    ensures WellFormed(Reset(pos)) && PawnsMatch(Reset(pos))
  {
    ResetWellFormed(pos);
    EmptyBoardNoPawns();
    CountBitPopBit(0);
  }

  /** The empty board has no pawns, and the empty bitboard marks none. */
  lemma EmptyBoardNoPawns()
    ensures |EmptyBoard| == LargeNC
    ensures PawnBitsMatch(0, EmptyBoard, wP, wP) && PawnBitsMatch(0, EmptyBoard, bP, bP)
    ensures PawnBitsMatch(0, EmptyBoard, wP, bP)
  {
    EmptyBoardAt(0);
    forall j | 0 <= j < RegularNC
      ensures EmptyBoard[Convert64To120(j)] == EMPTY && !IsSet(0, j)
    {
      EmptyBoardAt(Convert64To120(j));
    }
  }

  lemma ResetCountersMatch(pos: Position)
    requires SlotsOk(pos.pieceList)
    ensures WellFormed(Reset(pos)) && CountersMatch(Reset(pos))
  {
    ResetWellFormed(pos);
    forall c | 0 <= c < 2 {
      EmptyBoardTallies(c);
    }
  }

  lemma EmptyBoardTallies(c: nat)
    ensures Tally(EmptyBoard, LargeNC, MaterialW(c)) == 0
    ensures Tally(EmptyBoard, LargeNC, BigW(c)) == 0
    ensures Tally(EmptyBoard, LargeNC, MajW(c)) == 0
    ensures Tally(EmptyBoard, LargeNC, MinW(c)) == 0
  {
    EmptyBoardAt(0);
    TallyEmptyBoard(MaterialW(c), LargeNC);
    TallyEmptyBoard(BigW(c), LargeNC);
    TallyEmptyBoard(MajW(c), LargeNC);
    TallyEmptyBoard(MinW(c), LargeNC);
  }

  /** The new board is the reset state with an empty history. */
  lemma NewBoardIsReset()
    ensures Consistent(NewBoard) && NewBoard.history == []
    ensures NewBoard.side == BOTH && NewBoard.enPas == NO_SQ && NewBoard.posKey == 0
  {
    ResetConsistent(Position([], [], [], 0, 0, 0, 0, 0, 0, 0, [], [], [], [], [], [], BlankLists));
  }

  /** The board src/board.cpp:8 builds is the numbering table. */
  lemma ResetBoardAsWrittenIsNumbering()
    ensures ResetBoardAsWritten == Board120
  {
  }

  /** So a reset position as written claims a white pawn on B1 and holds
      square numbers up to 63 where pieces belong: no position it produces is
      consistent. */
  lemma ResetAsWrittenInconsistent(pos: Position)
    ensures ResetAsWritten(pos).board[22] == wP
    ensures ResetAsWritten(pos).board[98] == 63
    ensures !Consistent(ResetAsWritten(pos))
  {
    ResetBoardAsWrittenIsNumbering();
    GeometryAt(22);
    GeometryAt(98);
    var r := ResetAsWritten(pos);
    assert !CellOk(98, r.board[98]);
  }

  // ---------------------------------------------------------------------
  // Getters
  // ---------------------------------------------------------------------

  function GetSide(pos: Position): nat { pos.side }

  function GetPiece(pos: Position, sq: nat): nat
    requires sq < |pos.board|
  {
    pos.board[sq]
  }

  function GetEnPas(pos: Position): nat { pos.enPas }

  function GetCastlePerm(pos: Position): bv8 { pos.castlePerm }

  function GetPieceNum(pos: Position, piece: nat): nat
    requires piece < |pos.pieceNum|
  {
    pos.pieceNum[piece]
  }

  /** `getPieceListSq(side, num)`: its first argument is a piece code. */
  function GetPieceListSq(pos: Position, piece: nat, num: nat): nat
    requires piece < |pos.pieceList| && num < |pos.pieceList[piece]|
  {
    pos.pieceList[piece][num]
  }

  /** In a valid position the first `getPieceNum(p)` slots of `p`'s list are
      distinct squares, each holding `p`, and every square holding `p` is one
      of them. */
  lemma PieceListSquares(env: Env, pos: Position, p: nat)
    requires Valid(env, pos) && IsPieceValid(p)
    ensures GetPieceNum(pos, p) <= 10
    ensures forall n :: 0 <= n < GetPieceNum(pos, p) ==>
      GetPiece(pos, GetPieceListSq(pos, p, n)) == p
    ensures forall sq :: 0 <= sq < LargeNC && GetPiece(pos, sq) == p ==>
      exists n :: 0 <= n < GetPieceNum(pos, p) && GetPieceListSq(pos, p, n) == sq
    ensures forall m, n :: 0 <= m < n < GetPieceNum(pos, p) ==>
      GetPieceListSq(pos, p, m) != GetPieceListSq(pos, p, n)
  {
    assert ListMatches(pos, p);
    forall sq | 0 <= sq < LargeNC && GetPiece(pos, sq) == p
      ensures exists n :: 0 <= n < GetPieceNum(pos, p) && GetPieceListSq(pos, p, n) == sq
    {
      var live := Live(pos, p);
      assert sq in live;
      var n :| 0 <= n < |live| && live[n] == sq;
      assert GetPieceListSq(pos, p, n) == sq;
    }
  }
}
